/**
 * The grading engine. It asks the oracle the same question `num_passes`
 * times, keeps the passes whose replies parse, picks the pass whose total
 * lies closest to the median total, flags a spread above the configured
 * threshold, and builds the audit receipt from three canonical texts.
 */
module Engine {
  import opened Wrappers
  import opened Text
  import opened Models
  import opened Scorer
  import opened Prompts
  import opened Stats

  /** The settings the engine reads. */
  datatype Settings = Settings(
    model: string,
    gradingPasses: int,
    temperature: real,
    maxVariancePercent: real,
    strictnessMode: StrictnessMode)

  /** The ranges the settings loader enforces. */
  predicate ValidSettings(s: Settings) {
    1 <= s.gradingPasses <= 5 && 0.0 <= s.temperature <= 1.0 && 0.0 <= s.maxVariancePercent <= 100.0
  }

  /**
   * The conversions taken as given: `str` of a Decimal, `str` of a decoded
   * JSON value, `Decimal(text)`, `json.loads` and the SHA-256 hex digest.
   */
  datatype Conversions = Conversions(
    fmt: real -> string,
    show: Json -> string,
    decimal: string -> Option<Decimal>,
    decode: string -> Option<Json>,
    hash: string -> string)

  // ------------------------------------------------------------- the oracle

  /** One call made to the oracle. */
  datatype Request = Request(systemPrompt: string, userPrompt: string, temperature: real)

  /** What one call gives back: the reply text, or an `LLMError` with its message. */
  datatype Reply = Answered(text: string) | Failed(message: string)

  /**
   * The oracle client. The reply to the call at each position is fixed in
   * advance by `answer`; `requests` logs every call in order.
   */
  class Oracle {
    var requests: seq<Request>
    const answer: nat -> Reply

    constructor(answer: nat -> Reply)
      ensures this.answer == answer && requests == []
    {
      this.answer := answer;
      requests := [];
    }

    method Generate(systemPrompt: string, userPrompt: string, temperature: real) returns (reply: Reply)
      modifies this
      ensures requests == old(requests) + [Request(systemPrompt, userPrompt, temperature)]
      ensures reply == answer(|old(requests)|)
    {
      reply := answer(|requests|);
      requests := requests + [Request(systemPrompt, userPrompt, temperature)];
    }
  }

  function Repeat(x: Request, n: nat): (r: seq<Request>)
    ensures |r| == n && forall k :: 0 <= k < n ==> r[k] == x
  {
    seq(n, k => x)
  }

  // --------------------------------------------------------------- the passes

  /** What `grade` raises: an `LLMError` with its message, or the parser's error. */
  datatype EngineError = LlmError(message: string) | Parser(error: ScoreError)

  const NoPassesMessage: string := "No successful grading passes completed"

  datatype GradingPass = GradingPass(result: GradingResult, rawResponse: string, totalScore: real)

  /**
   * What one pass comes to: a pass, an error the loop records and skips
   * (`LLMError` or `ScoringError`), or an error the loop does not catch.
   */
  datatype PassOutcome = Success(pass: GradingPass) | Skipped(error: EngineError) | Escaped(error: EngineError)

  /** `parse(raw_response, rubric)` of the response parser; `id` stands for the UUID the result draws. */
  type ParseFn = (string, Rubric, nat) -> Result<GradingResult, ScoreError>

  /** The response parser the engine holds. */
  function ParserOf(conv: Conversions): ParseFn {
    (text: string, rubric: Rubric, id: nat) => Parsed(text, rubric, id, conv.show, conv.decimal, conv.decode)
  }

  /** The prompt builder the engine holds: the system prompt, and the user prompt for a rubric, an answer and a mode. */
  datatype PromptBuilder = PromptBuilder(system: string, user: (Rubric, string, StrictnessMode) -> string)

  function BuilderOf(fmt: real -> string): PromptBuilder {
    PromptBuilder(SystemPrompt, (rubric: Rubric, answer: string, mode: StrictnessMode) => GradingPrompt(rubric, answer, mode, fmt))
  }

  /** One pass over a reply. */
  function PassOf(reply: Reply, rubric: Rubric, id: nat, parse: ParseFn): PassOutcome {
    match reply
    case Failed(m) => Skipped(LlmError(m))
    case Answered(text) =>
      match parse(text, rubric, id)
      case Ok(g) => Success(GradingPass(g, text, TotalAwarded(g)))
      case Err(e) => if IsScoringError(e) then Skipped(Parser(e)) else Escaped(Parser(e))
  }

  /** The outcomes of `count` passes over the replies to the calls from position `start` on. */
  function Outcomes(answer: nat -> Reply, start: nat, count: nat, rubric: Rubric, parse: ParseFn): (outs: seq<PassOutcome>)
    ensures |outs| == count
    ensures forall k :: 0 <= k < count ==> outs[k] == PassOf(answer(start + k), rubric, start + k, parse)
  {
    seq(count, k requires 0 <= k < count => PassOf(answer(start + k), rubric, start + k, parse))
  }

  /** `range(n)` is empty for a negative `n`. */
  function Count(n: int): nat {
    if n < 0 then 0 else n
  }

  datatype Collected = Collected(passes: seq<GradingPass>, errors: seq<EngineError>)

  /** The passes and recorded errors of the first `n` outcomes, or the first error that escapes. */
  function Gather(outs: seq<PassOutcome>, n: nat): Result<Collected, EngineError>
    requires n <= |outs|
  {
    if n == 0 then Ok(Collected([], []))
    else match Gather(outs, n - 1)
      case Err(e) => Err(e)
      case Ok(c) =>
        match outs[n - 1]
        case Success(p) => Ok(Collected(c.passes + [p], c.errors))
        case Skipped(e) => Ok(Collected(c.passes, c.errors + [e]))
        case Escaped(e) => Err(e)
  }

  /** How many calls the loop makes over the first `n` outcomes: all of them, or up to the one that escapes. */
  function CallsMade(outs: seq<PassOutcome>, n: nat): nat
    requires n <= |outs|
  {
    if n == 0 then 0
    else if Gather(outs, n - 1).Err? then CallsMade(outs, n - 1)
    else n
  }

  /** What `_perform_passes` returns or raises. */
  function PassesOf(outs: seq<PassOutcome>): (r: Result<seq<GradingPass>, EngineError>)
    ensures r.Ok? ==> r.value != []
  {
    match Gather(outs, |outs|)
    case Err(e) => Err(e)
    case Ok(c) =>
      if c.passes != [] then Ok(c.passes)
      else if c.errors != [] then Err(c.errors[0])
      else Err(LlmError(NoPassesMessage))
  }

  // ------------------------------------------------------------ the selection

  function Scores(passes: seq<GradingPass>): (s: seq<real>)
    ensures |s| == |passes|
    ensures forall k :: 0 <= k < |passes| ==> s[k] == passes[k].totalScore
  {
    seq(|passes|, k requires 0 <= k < |passes| => passes[k].totalScore)
  }

  function Distance(x: real, m: real): real {
    if x >= m then x - m else m - x
  }

  /**
   * `min(passes, key=lambda p: abs(p.total_score - m))`: the position of the
   * first total lying closest to `m`.
   */
  function Closest(scores: seq<real>, m: real): (i: nat)
    requires scores != []
    ensures i < |scores|
    ensures forall k :: 0 <= k < |scores| ==> Distance(scores[i], m) <= Distance(scores[k], m)
    ensures forall k :: 0 <= k < i ==> Distance(scores[i], m) < Distance(scores[k], m)
  {
    if |scores| == 1 then 0
    else
      var init := scores[..|scores| - 1];
      var b := Closest(init, m);
      assert forall k :: 0 <= k < |init| ==> init[k] == scores[k];
      if Distance(scores[|scores| - 1], m) < Distance(scores[b], m) then |scores| - 1 else b
  }

  /** `_calculate_variance`: the spread of the totals as a percentage of the first pass's total_max. */
  function Variance(passes: seq<GradingPass>): real {
    if |passes| < 2 then 0.0
    else
      var maxPossible := TotalMax(passes[0].result);
      if maxPossible == 0.0 then 0.0
      else (Max(Scores(passes)) - Min(Scores(passes))) / maxPossible * 100.0
  }

  /** `_select_result`: the chosen result and whether the spread exceeds `threshold`. */
  function Selected(passes: seq<GradingPass>, threshold: real): (GradingResult, bool)
    requires passes != []
  {
    if |passes| == 1 then (passes[0].result, false)
    else
      var scores := Scores(passes);
      (passes[Closest(scores, Median(scores))].result, Variance(passes) > threshold)
  }

  // ---------------------------------------------------------------- the audit

  function CriterionLine(c: Criterion, fmt: real -> string): string {
    c.name + ": " + fmt(c.maxPoints) + " - " + c.description
  }

  function CriterionLines(cs: seq<Criterion>, fmt: real -> string): (lines: seq<string>)
    ensures |lines| == |cs|
    ensures forall k :: 0 <= k < |cs| ==> lines[k] == CriterionLine(cs[k], fmt)
  {
    seq(|cs|, k requires 0 <= k < |cs| => CriterionLine(cs[k], fmt))
  }

  /** The rubric text the audit digests: the title line, then one line per criterion. */
  function RubricContent(rubric: Rubric, fmt: real -> string): string {
    rubric.title + "\n" + Join("\n", CriterionLines(rubric.criteria, fmt))
  }

  function ResultLine(r: CriterionResult, fmt: real -> string): string {
    r.criterionName + ": " + fmt(r.awardedPoints)
  }

  function ResultLines(rs: seq<CriterionResult>, fmt: real -> string): (lines: seq<string>)
    ensures |lines| == |rs|
    ensures forall k :: 0 <= k < |rs| ==> lines[k] == ResultLine(rs[k], fmt)
  {
    seq(|rs|, k requires 0 <= k < |rs| => ResultLine(rs[k], fmt))
  }

  /** The result text the audit digests: awarded over max, then one line per criterion result. */
  function ResultContent(g: GradingResult, fmt: real -> string): string {
    fmt(TotalAwarded(g)) + "/" + fmt(TotalMax(g)) + "\n" + Join("\n", ResultLines(g.criteriaResults, fmt))
  }

  /** `_create_audit`. */
  function Audit(rubric: Rubric, answer: string, g: GradingResult, s: Settings, conv: Conversions): AuditRecord {
    AuditRecord(
      conv.hash(RubricContent(rubric, conv.fmt)),
      conv.hash(answer),
      conv.hash(ResultContent(g, conv.fmt)),
      s.model,
      s.temperature,
      g.llmPassesUsed)
  }

  // ---------------------------------------------------------------- grading

  /** `passes or settings.grading_passes`: a missing or zero override takes the setting. */
  function PassCount(override: Option<int>, s: Settings): int {
    match override
    case Some(n) => if n != 0 then n else s.gradingPasses
    case None => s.gradingPasses
  }

  /** `strictness_mode or settings.strictness_mode`: every mode is truthy. */
  function ModeOf(override: Option<StrictnessMode>, s: Settings): StrictnessMode {
    match override
    case Some(m) => m
    case None => s.strictnessMode
  }

  /** The chosen result with the pass count, the variance flag and the review flag filled in. */
  function WithMeta(g: GradingResult, passesUsed: int, variance: bool, flagged: bool): GradingResult {
    GradingResult(g.submissionId, g.rubricTitle, g.criteriaResults, g.overallFeedback, passesUsed, variance, flagged)
  }

  /** What `grade` returns once the passes are in. */
  function Graded(passes: seq<GradingPass>, rubric: Rubric, answer: string, numPasses: int, s: Settings, conv: Conversions)
    : (GradingResult, AuditRecord)
    requires passes != []
  {
    var (chosen, detected) := Selected(passes, s.maxVariancePercent);
    var final := WithMeta(chosen, numPasses, detected, detected && Variance(passes) > s.maxVariancePercent);
    (final, Audit(rubric, answer, final, s, conv))
  }

  /** What `grade` returns or raises, given the outcomes of its passes. */
  function GradeOutcome(outs: seq<PassOutcome>, rubric: Rubric, answer: string, numPasses: int, s: Settings, conv: Conversions)
    : Result<(GradingResult, AuditRecord), EngineError>
  {
    match PassesOf(outs)
    case Err(e) => Err(e)
    case Ok(passes) => Ok(Graded(passes, rubric, answer, numPasses, s, conv))
  }

  class GradingEngine {
    const settings: Settings
    const oracle: Oracle
    const prompts: PromptBuilder
    const parser: ParseFn
    const conv: Conversions

    constructor(settings: Settings, oracle: Oracle, conv: Conversions)
      ensures this.settings == settings && this.oracle == oracle && this.conv == conv
      ensures prompts == BuilderOf(conv.fmt) && parser == ParserOf(conv)
    {
      this.settings := settings;
      this.oracle := oracle;
      this.conv := conv;
      prompts := BuilderOf(conv.fmt);
      parser := ParserOf(conv);
    }

    /**
     * `grade`: the passes, the selection, the result with its pass count and
     * flags, and the audit receipt. The oracle is asked once per pass made,
     * always with the same prompts and temperature.
     */
    method Grade(rubric: Rubric, answer: string, modeOverride: Option<StrictnessMode>, passesOverride: Option<int>)
      returns (r: Result<(GradingResult, AuditRecord), EngineError>)
      modifies oracle
      ensures var n := PassCount(passesOverride, settings);
        var outs := Outcomes(oracle.answer, |old(oracle.requests)|, Count(n), rubric, parser);
        && r == GradeOutcome(outs, rubric, answer, n, settings, conv)
        && oracle.requests == old(oracle.requests)
           + Repeat(Request(prompts.system, prompts.user(rubric, answer, ModeOf(modeOverride, settings)), settings.temperature),
                    CallsMade(outs, |outs|))
    {
      var mode := ModeOf(modeOverride, settings);
      var numPasses := PassCount(passesOverride, settings);
      var passes := PerformPasses(rubric, answer, mode, numPasses);
      if passes.Err? {
        return Err(passes.error);
      }
      var (chosen, detected) := Selected(passes.value, settings.maxVariancePercent);
      var final := WithMeta(chosen, numPasses, detected, detected && Variance(passes.value) > settings.maxVariancePercent);
      var audit := Audit(rubric, answer, final, settings, conv);
      return Ok((final, audit));
    }

    /** One pass of the loop of `_perform_passes` over a reply: the parsed pass, or the error it raised. */
    method RunPass(reply: Reply, rubric: Rubric, id: nat) returns (o: PassOutcome)
      ensures o == PassOf(reply, rubric, id, parser)
    {
      match reply
      case Failed(m) =>
        o := Skipped(LlmError(m));
      case Answered(text) =>
        var result := parser(text, rubric, id);
        match result
        case Ok(g) =>
          o := Success(GradingPass(g, text, TotalAwarded(g)));
        case Err(e) =>
          o := if IsScoringError(e) then Skipped(Parser(e)) else Escaped(Parser(e));
    }

    /**
     * `_perform_passes`: both prompts built once, then one oracle call per
     * pass; a pass whose call or parse fails with a recorded error is
     * skipped, and any other error ends the loop at once.
     */
    method PerformPasses(rubric: Rubric, answer: string, mode: StrictnessMode, numPasses: int)
      returns (r: Result<seq<GradingPass>, EngineError>)
      modifies oracle
      ensures var outs := Outcomes(oracle.answer, |old(oracle.requests)|, Count(numPasses), rubric, parser);
        && r == PassesOf(outs)
        && oracle.requests == old(oracle.requests)
           + Repeat(Request(prompts.system, prompts.user(rubric, answer, mode), settings.temperature), CallsMade(outs, |outs|))
    {
      var systemPrompt := prompts.system;
      var userPrompt := prompts.user(rubric, answer, mode);
      var start := |oracle.requests|;
      ghost var outs := Outcomes(oracle.answer, start, Count(numPasses), rubric, parser);
      ghost var request := Request(systemPrompt, userPrompt, settings.temperature);
      var passes: seq<GradingPass> := [];
      var errors: seq<EngineError> := [];
      var i := 0;
      while i < numPasses
        decreases numPasses - i
        invariant 0 <= i <= Count(numPasses)
        invariant Gather(outs, i) == Ok(Collected(passes, errors))
        invariant oracle.requests == old(oracle.requests) + Repeat(request, i)
      {
        var reply := oracle.Generate(systemPrompt, userPrompt, settings.temperature);
        RepeatSnoc(old(oracle.requests), request, i);
        var o := RunPass(reply, rubric, start + i);
        assert outs[i] == o;
        GatherStep(outs, i, passes, errors);
        match o {
          case Success(p) =>
            passes := passes + [p];
          case Skipped(e) =>
            errors := errors + [e];
          case Escaped(e) =>
            EscapeEnds(outs, i);
            return Err(e);
        }
        i := i + 1;
      }
      NoEscapeCalls(outs, i);
      if passes == [] {
        if errors != [] {
          return Err(errors[0]);
        }
        return Err(LlmError(NoPassesMessage));
      }
      return Ok(passes);
    }
  }

  /** One more outcome adds a pass, records an error, or ends the gathering with the escaped error. */
  lemma GatherStep(outs: seq<PassOutcome>, i: nat, passes: seq<GradingPass>, errors: seq<EngineError>)
    requires i < |outs| && Gather(outs, i) == Ok(Collected(passes, errors))
    ensures Gather(outs, i + 1) == match outs[i]
      case Success(p) => Ok(Collected(passes + [p], errors))
      case Skipped(e) => Ok(Collected(passes, errors + [e]))
      case Escaped(e) => Err(e)
  {
  }

  lemma RepeatSnoc(pre: seq<Request>, x: Request, i: nat)
    ensures pre + Repeat(x, i) + [x] == pre + Repeat(x, i + 1)
  {
    assert Repeat(x, i) + [x] == Repeat(x, i + 1);
  }

  /** An error that escapes at position `i` is what the passes raise, after `i + 1` calls. */
  lemma EscapeEnds(outs: seq<PassOutcome>, i: nat)
    requires i < |outs| && Gather(outs, i).Ok? && outs[i].Escaped?
    ensures PassesOf(outs) == Err(outs[i].error)
    ensures CallsMade(outs, |outs|) == i + 1
  {
    EscapePersists(outs, i, |outs|);
  }

  lemma {:induction false} EscapePersists(outs: seq<PassOutcome>, i: nat, n: nat)
    requires i < n <= |outs| && Gather(outs, i).Ok? && outs[i].Escaped?
    ensures Gather(outs, n) == Err(outs[i].error)
    ensures CallsMade(outs, n) == i + 1
    decreases n
  {
    if n > i + 1 {
      EscapePersists(outs, i, n - 1);
    }
  }

  /** Without an escaped error, the loop makes one call per outcome. */
  lemma NoEscapeCalls(outs: seq<PassOutcome>, n: nat)
    requires n <= |outs| && Gather(outs, n).Ok?
    ensures CallsMade(outs, n) == n
  {
    if n > 0 {
      assert Gather(outs, n - 1).Ok?;
    }
  }

  // ----------------------------------------------------- properties of the passes

  /** The passes among the outcomes, in order. */
  function Successes(outs: seq<PassOutcome>): seq<GradingPass> {
    if outs == [] then []
    else
      var last := outs[|outs| - 1];
      Successes(outs[..|outs| - 1]) + (if last.Success? then [last.pass] else [])
  }

  /** The recorded errors among the outcomes, in order. */
  function SkippedErrors(outs: seq<PassOutcome>): seq<EngineError> {
    if outs == [] then []
    else
      var last := outs[|outs| - 1];
      SkippedErrors(outs[..|outs| - 1]) + (if last.Skipped? then [last.error] else [])
  }

  /** No error escapes among the first `n` outcomes. */
  predicate NoEscapeBefore(outs: seq<PassOutcome>, n: nat)
    requires n <= |outs|
  {
    forall k :: 0 <= k < n ==> !outs[k].Escaped?
  }

  /** Without an escaped error, the loop keeps every pass and every recorded error, in order. */
  lemma {:induction false} GatherNoEscape(outs: seq<PassOutcome>, n: nat)
    requires n <= |outs| && NoEscapeBefore(outs, n)
    ensures Gather(outs, n) == Ok(Collected(Successes(outs[..n]), SkippedErrors(outs[..n])))
    decreases n
  {
    if n > 0 {
      GatherNoEscape(outs, n - 1);
      var pre := outs[..n];
      assert pre[..n - 1] == outs[..n - 1] && pre[n - 1] == outs[n - 1];
      var ps, es := Successes(outs[..n - 1]), SkippedErrors(outs[..n - 1]);
      GatherStep(outs, n - 1, ps, es);
      if outs[n - 1].Success? {
        assert es + [] == es;
        assert Successes(pre) == ps + [outs[n - 1].pass] && SkippedErrors(pre) == es;
      } else {
        assert ps + [] == ps;
        assert Successes(pre) == ps && SkippedErrors(pre) == es + [outs[n - 1].error];
      }
    } else {
      assert outs[..n] == [];
    }
  }

  /** The loop is cut short exactly when some outcome escapes. */
  lemma {:induction false} GatherEscapes(outs: seq<PassOutcome>, n: nat)
    requires n <= |outs|
    ensures Gather(outs, n).Err? <==> exists k :: 0 <= k < n && outs[k].Escaped?
    decreases n
  {
    if n > 0 {
      GatherEscapes(outs, n - 1);
      if outs[n - 1].Escaped? {
        assert exists k :: 0 <= k < n && outs[k].Escaped?;
      }
    }
  }

  /** The first error that escapes is what the passes raise, after the call that produced it. */
  lemma FirstEscapeRaised(outs: seq<PassOutcome>, i: nat)
    requires i < |outs| && outs[i].Escaped? && NoEscapeBefore(outs, i)
    ensures PassesOf(outs) == Err(outs[i].error)
    ensures CallsMade(outs, |outs|) == i + 1
  {
    GatherEscapes(outs, i);
    EscapeEnds(outs, i);
  }

  /**
   * Without an escaped error the oracle is called once per outcome; the
   * passes are returned when there are any, and otherwise the first
   * recorded error, or the no-passes error when nothing was recorded.
   */
  lemma PassesWithoutEscape(outs: seq<PassOutcome>)
    requires NoEscapeBefore(outs, |outs|)
    ensures CallsMade(outs, |outs|) == |outs|
    ensures PassesOf(outs).Ok? <==> Successes(outs) != []
    ensures PassesOf(outs).Ok? ==> PassesOf(outs).value == Successes(outs)
    ensures Successes(outs) == [] && SkippedErrors(outs) != [] ==> PassesOf(outs) == Err(SkippedErrors(outs)[0])
    ensures SkippedErrors(outs) == [] && Successes(outs) == [] ==> PassesOf(outs) == Err(LlmError(NoPassesMessage))
  {
    GatherNoEscape(outs, |outs|);
    assert outs[..|outs|] == outs;
    NoEscapeCalls(outs, |outs|);
  }

  /** Passes returned means no outcome escaped, and they are the successes, in order. */
  lemma PassesReturned(outs: seq<PassOutcome>)
    requires PassesOf(outs).Ok?
    ensures NoEscapeBefore(outs, |outs|) && PassesOf(outs).value == Successes(outs)
  {
    GatherEscapes(outs, |outs|);
    PassesWithoutEscape(outs);
  }

  /** Without an escaped error, every outcome is either a kept pass or a recorded error. */
  lemma {:induction false} EveryCallAccounted(outs: seq<PassOutcome>)
    requires NoEscapeBefore(outs, |outs|)
    ensures |Successes(outs)| + |SkippedErrors(outs)| == |outs|
    decreases |outs|
  {
    if outs != [] {
      var init := outs[..|outs| - 1];
      assert NoEscapeBefore(init, |init|) by {
        assert forall k :: 0 <= k < |init| ==> init[k] == outs[k];
      }
      EveryCallAccounted(init);
    }
  }

  /** The kept passes are exactly the passes among the outcomes. */
  lemma {:induction false} SuccessesMembers(outs: seq<PassOutcome>, p: GradingPass)
    ensures p in Successes(outs) <==> exists k :: 0 <= k < |outs| && outs[k] == Success(p)
    decreases |outs|
  {
    if outs != [] {
      var init := outs[..|outs| - 1];
      SuccessesMembers(init, p);
      assert forall k :: 0 <= k < |init| ==> init[k] == outs[k];
      if exists k :: 0 <= k < |outs| && outs[k] == Success(p) {
        var k :| 0 <= k < |outs| && outs[k] == Success(p);
        if k < |init| {
          assert init[k] == Success(p);
        }
      }
    }
  }

  /** When every pass fails with a recorded error, the first of them is raised after all the calls. */
  lemma FirstErrorReraised(outs: seq<PassOutcome>)
    requires outs != [] && forall k :: 0 <= k < |outs| ==> outs[k].Skipped?
    ensures PassesOf(outs) == Err(outs[0].error)
    ensures CallsMade(outs, |outs|) == |outs|
  {
    AllSkipped(outs);
    PassesWithoutEscape(outs);
  }

  lemma {:induction false} AllSkipped(outs: seq<PassOutcome>)
    requires outs != [] && forall k :: 0 <= k < |outs| ==> outs[k].Skipped?
    ensures Successes(outs) == [] && SkippedErrors(outs) != [] && SkippedErrors(outs)[0] == outs[0].error
    decreases |outs|
  {
    var init := outs[..|outs| - 1];
    if init != [] {
      assert forall k :: 0 <= k < |init| ==> init[k] == outs[k];
      AllSkipped(init);
    }
  }

  /** Asking for no passes, or a negative number of them, raises the no-passes error without calling the oracle. */
  lemma NoPassesAsked(outs: seq<PassOutcome>)
    requires outs == []
    ensures PassesOf(outs) == Err(LlmError(NoPassesMessage)) && CallsMade(outs, 0) == 0
  {
  }

  /** The oracle is called at most once per pass asked for. */
  lemma {:induction false} CallsAtMostPasses(outs: seq<PassOutcome>, n: nat)
    requires n <= |outs|
    ensures CallsMade(outs, n) <= n
    decreases n
  {
    if n > 0 {
      CallsAtMostPasses(outs, n - 1);
    }
  }

  // ---------------------------------------------- properties of the selection

  /**
   * The reference for `min(passes, key=...)` around median `m`: pass `i` lies
   * no further from `m` than any pass, and strictly closer than every pass
   * before it.
   */
  predicate ClosestTo(passes: seq<GradingPass>, i: int, m: real) {
    0 <= i < |passes|
    && (forall k :: 0 <= k < |passes| ==> Distance(passes[i].totalScore, m) <= Distance(passes[k].totalScore, m))
    && (forall k :: 0 <= k < i ==> Distance(passes[i].totalScore, m) < Distance(passes[k].totalScore, m))
  }

  /**
   * `_select_result`: a single pass is returned as it is, with no variance;
   * otherwise the result is that of the first pass closest to the median
   * total, and variance is detected exactly when the spread exceeds the
   * threshold.
   */
  lemma SelectedSpec(passes: seq<GradingPass>, threshold: real)
    requires passes != []
    ensures |passes| == 1 ==> Selected(passes, threshold) == (passes[0].result, false)
    ensures |passes| >= 2 ==> (Selected(passes, threshold).1 <==> Variance(passes) > threshold)
    ensures exists i :: ClosestTo(passes, i, Median(Scores(passes))) && Selected(passes, threshold).0 == passes[i].result
  {
    var scores := Scores(passes);
    if |passes| == 1 {
      assert ClosestTo(passes, 0, Median(scores));
    } else {
      var i := Closest(scores, Median(scores));
      assert ClosestTo(passes, i, Median(scores));
    }
  }

  /** Passes that agree on their total give the first pass's result, with no variance under a non-negative threshold. */
  lemma AgreeingPasses(passes: seq<GradingPass>, threshold: real)
    requires passes != [] && threshold >= 0.0
    requires forall k :: 0 <= k < |passes| ==> passes[k].totalScore == passes[0].totalScore
    ensures Selected(passes, threshold) == (passes[0].result, false)
  {
    if |passes| >= 2 {
      var scores := Scores(passes);
      var v := passes[0].totalScore;
      MedianOfEqual(scores, v);
      ClosestOfEqual(scores, v);
      if TotalMax(passes[0].result) != 0.0 {
        VarianceZeroIffAgree(passes);
      }
    }
  }

  /** Among totals that all equal `v`, the first one is the closest to `v`. */
  lemma ClosestOfEqual(scores: seq<real>, v: real)
    requires scores != [] && forall k :: 0 <= k < |scores| ==> scores[k] == v
    ensures Closest(scores, v) == 0
  {
    var i := Closest(scores, v);
    assert Distance(scores[i], v) == Distance(scores[0], v) == 0.0;
  }

  /**
   * Fewer than two passes, or a zero total_max, give no variance; otherwise
   * the variance is zero exactly when all totals agree.
   */
  lemma VarianceZeroIffAgree(passes: seq<GradingPass>)
    ensures |passes| < 2 || TotalMax(passes[0].result) == 0.0 ==> Variance(passes) == 0.0
    ensures |passes| >= 2 && TotalMax(passes[0].result) != 0.0 ==>
      (Variance(passes) == 0.0 <==> forall k :: 0 <= k < |passes| ==> passes[k].totalScore == passes[0].totalScore)
  {
    if |passes| < 2 || TotalMax(passes[0].result) == 0.0 { return; }
    var scores := Scores(passes);
    var mp := TotalMax(passes[0].result);
    var d := Max(scores) - Min(scores);
    assert Variance(passes) == d / mp * 100.0;
    if d != 0.0 {
      assert d / mp * mp == d;
      assert d / mp != 0.0;
      var j :| 0 <= j < |scores| && scores[j] == Max(scores);
      var k :| 0 <= k < |scores| && scores[k] == Min(scores);
      assert scores[j] != scores[k];
    } else {
      forall k | 0 <= k < |passes| ensures passes[k].totalScore == passes[0].totalScore {
        assert Min(scores) <= scores[k] <= Max(scores);
        assert Min(scores) <= scores[0] <= Max(scores);
      }
    }
  }

  /** Totals between zero and a positive total_max of the first pass keep the variance between 0 and 100 percent. */
  lemma VarianceBounded(passes: seq<GradingPass>)
    requires passes != [] && TotalMax(passes[0].result) > 0.0
    requires forall k :: 0 <= k < |passes| ==> 0.0 <= passes[k].totalScore <= TotalMax(passes[0].result)
    ensures 0.0 <= Variance(passes) <= 100.0
  {
    if |passes| >= 2 {
      var scores := Scores(passes);
      var j :| 0 <= j < |scores| && scores[j] == Max(scores);
      var k :| 0 <= k < |scores| && scores[k] == Min(scores);
      assert Min(scores) <= Max(scores);
      RatioPercentBounds(Max(scores) - Min(scores), TotalMax(passes[0].result));
    }
  }

  /**
   * What `grade` builds from the passes: the chosen pass's identity, title,
   * results and feedback with `num_passes` passes used; the review flag is
   * the variance flag itself, since its second conjunct repeats the first;
   * the audit digests the rubric text, the answer and the result text.
   */
  lemma GradedMeta(passes: seq<GradingPass>, rubric: Rubric, answer: string, numPasses: int, s: Settings, conv: Conversions)
    requires passes != []
    ensures var (g, audit) := Graded(passes, rubric, answer, numPasses, s, conv);
      && (exists i :: ClosestTo(passes, i, Median(Scores(passes)))
            && g == passes[i].result.(llmPassesUsed := numPasses, varianceDetected := g.varianceDetected, flaggedForReview := g.flaggedForReview))
      && g.llmPassesUsed == numPasses && audit.passesCount == numPasses
      && (g.varianceDetected <==> |passes| >= 2 && Variance(passes) > s.maxVariancePercent)
      && g.flaggedForReview == g.varianceDetected
      && audit.answerHash == conv.hash(answer)
      && audit.rubricHash == conv.hash(RubricContent(rubric, conv.fmt))
      && audit.resultHash == conv.hash(ResultContent(g, conv.fmt))
      && audit.modelUsed == s.model && audit.temperature == s.temperature
  {
    SelectedSpec(passes, s.maxVariancePercent);
  }

  // ------------------------------------------------ properties of parsed passes

  /**
   * A result the parser may return for the call with this id: valid, for
   * this rubric, under that id, matching the rubric's criteria, its total
   * within its total_max, which is the rubric's when no two criteria share
   * a lower-cased name.
   */
  predicate KeptResult(g: GradingResult, rubric: Rubric, id: nat) {
    && ValidGradingResult(g) && g.submissionId == id && g.rubricTitle == rubric.title
    && MatchesRubric(g.criteriaResults, rubric.criteria)
    && 0.0 <= TotalAwarded(g) <= TotalMax(g)
    && (CaselessDistinct(rubric.criteria) ==> TotalMax(g) == TotalMaxPoints(rubric))
  }

  /** Every result the parser returns for the rubric is one it may return. */
  ghost predicate ParserKeeps(parse: ParseFn, rubric: Rubric) {
    forall text, id :: parse(text, rubric, id).Ok? ==> KeptResult(parse(text, rubric, id).value, rubric, id)
  }

  /** A pass `grade` may keep: a kept result of a call from `lo` up to `hi`, scored by its total. */
  predicate KeptPass(p: GradingPass, rubric: Rubric, lo: nat, hi: nat) {
    lo <= p.result.submissionId < hi && KeptResult(p.result, rubric, p.result.submissionId)
    && p.totalScore == TotalAwarded(p.result)
  }

  /** What `parse` returns is a kept result for the rubric under the id it drew. */
  lemma ParsedResult(text: string, rubric: Rubric, id: nat, conv: Conversions)
    requires Parsed(text, rubric, id, conv.show, conv.decimal, conv.decode).Ok?
    ensures KeptResult(Parsed(text, rubric, id, conv.show, conv.decimal, conv.decode).value, rubric, id)
  {
    var r := Parsed(text, rubric, id, conv.show, conv.decimal, conv.decode);
    var data := conv.decode(ExtractedJson(text).value).value;
    assert r == Converted(data, rubric, id, conv.show, conv.decimal);
    ConvertedShape(data, rubric, id, conv.show, conv.decimal);
    ConvertedMatchesRubric(data, rubric, id, conv.show, conv.decimal);
    GradingTotals(r.value);
    if CaselessDistinct(rubric.criteria) {
      ConvertedCovers(data, rubric, id, conv.show, conv.decimal);
    }
  }

  /** The engine's parser keeps to what `parse` promises. */
  lemma ParserOfKeeps(conv: Conversions, rubric: Rubric)
    ensures ParserKeeps(ParserOf(conv), rubric)
  {
    forall text, id | ParserOf(conv)(text, rubric, id).Ok?
      ensures KeptResult(ParserOf(conv)(text, rubric, id).value, rubric, id)
    {
      ParsedResult(text, rubric, id, conv);
    }
  }

  /** Every pass kept from the outcomes answers its own call and holds a kept result of that call. */
  lemma OutcomesKept(replies: nat -> Reply, start: nat, count: nat, rubric: Rubric, parse: ParseFn)
    requires ParserKeeps(parse, rubric)
    ensures var outs := Outcomes(replies, start, count, rubric, parse);
      forall k :: 0 <= k < count && outs[k].Success? ==>
        replies(start + k) == Answered(outs[k].pass.rawResponse) && outs[k].pass.result.submissionId == start + k
        && KeptPass(outs[k].pass, rubric, start, start + count)
  {
  }

  /** The passes returned are among the kept passes. */
  lemma ReturnedKept(outs: seq<PassOutcome>, rubric: Rubric, lo: nat, hi: nat)
    requires PassesOf(outs).Ok?
    requires forall k :: 0 <= k < |outs| && outs[k].Success? ==> KeptPass(outs[k].pass, rubric, lo, hi)
    ensures forall j :: 0 <= j < |PassesOf(outs).value| ==> KeptPass(PassesOf(outs).value[j], rubric, lo, hi)
  {
    PassesReturned(outs);
    var passes := PassesOf(outs).value;
    forall j | 0 <= j < |passes| ensures KeptPass(passes[j], rubric, lo, hi) {
      SuccessesMembers(outs, passes[j]);
    }
  }

  /**
   * When the passes are kept ones, what `grade` returns is a valid result
   * for the rubric under the id of one of its calls, with `num_passes`
   * (at least one) passes used.
   */
  lemma GradedValid(outs: seq<PassOutcome>, rubric: Rubric, answer: string, n: int, s: Settings, conv: Conversions, lo: nat)
    requires |outs| == Count(n) && GradeOutcome(outs, rubric, answer, n, s, conv).Ok?
    requires forall k :: 0 <= k < |outs| && outs[k].Success? ==> KeptPass(outs[k].pass, rubric, lo, lo + Count(n))
    ensures var g := GradeOutcome(outs, rubric, answer, n, s, conv).value.0;
      && ValidGradingResult(g) && g.rubricTitle == rubric.title && MatchesRubric(g.criteriaResults, rubric.criteria)
      && lo <= g.submissionId < lo + n && g.llmPassesUsed == n
  {
    ReturnedKept(outs, rubric, lo, lo + Count(n));
    var passes := PassesOf(outs).value;
    SelectedSpec(passes, s.maxVariancePercent);
  }

  /** What `grade` returns is a valid result for the rubric, under the id of one of its own calls. */
  lemma GradeValid(replies: nat -> Reply, start: nat, n: int, rubric: Rubric, answer: string, s: Settings, conv: Conversions)
    requires GradeOutcome(Outcomes(replies, start, Count(n), rubric, ParserOf(conv)), rubric, answer, n, s, conv).Ok?
    ensures var g := GradeOutcome(Outcomes(replies, start, Count(n), rubric, ParserOf(conv)), rubric, answer, n, s, conv).value.0;
      && ValidGradingResult(g) && g.rubricTitle == rubric.title && MatchesRubric(g.criteriaResults, rubric.criteria)
      && start <= g.submissionId < start + n && g.llmPassesUsed == n
  {
    ParserOfKeeps(conv, rubric);
    OutcomesKept(replies, start, Count(n), rubric, ParserOf(conv));
    GradedValid(Outcomes(replies, start, Count(n), rubric, ParserOf(conv)), rubric, answer, n, s, conv, start);
  }

  /**
   * When no two criteria share a lower-cased name and the rubric's total is
   * positive, the variance of the passes `grade` keeps lies between 0 and
   * 100 percent.
   */
  lemma KeptVarianceBounded(passes: seq<GradingPass>, rubric: Rubric, lo: nat, hi: nat)
    requires CaselessDistinct(rubric.criteria) && TotalMaxPoints(rubric) > 0.0 && passes != []
    requires forall j :: 0 <= j < |passes| ==> KeptPass(passes[j], rubric, lo, hi)
    ensures 0.0 <= Variance(passes) <= 100.0
  {
    assert KeptPass(passes[0], rubric, lo, hi);
    VarianceBounded(passes);
  }

  lemma ParsedVarianceBounded(replies: nat -> Reply, start: nat, count: nat, rubric: Rubric, conv: Conversions)
    requires CaselessDistinct(rubric.criteria) && TotalMaxPoints(rubric) > 0.0
    requires PassesOf(Outcomes(replies, start, count, rubric, ParserOf(conv))).Ok?
    ensures 0.0 <= Variance(PassesOf(Outcomes(replies, start, count, rubric, ParserOf(conv))).value) <= 100.0
  {
    var outs := Outcomes(replies, start, count, rubric, ParserOf(conv));
    ParserOfKeeps(conv, rubric);
    OutcomesKept(replies, start, count, rubric, ParserOf(conv));
    ReturnedKept(outs, rubric, start, start + count);
    KeptVarianceBounded(PassesOf(outs).value, rubric, start, start + count);
  }

  // -------------------------------------------------- properties of the audit

  /** The rubric text opens with the title line and holds the line of every criterion. */
  lemma RubricContentLines(rubric: Rubric, fmt: real -> string)
    ensures StartsWith(RubricContent(rubric, fmt), rubric.title + "\n")
    ensures forall k :: 0 <= k < |rubric.criteria| ==> Contains(RubricContent(rubric, fmt), CriterionLine(rubric.criteria[k], fmt))
  {
    var lines := CriterionLines(rubric.criteria, fmt);
    StartsWithAppend(rubric.title + "\n", Join("\n", lines));
    forall k | 0 <= k < |rubric.criteria| ensures Contains(RubricContent(rubric, fmt), CriterionLine(rubric.criteria[k], fmt)) {
      JoinHas("\n", lines, k);
      ContainsInRight(rubric.title + "\n", Join("\n", lines), lines[k]);
    }
  }

  /** The result text opens with awarded over max and holds the line of every criterion result. */
  lemma ResultContentLines(g: GradingResult, fmt: real -> string)
    ensures StartsWith(ResultContent(g, fmt), fmt(TotalAwarded(g)) + "/" + fmt(TotalMax(g)) + "\n")
    ensures forall k :: 0 <= k < |g.criteriaResults| ==> Contains(ResultContent(g, fmt), ResultLine(g.criteriaResults[k], fmt))
  {
    var head := fmt(TotalAwarded(g)) + "/" + fmt(TotalMax(g)) + "\n";
    var lines := ResultLines(g.criteriaResults, fmt);
    StartsWithAppend(head, Join("\n", lines));
    forall k | 0 <= k < |g.criteriaResults| ensures Contains(ResultContent(g, fmt), ResultLine(g.criteriaResults[k], fmt)) {
      JoinHas("\n", lines, k);
      ContainsInRight(head, Join("\n", lines), lines[k]);
    }
  }
}
