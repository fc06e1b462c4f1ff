/**
 * The rubric text parser: splits rubric text into lines, skips blank,
 * heading and table-separator lines, tries four line formats in a fixed
 * order (numbered, dash-separated, colon-separated, table row; the first
 * that matches wins), and works out a title.
 *
 * The three regular expressions of the source are replaced by hand-written
 * matchers that give what the pattern gives on a stripped line, backtracking
 * included; the parser only ever hands them stripped lines.
 */
module RubricParser {
  import opened Wrappers
  import opened Text
  import opened Models

  /** `RubricParseError`: what went wrong, and for a bad points value the line it is on. */
  datatype RubricParseError =
    | EmptyContent
    | NoValidCriteria
    | NonPositivePoints(points: real, line: nat)

  /** The parser either raises its own error or lets a constructor's validation error through. */
  datatype ParseFailure =
    | ParseError(error: RubricParseError)
    | ValidationError(violations: set<Violation>)

  /** What one line gives: nothing, a criterion, or an error that stops the parse. */
  datatype LineOutcome = NoMatch | Parsed(criterion: Criterion) | Failed(failure: ParseFailure)

  /** The parts of a matched line as the source uses them: stripped name, points token, stripped description. */
  datatype Groups = Groups(name: string, points: string, description: string)

  /**
   * Where the groups of a match lie in the line, as `Match.span` gives them:
   * the name and the points token as ranges, and the start of the
   * description, which runs to the end of the line.
   */
  datatype Spans = Spans(nameFrom: nat, nameTo: nat, pointsFrom: nat, pointsTo: nat, descriptionFrom: nat)

  predicate SpansIn(line: string, sp: Spans) {
    sp.nameFrom <= sp.nameTo <= |line| && sp.pointsFrom <= sp.pointsTo <= |line| && sp.descriptionFrom <= |line|
  }

  const NoCriteriaMessage: string :=
    "No valid criteria found. Expected format like:\n  1. Content Accuracy (10 points): Description\n  OR: Content Accuracy - 10 pts - Description"

  /**
   * The text of an error as raised; a points error carries the prefix
   * "Line N: ". `fmt` renders a decimal as `str(Decimal)` does.
   */
  function ErrorText(e: RubricParseError, fmt: real -> string): (t: string)
    ensures e.NonPositivePoints? && e.line >= 1 ==> StartsWith(t, "Line " + NatText(e.line) + ": ")
  {
    match e
    case EmptyContent => "Rubric content is empty"
    case NoValidCriteria => NoCriteriaMessage
    case NonPositivePoints(points, line) =>
      var message := "Points must be positive, got " + fmt(points);
      if line != 0 then
        var prefix := "Line " + NatText(line) + ": ";
        assert (prefix + message)[..|prefix|] == prefix;
        prefix + message
      else message
  }

  // ------------------------------------------------------------ line shapes

  predicate IsDash(c: char) {
    c == '-' || c == '\U{2013}' || c == '\U{2014}'
  }

  predicate NoDashChars(s: string) {
    forall k :: 0 <= k < |s| ==> !IsDash(s[k])
  }

  /** `s.replace(c, "")` for one character. */
  function RemoveChar(s: string, c: char): string {
    if s == [] then []
    else if s[0] == c then RemoveChar(s[1..], c)
    else [s[0]] + RemoveChar(s[1..], c)
  }

  /** A line the parser passes over: blank, a heading, a `---` rule, or a table separator row such as `|---|:--:|`. */
  predicate IsSkipped(stripped: string) {
    stripped == []
    || StartsWith(stripped, "#")
    || StartsWith(stripped, "---")
    || (StartsWith(stripped, "|") && RuleChars(Strip(RemoveChar(stripped, '|'))))
  }

  /** Only the `-` and `:` of a table separator row. */
  predicate RuleChars(s: string) {
    s == [] || ((s[0] == '-' || s[0] == ':') && RuleChars(s[1..]))
  }

  /** `s` without its leading run of `[:\s]*`. */
  function DropColonSpace(s: string): (r: string)
    ensures |r| <= |s|
    ensures r != [] ==> r[0] != ':' && !IsSpace(r[0])
  {
    if s != [] && (s[0] == ':' || IsSpace(s[0])) then DropColonSpace(s[1..]) else s
  }

  /** How many characters of the class `[,;:\s]` start at `i`. */
  function SeparatorRun(s: string, i: nat): (n: nat)
    requires i <= |s|
    ensures i + n <= |s|
    ensures i + n == |s| || !IsSeparator(s[i + n])
    decreases |s| - i
  {
    if i < |s| && IsSeparator(s[i]) then 1 + SeparatorRun(s, i + 1) else 0
  }

  /** A character of the class `[,;:\s]`. */
  predicate IsSeparator(c: char) {
    c == ',' || c == ';' || c == ':' || IsSpace(c)
  }

  /**
   * `^\s*(\d+)\.\s*([^(]+)\((\d+(?:\.\d+)?)\s*(?:points?|pts?|marks?)\)[:\s]*(.*)$`,
   * ignoring case, on a stripped line. The name runs from the dot to the
   * first `(`, which must open the points. The name span keeps the spaces
   * around the name, and the description span starts right after the `)`,
   * before the `[:\s]*`.
   */
  function MatchNumbered(line: string): (g: Option<Spans>)
    requires IsStripped(line)
    ensures g.Some? ==> SpansIn(line, g.value)
  {
    var d := DigitRun(line, 0);
    if d == 0 || d == |line| || line[d] != '.' then None
    else
      var open := CharIndex(line, '(', d + 1);
      if open == |line| || open == d + 1 then None
      else
        var n := NumberEnd(line, open + 1);
        if n == open + 1 then None
        else
          var u := n + SpaceRun(line, n);
          var e := UnitEnd(line, u, true);
          if e == u || e == |line| || line[e] != ')' then None
          else Some(Spans(d + 1, open, open + 1, n, e + 1))
  }

  /**
   * The rest of `^\s*([^-]+?)\s*[-–—]\s*(\d+(?:\.\d+)?)\s*(?:points?|pts?|marks?)\s*[-–—]\s*(.+)$`
   * once the name has ended at the dash at `d`: the points token, and the
   * description span after the second dash.
   */
  function DashTail(line: string, d: nat): (r: Option<Spans>)
    requires d < |line|
    ensures r.Some? ==> SpansIn(line, r.value)
  {
    var i := d + 1;
    var a := i + SpaceRun(line, i);
    var n := NumberEnd(line, a);
    if n == a then None
    else
      var u := n + SpaceRun(line, n);
      var e := UnitEnd(line, u, true);
      if e == u then None
      else
        var s := e + SpaceRun(line, e);
        if s == |line| || !IsDash(line[s]) || s + 1 == |line| then None
        else Some(Spans(0, d, a, n, s + 1))
  }

  /**
   * The lazy name of the dash pattern: the first separator position `d` (the
   * name `line[..d]` holding no `-`) after which the rest of the pattern matches.
   */
  function DashFrom(line: string, d: nat): (g: Option<Spans>)
    requires 1 <= d
    ensures g.Some? ==> SpansIn(line, g.value)
    decreases |line| - d
  {
    if d >= |line| || line[d - 1] == '-' then None
    else if IsDash(line[d]) && DashTail(line, d).Some? then DashTail(line, d)
    else DashFrom(line, d + 1)
  }

  /** The dash pattern on a stripped line. */
  function MatchDash(line: string): (g: Option<Spans>)
    requires IsStripped(line)
    ensures g.Some? ==> SpansIn(line, g.value)
  {
    DashFrom(line, 1)
  }

  /**
   * `^\s*([^:]+):\s*(\d+(?:\.\d+)?)\s*(?:points?|pts?|marks?)`, the first
   * part of the colon pattern, ignoring case: the name span, the points
   * token, and where the rest of the line after the unit starts.
   */
  function MatchColonHead(line: string): (g: Option<Spans>)
    requires IsStripped(line)
    ensures g.Some? ==> SpansIn(line, g.value)
  {
    var c := CharIndex(line, ':', 0);
    if c == |line| || c == 0 then None
    else
      var a := c + 1 + SpaceRun(line, c + 1);
      var n := NumberEnd(line, a);
      if n == a then None
      else
        var u := n + SpaceRun(line, n);
        var e := UnitEnd(line, u, true);
        if e == u then None
        else Some(Spans(0, c, a, n, e))
  }

  /**
   * `[,;:\s]+(.+)$`, the end of the colon pattern, on what follows the unit:
   * where in `rest` the description starts. When the separators run to the
   * end of the line, the last of them is given back to the description.
   */
  function SeparatedRest(line: string, e: nat): (r: Option<nat>)
    requires e <= |line|
    ensures r.Some? ==> 0 < r.value < |line| - e
  {
    var k := SeparatorRun(line, e);
    if k == 0 then None
    else if e + k < |line| then Some(k)
    else if |line| - e < 2 then None
    else Some(|line| - e - 1)
  }

  /** The colon pattern on a stripped line. */
  function MatchColon(line: string): (g: Option<Spans>)
    requires IsStripped(line)
    ensures g.Some? ==> SpansIn(line, g.value)
  {
    match MatchColonHead(line)
    case None => None
    case Some(h) =>
      match SeparatedRest(line, h.descriptionFrom)
      case None => None
      case Some(k) => Some(h.(descriptionFrom := h.descriptionFrom + k))
  }

  /**
   * `_parse_points` and the criterion constructor applied to matched groups:
   * a points value of zero is an error on this line; `defaultDescription`
   * replaces an empty description by "Evaluation of {name}".
   */
  function Build(g: Groups, lineNum: nat, defaultDescription: bool): (o: LineOutcome)
    ensures o != NoMatch
    ensures OutcomeValid(o)
  {
    var points := TokenValue(g.points);
    if points <= 0.0 then Failed(ParseError(NonPositivePoints(points, lineNum)))
    else
      var description := if defaultDescription && g.description == [] then "Evaluation of " + g.name else g.description;
      match MakeCriterion(g.name, description, points, true)
      case Ok(c) => Parsed(c)
      case Err(v) => Failed(ValidationError(v))
  }

  /** What `_build_criterion` makes of the groups: a points error when the points are not positive,
      the criterion when the constructor accepts it, and the constructor's error otherwise. */
  lemma BuildMeaning(g: Groups, lineNum: nat, defaultDescription: bool)
    ensures var o := Build(g, lineNum, defaultDescription);
      var points := TokenValue(g.points);
      var description := if defaultDescription && g.description == [] then "Evaluation of " + g.name else g.description;
      && (points <= 0.0 <==> o == Failed(ParseError(NonPositivePoints(points, lineNum))))
      && (o.Parsed? <==> 0.0 < points <= 1000.0 && 1 <= |g.name| <= 200 && description != [])
      && (o.Parsed? ==> o.criterion == Criterion(g.name, description, points, true))
      && (o.Failed? && 0.0 < points ==> o.failure.ValidationError?)
  {
  }

  /** The groups of the numbered pattern: name and description stripped, the `[:\s]*` before the description dropped. */
  function NumberedGroups(line: string): Option<Groups>
    requires IsStripped(line)
  {
    match MatchNumbered(line)
    case None => None
    case Some(sp) =>
      Some(Groups(Strip(line[sp.nameFrom..sp.nameTo]), line[sp.pointsFrom..sp.pointsTo], Strip(DropColonSpace(line[sp.descriptionFrom..]))))
  }

  /** The groups of a match as `.strip()` leaves them. */
  function StrippedGroups(line: string, sp: Spans): Groups
    requires SpansIn(line, sp)
  {
    Groups(Strip(line[sp.nameFrom..sp.nameTo]), line[sp.pointsFrom..sp.pointsTo], Strip(line[sp.descriptionFrom..]))
  }

  function DashGroups(line: string): Option<Groups>
    requires IsStripped(line)
  {
    match MatchDash(line)
    case None => None
    case Some(sp) => Some(StrippedGroups(line, sp))
  }

  function ColonGroups(line: string): Option<Groups>
    requires IsStripped(line)
  {
    match MatchColon(line)
    case None => None
    case Some(sp) => Some(StrippedGroups(line, sp))
  }

  /** `_try_numbered_format`: an empty description becomes "Evaluation of {name}". */
  function TryNumbered(line: string, lineNum: nat): (o: LineOutcome)
    requires IsStripped(line)
    ensures OutcomeValid(o)
    ensures o.NoMatch? <==> NumberedGroups(line).None?
  {
    match NumberedGroups(line)
    case None => NoMatch
    case Some(g) => Build(g, lineNum, true)
  }

  /** `_try_simple_format`. */
  function TryDash(line: string, lineNum: nat): (o: LineOutcome)
    requires IsStripped(line)
    ensures OutcomeValid(o)
    ensures o.NoMatch? <==> DashGroups(line).None?
  {
    match DashGroups(line)
    case None => NoMatch
    case Some(g) => Build(g, lineNum, false)
  }

  /** `_try_colon_format`. */
  function TryColon(line: string, lineNum: nat): (o: LineOutcome)
    requires IsStripped(line)
    ensures OutcomeValid(o)
    ensures o.NoMatch? <==> ColonGroups(line).None?
  {
    match ColonGroups(line)
    case None => NoMatch
    case Some(g) => Build(g, lineNum, false)
  }

  // -------------------------------------------------------------- table rows

  /** `[c.strip() for c in line.split("|")]` without its empty cells. */
  function NonEmptyCells(parts: seq<string>): (cells: seq<string>)
    ensures forall k :: 0 <= k < |cells| ==> cells[k] != []
  {
    if parts == [] then []
    else
      var c := Strip(parts[0]);
      (if c == [] then [] else [c]) + NonEmptyCells(parts[1..])
  }

  function TableCells(line: string): seq<string> {
    NonEmptyCells(Split(line, '|'))
  }

  /** The first match of `(\d+(?:\.\d+)?)\s*(?:points?|pts?|marks?)?` in a cell (case matters here): group 1 and group 0. */
  datatype CellNumber = CellNumber(token: string, matched: string)

  function SearchNumber(cell: string): (m: Option<CellNumber>)
    ensures m.Some? ==> |m.value.matched| > 0
    ensures m.None? <==> forall k :: 0 <= k < |cell| ==> !IsDigit(cell[k])
  {
    var p := FirstDigit(cell, 0);
    if p == |cell| then None
    else
      var n := NumberEnd(cell, p);
      var u := n + SpaceRun(cell, n);
      var e := UnitEnd(cell, u, false);
      Some(CellNumber(cell[p..n], cell[p..e]))
  }

  function FirstDigit(s: string, i: nat): (p: nat)
    requires i <= |s|
    ensures i <= p <= |s|
    ensures p < |s| ==> IsDigit(s[p])
    ensures forall k :: i <= k < p ==> !IsDigit(s[k])
    decreases |s| - i
  {
    if i == |s| || IsDigit(s[i]) then i else FirstDigit(s, i + 1)
  }

  /**
   * The criterion of a table row whose first cell holding a number is cell
   * `i`: from cell 0 the name is that cell with the number text removed;
   * otherwise the name is cell 0 and the description the cells after cell `i`.
   */
  function TableCriterion(cells: seq<string>, i: nat, m: CellNumber, lineNum: nat): (o: LineOutcome)
    requires 2 <= |cells| && i < |cells|
    requires |m.matched| > 0
    requires forall k :: 0 <= k < |cells| ==> cells[k] != []
    ensures o != NoMatch
    ensures OutcomeValid(o)
  {
    var points := TokenValue(m.token);
    if points <= 0.0 then Failed(ParseError(NonPositivePoints(points, lineNum)))
    else
      var name :=
        if i == 0 then
          var rest := Strip(ReplaceAll(cells[0], m.matched, ""));
          if rest == [] then "Criterion " + NatText(lineNum) else rest
        else cells[0];
      var description :=
        if i == 0 then Join(" ", cells[1..])
        else if i + 1 < |cells| then Join(" ", cells[i + 1..])
        else "Evaluation of " + name;
      var finalDescription := if description == [] then "Evaluation of " + name else description;
      match MakeCriterion(name, finalDescription, points, true)
      case Ok(c) => Parsed(c)
      case Err(v) => Failed(ValidationError(v))
  }

  /** The outcome of scanning the cells from position `i` on for the first one holding a number. */
  function TableFrom(cells: seq<string>, i: nat, lineNum: nat): (o: LineOutcome)
    requires 2 <= |cells| && i <= |cells|
    requires forall k :: 0 <= k < |cells| ==> cells[k] != []
    ensures OutcomeValid(o)
    decreases |cells| - i
  {
    if i == |cells| then NoMatch
    else match SearchNumber(cells[i])
      case None => TableFrom(cells, i + 1, lineNum)
      case Some(m) => TableCriterion(cells, i, m, lineNum)
  }

  /** `_try_table_format` as a function: rows start with `|` and need two non-empty cells. */
  function TableOutcome(line: string, lineNum: nat): (o: LineOutcome)
    ensures OutcomeValid(o)
  {
    if !StartsWith(line, "|") then NoMatch
    else
      var cells := TableCells(line);
      if |cells| < 2 then NoMatch else TableFrom(cells, 0, lineNum)
  }

  /**
   * `_try_table_format`: scans the cells left to right and builds the
   * criterion from the first cell that holds a number; a row with no number
   * gives nothing.
   */
  method TryTableFormat(line: string, lineNum: nat) returns (o: LineOutcome)
    ensures o == TableOutcome(line, lineNum)
  {
    if !StartsWith(line, "|") {
      return NoMatch;
    }
    var cells := TableCells(line);
    if |cells| < 2 {
      return NoMatch;
    }
    for i := 0 to |cells|
      invariant TableFrom(cells, i, lineNum) == TableFrom(cells, 0, lineNum)
    {
      var m := SearchNumber(cells[i]);
      if m.Some? {
        return TableCriterion(cells, i, m.value, lineNum);
      }
    }
    return NoMatch;
  }

  /** The scan of a table row stops at the first cell that holds a number. */
  lemma TableFromFirstNumber(cells: seq<string>, i: nat, j: nat, lineNum: nat)
    requires 2 <= |cells| && i <= j < |cells|
    requires forall k :: 0 <= k < |cells| ==> cells[k] != []
    requires forall k :: i <= k < j ==> SearchNumber(cells[k]).None?
    requires SearchNumber(cells[j]).Some?
    ensures TableFrom(cells, i, lineNum) == TableCriterion(cells, j, SearchNumber(cells[j]).value, lineNum)
  {
    TableFromSkips(cells, i, j, lineNum);
  }

  /** Cells without a number are passed over. */
  lemma {:induction false} TableFromSkips(cells: seq<string>, i: nat, j: nat, lineNum: nat)
    requires 2 <= |cells| && i <= j <= |cells|
    requires forall k :: 0 <= k < |cells| ==> cells[k] != []
    requires forall k :: i <= k < j ==> SearchNumber(cells[k]).None?
    ensures TableFrom(cells, i, lineNum) == TableFrom(cells, j, lineNum)
    decreases j - i
  {
    if i < j {
      TableFromSkips(cells, i + 1, j, lineNum);
    }
  }

  /**
   * A criterion read from a table row takes its points from the number
   * found; from cell 0 its description is the other cells joined by spaces,
   * otherwise its name is cell 0 and its description the cells after the
   * number cell, or "Evaluation of <name>" when there are none. Since cells
   * are never empty, the fallback for an empty description never applies.
   */
  lemma TableCriterionParts(cells: seq<string>, i: nat, m: CellNumber, lineNum: nat)
    requires 2 <= |cells| && i < |cells| && |m.matched| > 0
    requires forall k :: 0 <= k < |cells| ==> cells[k] != []
    requires TableCriterion(cells, i, m, lineNum).Parsed?
    ensures var c := TableCriterion(cells, i, m, lineNum).criterion;
      && c.maxPoints == TokenValue(m.token) && c.allowsPartialCredit
      && (i == 0 ==> c.description == Join(" ", cells[1..]))
      && (i > 0 ==> c.name == cells[0])
      && (0 < i && i + 1 < |cells| ==> c.description == Join(" ", cells[i + 1..]))
      && (0 < i && i + 1 == |cells| ==> c.description == "Evaluation of " + cells[0])
  {
    assert cells[1..][0] == cells[1];
    if i + 1 < |cells| {
      assert cells[i + 1..][0] == cells[i + 1];
    }
  }

  // ------------------------------------------------------------------ lines

  /** One line: skipped, or put through the four formats in order (numbered, dash, colon, table); the first that does not say NoMatch decides. */
  function ParseLine(line: string, lineNum: nat): (o: LineOutcome)
    ensures OutcomeValid(o)
  {
    var s := Strip(line);
    if IsSkipped(s) then NoMatch
    else
      var numbered := TryNumbered(s, lineNum);
      if !numbered.NoMatch? then numbered
      else
        var dash := TryDash(s, lineNum);
        if !dash.NoMatch? then dash
        else
          var colon := TryColon(s, lineNum);
          if !colon.NoMatch? then colon
          else TableOutcome(s, lineNum)
  }

  /** Blank lines, headings, `---` rules and table separator rows give neither a criterion nor an error. */
  lemma SkippedLineGivesNothing(line: string, lineNum: nat)
    requires IsSkipped(Strip(line))
    ensures ParseLine(line, lineNum) == NoMatch
  {
  }

  /** The outcome of every line, numbered from 1. */
  function LineOutcomes(lines: seq<string>): (outs: seq<LineOutcome>)
    ensures |outs| == |lines|
    ensures forall k :: 0 <= k < |lines| ==> outs[k] == ParseLine(lines[k], k + 1)
    ensures OutcomesValid(outs)
  {
    seq(|lines|, k requires 0 <= k < |lines| => ParseLine(lines[k], k + 1))
  }

  /** A line raises only its own points error or a constructor's validation error. */
  predicate LineFailure(f: ParseFailure) {
    f.ValidationError? || f.error.NonPositivePoints?
  }

  predicate OutcomeValid(o: LineOutcome) {
    (o.Parsed? ==> ValidCriterion(o.criterion)) && (o.Failed? ==> LineFailure(o.failure))
  }

  predicate OutcomesValid(outs: seq<LineOutcome>) {
    forall k :: 0 <= k < |outs| ==> OutcomeValid(outs[k])
  }

  /** The criteria of the first `n` outcomes in order, or the first failure among them. */
  function Collect(outs: seq<LineOutcome>, n: nat): (r: Result<seq<Criterion>, ParseFailure>)
    requires n <= |outs|
    requires OutcomesValid(outs)
    ensures r.Ok? ==> AllCriteriaValid(r.value) && |r.value| <= n
    ensures r.Err? ==> LineFailure(r.error)
  {
    if n == 0 then Ok([])
    else match Collect(outs, n - 1)
      case Err(f) => Err(f)
      case Ok(cs) =>
        match outs[n - 1]
        case NoMatch => Ok(cs)
        case Parsed(c) => Ok(cs + [c])
        case Failed(f) => Err(f)
  }

  /** The criteria of the first `n` lines, or the first error among them. */
  function ParseLinesUpTo(lines: seq<string>, n: nat): (r: Result<seq<Criterion>, ParseFailure>)
    requires n <= |lines|
    ensures r.Ok? ==> AllCriteriaValid(r.value) && |r.value| <= n
    ensures r.Err? ==> LineFailure(r.error)
  {
    Collect(LineOutcomes(lines), n)
  }

  /** Once an outcome has failed, collecting any longer prefix fails with the same error. */
  lemma {:induction false} FailurePersists(outs: seq<LineOutcome>, k: nat, n: nat)
    requires k <= n <= |outs|
    requires OutcomesValid(outs)
    requires Collect(outs, k).Err?
    ensures Collect(outs, n) == Collect(outs, k)
    decreases n - k
  {
    if k < n {
      FailurePersists(outs, k, n - 1);
    }
  }

  /** The chain `numbered or dash or colon or table` of `_parse_lines` for one line. */
  method ParseOneLine(line: string, lineNum: nat) returns (o: LineOutcome)
    ensures o == ParseLine(line, lineNum)
  {
    var stripped := Strip(line);
    if IsSkipped(stripped) {
      return NoMatch;
    }
    o := TryNumbered(stripped, lineNum);
    if o.NoMatch? {
      o := TryDash(stripped, lineNum);
    }
    if o.NoMatch? {
      o := TryColon(stripped, lineNum);
    }
    if o.NoMatch? {
      o := TryTableFormat(stripped, lineNum);
    }
  }

  /** One more outcome extends the collected criteria, fails, or changes nothing. */
  lemma CollectNext(outs: seq<LineOutcome>, i: nat, criteria: seq<Criterion>)
    requires i < |outs| && OutcomesValid(outs)
    requires Collect(outs, i) == Ok(criteria)
    ensures Collect(outs, i + 1) == match outs[i]
      case NoMatch => Ok(criteria)
      case Parsed(c) => Ok(criteria + [c])
      case Failed(f) => Err(f)
  {
  }

  /** `_parse_lines`: the criteria in line order, or the error of the first line that raises. */
  method ParseLines(lines: seq<string>) returns (r: Result<seq<Criterion>, ParseFailure>)
    ensures r == ParseLinesUpTo(lines, |lines|)
    ensures r.Ok? ==> AllCriteriaValid(r.value)
  {
    ghost var outs := LineOutcomes(lines);
    var criteria: seq<Criterion> := [];
    for i := 0 to |lines|
      invariant Collect(outs, i) == Ok(criteria)
    {
      var o := ParseOneLine(lines[i], i + 1);
      assert o == outs[i];
      CollectNext(outs, i, criteria);
      match o
      case Failed(f) =>
        FailurePersists(outs, i + 1, |lines|);
        return Err(f);
      case Parsed(c) =>
        criteria := criteria + [c];
      case NoMatch =>
    }
    assert ParseLinesUpTo(lines, |lines|) == Collect(outs, |lines|);
    return Ok(criteria);
  }

  // ------------------------------------------------------------------ title

  /** `re.search(r"\d+\s*(?:points?|pts?|marks?)", s, re.IGNORECASE)`: a digit followed by a unit word. */
  predicate LooksLikeCriterion(s: string) {
    exists j :: 1 <= j <= |s| && IsDigit(s[j - 1]) && UnitEnd(s, j + SpaceRun(s, j), true) > j + SpaceRun(s, j)
  }

  predicate HasTitleBreaker(s: string) {
    '|' in s || '-' in s || ':' in s
  }

  /** `s.lstrip("#")`. */
  function DropHashes(s: string): (r: string)
    ensures r == [] || r[0] != '#'
  {
    if s != [] && s[0] == '#' then DropHashes(s[1..]) else s
  }

  /** What `_extract_title` does with one stripped line. */
  datatype TitleStep = Heading(title: string) | Plain(title: string) | Stop | Next

  function TitleStepOf(line: string): TitleStep {
    var s := Strip(line);
    if StartsWith(s, "#") then Heading(Strip(DropHashes(s)))
    else if s != [] && !LooksLikeCriterion(s) then
      (if |s| < 100 && !HasTitleBreaker(s) then Plain(s) else Stop)
    else Next
  }

  function TitleSteps(lines: seq<string>): (steps: seq<TitleStep>)
    ensures |steps| == |lines|
    ensures forall k :: 0 <= k < |lines| ==> steps[k] == TitleStepOf(lines[k])
  {
    seq(|lines|, k requires 0 <= k < |lines| => TitleStepOf(lines[k]))
  }

  /** The title decided by the steps from position `i` on, if any. */
  function ScanSteps(steps: seq<TitleStep>, i: nat): (t: Option<string>)
    requires i <= |steps|
    ensures t.Some? ==> exists k :: i <= k < |steps| && steps[k] in {Heading(t.value), Plain(t.value)}
    decreases |steps| - i
  {
    if i == |steps| then None
    else match steps[i]
      case Heading(t) => Some(t)
      case Plain(t) => Some(t)
      case Stop => None
      case Next => ScanSteps(steps, i + 1)
  }

  /** The title found in the lines, if any. */
  function TitleScan(lines: seq<string>): Option<string> {
    ScanSteps(TitleSteps(lines), 0)
  }

  /**
   * The title comes from the first line that is neither blank nor
   * criterion-shaped: a heading gives its text, a short plain line itself,
   * and any other line ends the search with no title.
   */
  lemma {:induction false} TitleFromFirstCandidate(steps: seq<TitleStep>, k: nat)
    requires k < |steps|
    requires forall j :: 0 <= j < k ==> steps[j] == Next
    requires steps[k] != Next
    ensures ScanSteps(steps, 0) == match steps[k]
      case Heading(t) => Some(t)
      case Plain(t) => Some(t)
      case _ => None
  {
    var i := k;
    while i > 0
      invariant 0 <= i <= k
      invariant ScanSteps(steps, i) == ScanSteps(steps, k)
    {
      i := i - 1;
    }
  }

  /** `_extract_title`: scans the lines, returning at a heading or a short plain line and stopping at any other text line. */
  method ExtractTitle(lines: seq<string>) returns (t: Option<string>)
    ensures t == TitleScan(lines)
  {
    ghost var steps := TitleSteps(lines);
    t := None;
    for i := 0 to |lines|
      invariant ScanSteps(steps, i) == ScanSteps(steps, 0)
    {
      var stripped := Strip(lines[i]);
      if StartsWith(stripped, "#") {
        return Some(Strip(DropHashes(stripped)));
      }
      if stripped != [] && !LooksLikeCriterion(stripped) {
        if |stripped| < 100 && !HasTitleBreaker(stripped) {
          return Some(stripped);
        }
        break;
      }
    }
  }

  // ------------------------------------------------------------------ parse

  /** The rubric title: the one found in the text, unless none (or an empty one) was found. */
  function ChosenTitle(lines: seq<string>, fallback: string): string {
    var t := TitleScan(lines);
    if t.Some? && t.value != [] then t.value else fallback
  }

  /** `RubricParser.parse` as a function of the content and the caller's title. */
  function ParseSpec(content: string, title: string): (r: Result<Rubric, ParseFailure>)
    ensures r.Ok? ==> ValidRubric(r.value)
  {
    var body := Strip(content);
    if body == [] then Err(ParseError(EmptyContent))
    else
      var lines := Split(body, '\n');
      match ParseLinesUpTo(lines, |lines|)
      case Err(f) => Err(f)
      case Ok(cs) =>
        if cs == [] then Err(ParseError(NoValidCriteria))
        else match MakeRubric(ChosenTitle(lines, title), "", cs)
          case Ok(rubric) => Ok(rubric)
          case Err(v) => Err(ValidationError(v))
  }

  /**
   * `RubricParser.parse`: empty or all-whitespace content raises
   * EmptyContent; otherwise the lines of the stripped content are parsed,
   * no criterion at all raises NoValidCriteria, and the rubric is built
   * with the title found in the text or else the caller's.
   */
  method Parse(content: string, title: string) returns (r: Result<Rubric, ParseFailure>)
    ensures r == ParseSpec(content, title)
    ensures r == Err(ParseError(EmptyContent)) <==> AllSpace(content)
    ensures r.Ok? ==> ValidRubric(r.value)
  {
    StripEmptyIffAllSpace(content);
    var body := Strip(content);
    if body == [] {
      return Err(ParseError(EmptyContent));
    }
    var lines := Split(body, '\n');
    var criteria := ParseLines(lines);
    if criteria.Err? {
      return Err(criteria.error);
    }
    if criteria.value == [] {
      return Err(ParseError(NoValidCriteria));
    }
    var found := ExtractTitle(lines);
    var chosen := if found.Some? && found.value != [] then found.value else title;
    var built := MakeRubric(chosen, "", criteria.value);
    r := match built
      case Ok(rubric) => Ok(rubric)
      case Err(v) => Err(ValidationError(v));
  }

  /** Collecting gives no criteria and no error exactly when every outcome so far is NoMatch. */
  lemma {:induction false} CollectEmptyIffNoMatch(outs: seq<LineOutcome>, n: nat)
    requires n <= |outs| && OutcomesValid(outs)
    ensures Collect(outs, n) == Ok([]) <==> forall k :: 0 <= k < n ==> outs[k] == NoMatch
  {
    if n > 0 {
      CollectEmptyIffNoMatch(outs, n - 1);
      if Collect(outs, n - 1).Ok? && outs[n - 1].Parsed? {
        assert |Collect(outs, n).value| > 0;
      }
    }
  }

  /** The criteria collected from outcomes that all parsed, in line order. */
  lemma {:induction false} CollectKeepsOrder(outs: seq<LineOutcome>, n: nat)
    requires n <= |outs| && OutcomesValid(outs)
    requires forall k :: 0 <= k < n ==> outs[k].Parsed?
    ensures Collect(outs, n).Ok? && |Collect(outs, n).value| == n
    ensures forall k :: 0 <= k < n ==> Collect(outs, n).value[k] == outs[k].criterion
  {
    if n > 0 {
      CollectKeepsOrder(outs, n - 1);
    }
  }

  /** No outcome among the first `n` gives a criterion or an error. */
  predicate NothingMatches(outs: seq<LineOutcome>, n: nat)
    requires n <= |outs|
  {
    forall k :: 0 <= k < n ==> outs[k] == NoMatch
  }

  /**
   * Non-blank content raises NoValidCriteria exactly when no line of it
   * gives a criterion or an error.
   */
  lemma NoCriteriaIffNothingMatches(content: string, title: string)
    ensures var lines := Split(Strip(content), '\n');
      ParseSpec(content, title) == Err(ParseError(NoValidCriteria))
      <==> !AllSpace(content) && NothingMatches(LineOutcomes(lines), |lines|)
  {
    StripEmptyIffAllSpace(content);
    var lines := Split(Strip(content), '\n');
    CollectEmptyIffNoMatch(LineOutcomes(lines), |lines|);
  }
}
