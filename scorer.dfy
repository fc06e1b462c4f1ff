/**
 * The response parser: it pulls a JSON object out of the oracle's free
 * text, then reconciles the decoded value with the rubric. Every check has
 * a fixed place in the order, and the first one that fails is the error
 * reported.
 */
module Scorer {
  import opened Wrappers
  import opened Text
  import opened Models

  /**
   * A Python `Decimal`: a finite value, an infinity, or a NaN, quiet or
   * signalling. Ordering a NaN, or computing with a signalling one, raises
   * `InvalidOperation`; `==` and `!=` on a quiet NaN do not.
   */
  datatype Decimal = Finite(value: real) | Infinite(negative: bool) | NaN(signaling: bool)

  /**
   * A value as `json.loads` returns it; an object is a `dict`, so a repeated
   * key keeps its last value. `JNaN` and `JInfinity` are the floats it reads
   * from the literals `NaN`, `Infinity` and `-Infinity`.
   */
  datatype Json =
    | JNull
    | JBool(b: bool)
    | JNumber(number: real)
    | JNaN
    | JInfinity(negative: bool)
    | JString(text: string)
    | JArray(items: seq<Json>)
    | JObject(fields: map<string, Json>)

  /**
   * Why a response was refused. All but the last three are `ScoringError`s;
   * `TypeFault` is a Python `TypeError`, `NaNComparison` the
   * `decimal.InvalidOperation` a NaN raises when it is compared, and
   * `ResultRejected` a validation error of the result model; these escape
   * the parser unchanged.
   */
  datatype ScoreError =
    | NoJsonObject
    | UnclosedJsonObject
    | InvalidJson
    | MissingField(field: string)
    | NotAList
    | ItemNotObject(index: nat)
    | MissingCriterionName(index: nat)
    | UnknownCriterion(name: string)
    | DuplicateCriterion(name: string)
    | InvalidNumber(field: string)
    | NegativePoints(name: string, points: Decimal)
    | PointsAboveMax(name: string, points: Decimal, maxPoints: real)
    | MissingJustification(name: string)
    | MissingCriteria(names: set<string>)
    | MaxPossibleMismatch(reported: Decimal, expected: real)
    | TypeFault
    | NaNComparison
    | ResultRejected(violations: set<Violation>)

  /** The errors the parser raises as `ScoringError`, which the engine records and skips. */
  predicate IsScoringError(e: ScoreError) {
    !e.TypeFault? && !e.NaNComparison? && !e.ResultRejected?
  }

  // ------------------------------------------------------ finding the object

  const Fence: string := "```"

  /**
   * `re.search(r"```(?:json)?\s*([\s\S]*?)```", response)`, then
   * `group(1).strip()`. The match starts at the first fence; an optional
   * `json` tag follows, and the block runs to the next fence. Searching for
   * the closing fence from just after the tag finds the same fence the
   * regular expression does, since neither the tag nor whitespace holds a
   * backtick, and stripping the block drops the whitespace `\s*` skips.
   */
  function FencedBlock(s: string): (r: Option<string>)
    ensures r.Some? ==> exists p, c :: OccursAt(s, p, Fence) && OccursAt(s, c, Fence) && p + 3 <= c
    ensures r.None? ==> forall p, c :: OccursAt(s, p, Fence) && OccursAt(s, c, Fence) ==> c < p + 3
  {
    match IndexOf(s, Fence, 0)
    case None => None
    case Some(p) =>
      var start := if OccursAt(s, p + 3, "json") then p + 7 else p + 3;
      match IndexOf(s, Fence, start)
      case None => if start == p + 7 then TagHoldsNoFence(s, p); None else None
      case Some(c) => Some(Strip(s[start..c]))
  }

  /** No fence starts inside a `json` tag. */
  lemma TagHoldsNoFence(s: string, p: nat)
    requires OccursAt(s, p + 3, "json")
    ensures forall c :: p + 3 <= c < p + 7 ==> !OccursAt(s, c, Fence)
  {
    forall c | p + 3 <= c < p + 7 ensures !OccursAt(s, c, Fence) {
      assert s[c] == s[p + 3..p + 7][c - p - 3];
      if c + 3 <= |s| {
        assert s[c..c + 3][0] == s[c];
      }
    }
  }

  /** +1 for an opening brace, -1 for a closing one, 0 for anything else. */
  function BraceStep(c: char): int {
    if c == '{' then 1 else if c == '}' then -1 else 0
  }

  /** Opening braces minus closing braces in `t`. */
  function Balance(t: string): int {
    if t == [] then 0 else Balance(t[..|t| - 1]) + BraceStep(t[|t| - 1])
  }

  /** The brace depth of a scan that starts at `b`, once it has read `s[k]`. */
  function DepthAt(s: string, b: nat, k: nat): int
    requires b <= k < |s|
  {
    Balance(s[b..k + 1])
  }

  /** Reading one more character moves the depth by that character's step. */
  lemma DepthStep(s: string, b: nat, k: nat)
    requires b <= k < |s|
    ensures DepthAt(s, b, k) == Balance(s[b..k]) + BraceStep(s[k])
  {
    assert s[b..k + 1][..k - b] == s[b..k];
  }

  /** The first position `e >= j` where the scan from `b` is back at depth 0. */
  function FirstClose(s: string, b: nat, j: nat): (r: Option<nat>)
    requires b <= j <= |s|
    ensures r.Some? ==> j <= r.value < |s| && DepthAt(s, b, r.value) == 0
    ensures r.Some? ==> forall k :: j <= k < r.value ==> DepthAt(s, b, k) != 0
    ensures r.None? ==> forall k :: j <= k < |s| ==> DepthAt(s, b, k) != 0
    decreases |s| - j
  {
    if j == |s| then None
    else if DepthAt(s, b, j) == 0 then Some(j)
    else FirstClose(s, b, j + 1)
  }

  /** A position where the depth is 0 for the first time since `j` is the one `FirstClose` finds. */
  lemma {:induction false} FirstCloseAt(s: string, b: nat, j: nat, e: nat)
    requires b <= j <= e < |s| && DepthAt(s, b, e) == 0
    requires forall k :: j <= k < e ==> DepthAt(s, b, k) != 0
    ensures FirstClose(s, b, j) == Some(e)
    decreases e - j
  {
    if j < e {
      FirstCloseAt(s, b, j + 1, e);
    }
  }

  /** When the depth never returns to 0 from `j` on, `FirstClose` finds nothing. */
  lemma {:induction false} FirstCloseNone(s: string, b: nat, j: nat)
    requires b <= j <= |s|
    requires forall k :: j <= k < |s| ==> DepthAt(s, b, k) != 0
    ensures FirstClose(s, b, j) == None
    decreases |s| - j
  {
    if j < |s| {
      FirstCloseNone(s, b, j + 1);
    }
  }

  /** What `_extract_json` returns: the fenced block if there is one, else the first brace-balanced object. */
  function ExtractedJson(s: string): Result<string, ScoreError> {
    match FencedBlock(s)
    case Some(block) => Ok(block)
    case None =>
      var b := CharIndex(s, '{', 0);
      if b == |s| then Err(NoJsonObject)
      else
        match FirstClose(s, b, b)
        case Some(e) => Ok(s[b..e + 1])
        case None => Err(UnclosedJsonObject)
  }

  /** `_extract_json`: a fenced block first; otherwise a scan from the first `{` keeping a depth counter. */
  method ExtractJson(response: string) returns (r: Result<string, ScoreError>)
    ensures r == ExtractedJson(response)
  {
    var fenced := FencedBlock(response);
    if fenced.Some? {
      return Ok(fenced.value);
    }
    var braceStart := CharIndex(response, '{', 0);
    if braceStart == |response| {
      return Err(NoJsonObject);
    }
    var depth := 0;
    for i := braceStart to |response|
      invariant depth == Balance(response[braceStart..i])
      invariant forall k :: braceStart <= k < i ==> DepthAt(response, braceStart, k) > 0
      invariant i > braceStart ==> depth > 0
    {
      DepthStep(response, braceStart, i);
      if response[i] == '{' {
        depth := depth + 1;
      } else if response[i] == '}' {
        depth := depth - 1;
        if depth == 0 {
          FirstCloseAt(response, braceStart, braceStart, i);
          return Ok(response[braceStart..i + 1]);
        }
      }
    }
    FirstCloseNone(response, braceStart, braceStart);
    return Err(UnclosedJsonObject);
  }

  /**
   * Without a fence, the extracted text starts at the first `{`, ends with
   * the `}` that balances it, and every shorter prefix leaves a brace open.
   */
  lemma BraceObjectShape(s: string)
    requires FencedBlock(s).None? && ExtractedJson(s).Ok?
    ensures var t := ExtractedJson(s).value;
      |t| >= 2 && t[0] == '{' && t[|t| - 1] == '}' && Balance(t) == 0
      && (forall k :: 1 <= k < |t| ==> Balance(t[..k]) > 0)
      && '{' !in s[..CharIndex(s, '{', 0)]
  {
    var b := CharIndex(s, '{', 0);
    var e := FirstClose(s, b, b).value;
    var t := s[b..e + 1];
    DepthsPositive(s, b, e);
    forall k | 1 <= k < |t| ensures Balance(t[..k]) > 0 {
      assert t[..k] == s[b..b + k - 1 + 1];
      assert DepthAt(s, b, b + k - 1) > 0;
    }
    DepthStep(s, b, e);
    assert t[..|t| - 1] == s[b..e];
  }

  /** From a `{` at `b`, the depth stays positive up to the first return to 0. */
  lemma {:induction false} DepthsPositive(s: string, b: nat, e: nat)
    requires b <= e < |s| && s[b] == '{'
    requires forall k :: b <= k < e ==> DepthAt(s, b, k) != 0
    ensures forall k :: b <= k < e ==> DepthAt(s, b, k) > 0
    decreases e - b
  {
    if e > b {
      DepthsPositive(s, b, e - 1);
      var k := e - 1;
      DepthStep(s, b, k);
      if k == b {
        assert s[b..b] == [];
      } else {
        DepthStep(s, b, k - 1);
        assert DepthAt(s, b, k - 1) > 0;
        assert s[b..k] == s[b..k - 1 + 1];
      }
    }
  }

  // ------------------------------------------------------ reading the values

  /** `str(v)`: a string is itself; `show` renders any other value the way Python's `str` does. */
  function PyStr(v: Json, show: Json -> string): string {
    if v.JString? then v.text else show(v)
  }

  /** A `show` that renders the JSON literals as Python's `str` does: `None`, `True` and `False`. */
  predicate PyShow(show: Json -> string) {
    show(JNull) == "None" && show(JBool(true)) == "True" && show(JBool(false)) == "False"
  }

  /** `d.get(key, default)` on a decoded object. */
  function GetOr(fields: map<string, Json>, key: string, default: Json): Json {
    if key in fields then fields[key] else default
  }

  /**
   * `_parse_decimal`: `Decimal(str(value))`. A decoded number is taken as
   * the exact value it denotes, and a non-finite float as the NaN or
   * infinity its text `nan`, `inf` or `-inf` reads as; any other value goes
   * through its text, and `decimal` stands for `Decimal`'s own reading of a
   * text (`None` when it raises). `Decimal` reads `"NaN"`, `"sNaN"` and
   * `"Infinity"` without raising.
   */
  function ParseDecimal(v: Json, field: string, show: Json -> string, decimal: string -> Option<Decimal>)
    : (r: Result<Decimal, ScoreError>)
    ensures v.JNumber? ==> r == Ok(Finite(v.number))
    ensures v.JNaN? ==> r == Ok(NaN(false))
    ensures v.JInfinity? ==> r == Ok(Infinite(v.negative))
    ensures v.JString? ==> (r.Ok? <==> decimal(v.text).Some?) && (r.Ok? ==> Some(r.value) == decimal(v.text))
    ensures r.Err? ==> r.error == InvalidNumber(field)
  {
    match v
    case JNumber(x) => Ok(Finite(x))
    case JNaN => Ok(NaN(false))
    case JInfinity(negative) => Ok(Infinite(negative))
    case _ =>
      match decimal(PyStr(v, show))
      case None => Err(InvalidNumber(field))
      case Some(x) => Ok(x)
  }

  /** `d < x` for a decimal that is not a NaN. */
  predicate Below(d: Decimal, x: real)
    requires !d.NaN?
  {
    if d.Finite? then d.value < x else d.negative
  }

  /** `d > x` for a decimal that is not a NaN. */
  predicate Above(d: Decimal, x: real)
    requires !d.NaN?
  {
    if d.Finite? then d.value > x else !d.negative
  }

  // -------------------------------------------------------- the rubric lookup

  /** `{c.name.lower(): c for c in rubric.criteria}` as a `dict` holds it: entries in first-insertion order. */
  type Table = seq<(string, Criterion)>

  function KeySet(d: Table): set<string> {
    set e | e in d :: e.0
  }

  /** No key occurs at two entries, as in any `dict`. */
  predicate UniqueKeys(d: Table) {
    forall a, b :: 0 <= a < b < |d| ==> d[a].0 != d[b].0
  }

  /** `d[key] = c`: the entry of `key` is overwritten where it stands, or appended when there is none. */
  function Put(d: Table, key: string, c: Criterion): (r: Table)
    requires UniqueKeys(d)
    ensures UniqueKeys(r)
    ensures (key, c) in r
    ensures forall e :: e in r ==> (e in d && e.0 != key) || e == (key, c)
    ensures forall e :: e in d && e.0 != key ==> e in r
  {
    if d == [] then [(key, c)]
    else
      TailKeys(d);
      if d[0].0 == key then
        ConsUnique((key, c), d[1..]);
        [(key, c)] + d[1..]
      else
        var rest := Put(d[1..], key, c);
        ConsUnique(d[0], rest);
        [d[0]] + rest
  }

  /** The entries after the first of a `dict` are a `dict` none of whose keys is the first key. */
  lemma TailKeys(d: Table)
    requires UniqueKeys(d) && d != []
    ensures UniqueKeys(d[1..])
    ensures forall e :: e in d[1..] ==> e.0 != d[0].0 && e in d
  {
    forall e | e in d[1..] ensures e.0 != d[0].0 && e in d {
      var b :| 0 <= b < |d[1..]| && d[1..][b] == e;
      assert d[1..][b] == d[b + 1];
    }
  }

  /** An entry whose key the rest does not hold, put in front of a `dict`, keeps the keys unique. */
  lemma ConsUnique(x: (string, Criterion), rest: Table)
    requires UniqueKeys(rest)
    requires forall e :: e in rest ==> e.0 != x.0
    ensures UniqueKeys([x] + rest)
  {
    var r := [x] + rest;
    forall a, b | 0 <= a < b < |r| ensures r[a].0 != r[b].0 {
      assert r[b] == rest[b - 1] && r[b] in rest;
      if a > 0 { assert r[a] == rest[a - 1]; }
    }
  }

  /** The lookup built from the criteria in order, so the last criterion of a lower-cased name wins. */
  function LookupTable(cs: seq<Criterion>): (r: Table)
    ensures UniqueKeys(r)
    ensures forall e :: e in r ==> e.0 == Lower(e.1.name) && e.1 in cs
  {
    if cs == [] then []
    else
      var init := LookupTable(cs[..|cs| - 1]);
      var c := cs[|cs| - 1];
      assert forall e :: e in init ==> e.1 in cs;
      Put(init, Lower(c.name), c)
  }

  /** The lookup of a non-empty list is the lookup of all but the last criterion, with the last one put in. */
  lemma TableStep(cs: seq<Criterion>)
    requires cs != []
    ensures LookupTable(cs) == Put(LookupTable(cs[..|cs| - 1]), Lower(cs[|cs| - 1].name), cs[|cs| - 1])
  {
  }

  /** Every criterion's lower-cased name is a key of the lookup. */
  lemma {:induction false} TableKeys(cs: seq<Criterion>)
    ensures forall k :: 0 <= k < |cs| ==> Lower(cs[k].name) in KeySet(LookupTable(cs))
  {
    if cs != [] {
      var init := cs[..|cs| - 1];
      var c := cs[|cs| - 1];
      TableKeys(init);
      var t0 := LookupTable(init);
      var r := Put(t0, Lower(c.name), c);
      TableStep(cs);
      forall k | 0 <= k < |cs| ensures Lower(cs[k].name) in KeySet(r) {
        if k < |cs| - 1 {
          assert cs[k] == init[k];
          var e :| e in t0 && e.0 == Lower(cs[k].name);
          if e.0 != Lower(c.name) {
            assert e in r;
          }
        }
      }
    }
  }

  /** `d.get(key)`. */
  function Get(d: Table, key: string): (r: Option<Criterion>)
    ensures r.Some? ==> (key, r.value) in d
    ensures r.Some? <==> key in KeySet(d)
  {
    if d == [] then None
    else if d[0].0 == key then Some(d[0].1)
    else
      assert forall e :: e in d[1..] ==> e in d;
      assert forall e :: e in d && e.0 == key ==> e in d[1..];
      Get(d[1..], key)
  }

  /** The first entry, in dictionary order, whose key and the reported name contain one another either way. */
  function PartialMatch(d: Table, low: string): (r: Option<Criterion>)
    ensures r.Some? ==> exists e :: e in d && e.1 == r.value && (Contains(low, e.0) || Contains(e.0, low))
    ensures r.None? ==> forall e :: e in d ==> !Contains(low, e.0) && !Contains(e.0, low)
  {
    if d == [] then None
    else if Contains(low, d[0].0) || Contains(d[0].0, low) then Some(d[0].1)
    else
      assert forall e :: e in d ==> e == d[0] || e in d[1..];
      assert forall e :: e in d[1..] ==> e in d;
      PartialMatch(d[1..], low)
  }

  /** The criterion a reported name stands for: the exact lower-cased key, else the first partial match. */
  function Resolve(d: Table, name: string): (r: Option<Criterion>)
    ensures r.Some? ==> exists e :: e in d && e.1 == r.value
    ensures Lower(name) in KeySet(d) ==> r.Some? && (Lower(name), r.value) in d
  {
    match Get(d, Lower(name))
    case Some(c) => Some(c)
    case None => PartialMatch(d, Lower(name))
  }

  /** The loop over `rubric_lookup.items()` that looks for a partial match, stopping at the first. */
  method FindPartialMatch(d: Table, low: string) returns (r: Option<Criterion>)
    ensures r == PartialMatch(d, low)
  {
    r := None;
    var i := 0;
    while i < |d|
      invariant 0 <= i <= |d|
      invariant PartialMatch(d, low) == PartialMatch(d[i..], low)
    {
      assert d[i..][1..] == d[i + 1..];
      var (name, crit) := d[i];
      if Contains(low, name) || Contains(name, low) {
        r := Some(crit);
        return;
      }
      i := i + 1;
    }
  }

  // ----------------------------------------------------- the criteria results

  /** The field named in the error for an unreadable `awarded_points`. */
  function AwardedField(i: nat): string {
    "criteria_results[" + NatText(i) + "].awarded_points"
  }

  /** `deduction_reason`: absent or `null` gives none, a non-string is rendered, and the text "null" also gives none. */
  function Deduction(fields: map<string, Json>, show: Json -> string): (r: Option<string>)
    ensures r.Some? ==> "deduction_reason" in fields && r.value != "null"
  {
    if "deduction_reason" !in fields || fields["deduction_reason"] == JNull then None
    else
      var t := PyStr(fields["deduction_reason"], show);
      if t == "null" then None else Some(t)
  }

  /** One item of `criteria_results`, checked in the source's order: object, name, criterion, repeat, points, justification. */
  function CheckItem(item: Json, i: nat, table: Table, seen: set<string>, show: Json -> string, decimal: string -> Option<Decimal>)
    : (r: Result<(CriterionResult, Criterion), ScoreError>)
    ensures !item.JObject? ==> r == Err(ItemNotObject(i))
    ensures r.Err? ==> IsScoringError(r.error) || r.error == NaNComparison
    ensures r.Ok? ==> var (res, c) := r.value;
      (exists e :: e in table && e.1 == c) && Lower(c.name) !in seen
      && res.criterionName == c.name && res.maxPoints == c.maxPoints && ValidCriterionResult(res)
  {
    if !item.JObject? then Err(ItemNotObject(i))
    else
      var o := item.fields;
      var name := PyStr(GetOr(o, "criterion", JString("")), show);
      if name == [] then Err(MissingCriterionName(i))
      else match Resolve(table, name)
        case None => Err(UnknownCriterion(name))
        case Some(c) =>
          if Lower(c.name) in seen then Err(DuplicateCriterion(name))
          else match ParseDecimal(GetOr(o, "awarded_points", JNumber(0.0)), AwardedField(i), show, decimal)
            case Err(e) => Err(e)
            case Ok(awarded) =>
              if awarded.NaN? then Err(NaNComparison)
              else if Below(awarded, 0.0) then Err(NegativePoints(name, awarded))
              else if Above(awarded, c.maxPoints) then Err(PointsAboveMax(name, awarded, c.maxPoints))
              else
                var justification := PyStr(GetOr(o, "justification", JString("")), show);
                if justification == [] then Err(MissingJustification(name))
                else Ok((CriterionResult(c.name, c.maxPoints, awarded.value, justification, Deduction(o, show)), c))
  }

  /**
   * The checks on one item, in the source's order: a missing name, then an
   * unknown criterion, then a criterion already claimed; an accepted item
   * records the award read, the justification and the deduction reason.
   */
  lemma ItemChecks(item: Json, i: nat, table: Table, seen: set<string>, show: Json -> string, decimal: string -> Option<Decimal>)
    requires item.JObject?
    ensures var name := PyStr(GetOr(item.fields, "criterion", JString("")), show);
      var r := CheckItem(item, i, table, seen, show, decimal);
      && (name == [] ==> r == Err(MissingCriterionName(i)))
      && (name != [] && Resolve(table, name).None? ==> r == Err(UnknownCriterion(name)))
      && (name != [] && Resolve(table, name).Some? && Lower(Resolve(table, name).value.name) in seen
          ==> r == Err(DuplicateCriterion(name)))
      && (r.Ok? ==>
          && ParseDecimal(GetOr(item.fields, "awarded_points", JNumber(0.0)), AwardedField(i), show, decimal) == Ok(Finite(r.value.0.awardedPoints))
          && r.value.0.justification == PyStr(GetOr(item.fields, "justification", JString("")), show)
          && r.value.0.deductionReason == Deduction(item.fields, show))
  {
  }

  /**
   * The points of an item whose criterion resolved and was not claimed yet:
   * an absent award counts as 0; a NaN award raises `InvalidOperation` at
   * the first comparison; a negative award (minus infinity included) and
   * one above the criterion's maximum (plus infinity included) are refused,
   * naming the item; within range, only an empty justification is refused.
   */
  lemma ItemPoints(item: Json, i: nat, table: Table, seen: set<string>, show: Json -> string, decimal: string -> Option<Decimal>, c: Criterion, a: Decimal)
    requires item.JObject?
    requires PyStr(GetOr(item.fields, "criterion", JString("")), show) != []
    requires Resolve(table, PyStr(GetOr(item.fields, "criterion", JString("")), show)) == Some(c) && Lower(c.name) !in seen
    requires ParseDecimal(GetOr(item.fields, "awarded_points", JNumber(0.0)), AwardedField(i), show, decimal) == Ok(a)
    ensures "awarded_points" !in item.fields ==> a == Finite(0.0)
    ensures var name := PyStr(GetOr(item.fields, "criterion", JString("")), show);
      var r := CheckItem(item, i, table, seen, show, decimal);
      && (a.NaN? ==> r == Err(NaNComparison) && !IsScoringError(r.error))
      && (a == Infinite(true) || (a.Finite? && a.value < 0.0) ==> r == Err(NegativePoints(name, a)))
      && (a == Infinite(false) || (a.Finite? && 0.0 <= a.value && a.value > c.maxPoints)
          ==> r == Err(PointsAboveMax(name, a, c.maxPoints)))
      && (a.Finite? && 0.0 <= a.value <= c.maxPoints
          ==> (r.Err? <==> PyStr(GetOr(item.fields, "justification", JString("")), show) == []))
  {
  }

  /**
   * A null criterion is read through `str(None)`: the item is checked as if
   * it named the criterion "None", so it resolves, for instance, to a
   * criterion whose lower-cased name is contained in "none".
   */
  lemma NullCriterionIsNone(item: Json, i: nat, table: Table, seen: set<string>, show: Json -> string, decimal: string -> Option<Decimal>)
    requires PyShow(show)
    requires item.JObject? && "criterion" in item.fields && item.fields["criterion"] == JNull
    ensures CheckItem(item, i, table, seen, show, decimal)
         == CheckItem(JObject(item.fields["criterion" := JString("None")]), i, table, seen, show, decimal)
  {
    var o := item.fields;
    var o' := o["criterion" := JString("None")];
    assert GetOr(o, "criterion", JString("")) == JNull;
    assert PyStr(GetOr(o, "criterion", JString("")), show) == PyStr(GetOr(o', "criterion", JString("")), show);
    assert GetOr(o, "awarded_points", JNumber(0.0)) == GetOr(o', "awarded_points", JNumber(0.0));
    assert GetOr(o, "justification", JString("")) == GetOr(o', "justification", JString(""));
    assert Deduction(o, show) == Deduction(o', show);
  }

  /** A null justification is read as the text "None": it is never refused as missing, and an accepted item records "None". */
  lemma NullJustificationKept(item: Json, i: nat, table: Table, seen: set<string>, show: Json -> string, decimal: string -> Option<Decimal>)
    requires PyShow(show)
    requires item.JObject? && "justification" in item.fields && item.fields["justification"] == JNull
    ensures var r := CheckItem(item, i, table, seen, show, decimal);
      && (r.Err? ==> !r.error.MissingJustification?)
      && (r.Ok? ==> r.value.0.justification == "None")
  {
    assert PyStr(GetOr(item.fields, "justification", JString("")), show) == "None";
  }

  /** What the loop holds after the items so far: the results, the lower-cased names seen, and the criterion behind each result. */
  datatype Scan = Scan(results: seq<CriterionResult>, seen: set<string>, used: seq<Criterion>)

  /** The loop over the first `n` items; the first failing item ends it with its error. */
  function ScanItems(items: seq<Json>, n: nat, table: Table, show: Json -> string, decimal: string -> Option<Decimal>)
    : (r: Result<Scan, ScoreError>)
    requires n <= |items|
    ensures r.Err? ==> IsScoringError(r.error) || r.error == NaNComparison
  {
    if n == 0 then Ok(Scan([], {}, []))
    else match ScanItems(items, n - 1, table, show, decimal)
      case Err(e) => Err(e)
      case Ok(st) =>
        match CheckItem(items[n - 1], n - 1, table, st.seen, show, decimal)
        case Err(e) => Err(e)
        case Ok((res, c)) => Ok(Scan(st.results + [res], st.seen + {Lower(c.name)}, st.used + [c]))
  }

  /** The rubric names whose lower-cased key no item claimed. */
  function MissingNames(table: Table, seen: set<string>): (names: set<string>)
    ensures names == {} <==> KeySet(table) <= seen
  {
    var names := set e | e in table && e.0 !in seen :: e.1.name;
    assert forall e :: e in table && e.0 !in seen ==> e.1.name in names;
    names
  }

  /** What `_parse_criteria_results` returns, with the criterion behind each result. */
  function CriteriaResults(data: Json, cs: seq<Criterion>, show: Json -> string, decimal: string -> Option<Decimal>)
    : (r: Result<Scan, ScoreError>)
    ensures r.Err? ==> IsScoringError(r.error) || r.error == NaNComparison
  {
    if !data.JArray? then Err(NotAList)
    else
      var table := LookupTable(cs);
      match ScanItems(data.items, |data.items|, table, show, decimal)
      case Err(e) => Err(e)
      case Ok(st) =>
        var missing := MissingNames(table, st.seen);
        if missing != {} then Err(MissingCriteria(missing)) else Ok(st)
  }

  /** Once an item fails, the scan of any longer prefix fails the same way. */
  lemma {:induction false} ScanFailurePersists(items: seq<Json>, i: nat, n: nat, table: Table, show: Json -> string, decimal: string -> Option<Decimal>)
    requires i <= n <= |items| && ScanItems(items, i, table, show, decimal).Err?
    ensures ScanItems(items, n, table, show, decimal) == ScanItems(items, i, table, show, decimal)
    decreases n - i
  {
    if i < n {
      ScanFailurePersists(items, i, n - 1, table, show, decimal);
    }
  }

  /**
   * `_parse_criteria_results`: a loop over the items that appends one
   * result per item and records the lower-cased rubric names it has seen,
   * then a check that every rubric name was seen.
   */
  method ParseCriteriaResults(resultsData: Json, rubric: Rubric, show: Json -> string, decimal: string -> Option<Decimal>)
    returns (r: Result<seq<CriterionResult>, ScoreError>)
    ensures var spec := CriteriaResults(resultsData, rubric.criteria, show, decimal);
      r.Ok? == spec.Ok? && (r.Ok? ==> r.value == spec.value.results) && (r.Err? ==> r.error == spec.error)
  {
    if !resultsData.JArray? {
      return Err(NotAList);
    }
    var items := resultsData.items;
    var lookup := LookupTable(rubric.criteria);
    var results: seq<CriterionResult> := [];
    var seen: set<string> := {};
    ghost var used: seq<Criterion> := [];
    for i := 0 to |items|
      invariant ScanItems(items, i, lookup, show, decimal) == Ok(Scan(results, seen, used))
    {
      var item := items[i];
      if !item.JObject? {
        ScanFailurePersists(items, i + 1, |items|, lookup, show, decimal);
        return Err(ItemNotObject(i));
      }
      var criterionName := PyStr(GetOr(item.fields, "criterion", JString("")), show);
      if criterionName == [] {
        ScanFailurePersists(items, i + 1, |items|, lookup, show, decimal);
        return Err(MissingCriterionName(i));
      }
      var rubricCriterion := Get(lookup, Lower(criterionName));
      if rubricCriterion.None? {
        rubricCriterion := FindPartialMatch(lookup, Lower(criterionName));
      }
      if rubricCriterion.None? {
        ScanFailurePersists(items, i + 1, |items|, lookup, show, decimal);
        return Err(UnknownCriterion(criterionName));
      }
      var c := rubricCriterion.value;
      if Lower(c.name) in seen {
        ScanFailurePersists(items, i + 1, |items|, lookup, show, decimal);
        return Err(DuplicateCriterion(criterionName));
      }
      ghost var seenBefore := seen;
      seen := seen + {Lower(c.name)};
      var awarded := ParseDecimal(GetOr(item.fields, "awarded_points", JNumber(0.0)), AwardedField(i), show, decimal);
      if awarded.Err? {
        ScanFailurePersists(items, i + 1, |items|, lookup, show, decimal);
        return Err(awarded.error);
      }
      // Comparing a NaN with `<` raises `InvalidOperation`.
      if awarded.value.NaN? {
        ScanFailurePersists(items, i + 1, |items|, lookup, show, decimal);
        return Err(NaNComparison);
      }
      if Below(awarded.value, 0.0) {
        ScanFailurePersists(items, i + 1, |items|, lookup, show, decimal);
        return Err(NegativePoints(criterionName, awarded.value));
      }
      if Above(awarded.value, c.maxPoints) {
        ScanFailurePersists(items, i + 1, |items|, lookup, show, decimal);
        return Err(PointsAboveMax(criterionName, awarded.value, c.maxPoints));
      }
      var justification := PyStr(GetOr(item.fields, "justification", JString("")), show);
      if justification == [] {
        ScanFailurePersists(items, i + 1, |items|, lookup, show, decimal);
        return Err(MissingJustification(criterionName));
      }
      var deductionReason := Deduction(item.fields, show);
      results := results + [CriterionResult(c.name, c.maxPoints, awarded.value.value, justification, deductionReason)];
      used := used + [c];
    }
    var missing := MissingNames(lookup, seen);
    if missing != {} {
      return Err(MissingCriteria(missing));
    }
    return Ok(results);
  }

  // ----------------------------------------------- what a successful scan holds

  /** Two criteria never share a lower-cased name. */
  predicate CaselessDistinct(cs: seq<Criterion>) {
    forall i, j :: 0 <= i < j < |cs| ==> Lower(cs[i].name) != Lower(cs[j].name)
  }

  /** Each result carries the name and max_points of the criterion behind it. */
  predicate Backs(results: seq<CriterionResult>, used: seq<Criterion>) {
    |results| == |used|
    && forall j :: 0 <= j < |used| ==> results[j].criterionName == used[j].name && results[j].maxPoints == used[j].maxPoints
  }

  predicate FromTable(used: seq<Criterion>, table: Table) {
    forall j :: 0 <= j < |used| ==> exists e :: e in table && e.1 == used[j]
  }

  function UsedKeys(used: seq<Criterion>): set<string> {
    set j | 0 <= j < |used| :: Lower(used[j].name)
  }

  /**
   * The loop's invariant: every result is valid and comes from a lookup
   * entry, the seen set holds exactly the lower-cased names of the criteria
   * behind the results, and no criterion was matched twice.
   */
  lemma {:induction false} ScanSound(items: seq<Json>, n: nat, table: Table, show: Json -> string, decimal: string -> Option<Decimal>)
    requires n <= |items| && ScanItems(items, n, table, show, decimal).Ok?
    ensures var st := ScanItems(items, n, table, show, decimal).value;
      Backs(st.results, st.used) && FromTable(st.used, table) && AllResultsValid(st.results)
      && st.seen == UsedKeys(st.used) && CaselessDistinct(st.used)
  {
    if n > 0 {
      ScanSound(items, n - 1, table, show, decimal);
      var st := ScanItems(items, n - 1, table, show, decimal).value;
      var (res, c) := CheckItem(items[n - 1], n - 1, table, st.seen, show, decimal).value;
      ExtendSound(st.results, st.used, st.seen, table, res, c);
    }
  }

  /** Appending a result that passed the item checks keeps the scan's invariant. */
  lemma ExtendSound(results: seq<CriterionResult>, used: seq<Criterion>, seen: set<string>, table: Table, res: CriterionResult, c: Criterion)
    requires Backs(results, used) && FromTable(used, table) && AllResultsValid(results) && CaselessDistinct(used)
    requires seen == UsedKeys(used) && (exists e :: e in table && e.1 == c) && Lower(c.name) !in seen
    requires res.criterionName == c.name && res.maxPoints == c.maxPoints && ValidCriterionResult(res)
    ensures Backs(results + [res], used + [c]) && FromTable(used + [c], table) && AllResultsValid(results + [res])
    ensures UsedKeys(used + [c]) == seen + {Lower(c.name)} && CaselessDistinct(used + [c])
  {
    BacksSnoc(results, used, res, c);
    FromTableSnoc(used, table, c);
    ResultsValidSnoc(results, res);
    UsedKeysSnoc(used, c);
    DistinctSnoc(used, c);
  }

  lemma BacksSnoc(results: seq<CriterionResult>, used: seq<Criterion>, res: CriterionResult, c: Criterion)
    requires Backs(results, used) && res.criterionName == c.name && res.maxPoints == c.maxPoints
    ensures Backs(results + [res], used + [c])
  {
    var rs, u := results + [res], used + [c];
    forall j | 0 <= j < |u| ensures rs[j].criterionName == u[j].name && rs[j].maxPoints == u[j].maxPoints {
      if j < |used| {
        assert rs[j] == results[j] && u[j] == used[j];
      }
    }
  }

  lemma FromTableSnoc(used: seq<Criterion>, table: Table, c: Criterion)
    requires FromTable(used, table) && exists e :: e in table && e.1 == c
    ensures FromTable(used + [c], table)
  {
    var u := used + [c];
    forall j | 0 <= j < |u| ensures exists e :: e in table && e.1 == u[j] {
      if j < |used| {
        assert u[j] == used[j];
      }
    }
  }

  lemma ResultsValidSnoc(results: seq<CriterionResult>, res: CriterionResult)
    requires AllResultsValid(results) && ValidCriterionResult(res)
    ensures AllResultsValid(results + [res])
  {
    var rs := results + [res];
    forall k | 0 <= k < |rs| ensures ValidCriterionResult(rs[k]) {
      if k < |results| {
        assert rs[k] == results[k];
      }
    }
  }

  lemma UsedKeysSnoc(used: seq<Criterion>, c: Criterion)
    ensures UsedKeys(used + [c]) == UsedKeys(used) + {Lower(c.name)}
  {
    var u := used + [c];
    forall x | x in UsedKeys(u) ensures x in UsedKeys(used) + {Lower(c.name)} {
      var j :| 0 <= j < |u| && Lower(u[j].name) == x;
      if j < |used| {
        assert u[j] == used[j];
      }
    }
    forall x | x in UsedKeys(used) ensures x in UsedKeys(u) {
      var j :| 0 <= j < |used| && Lower(used[j].name) == x;
      assert u[j] == used[j];
    }
    assert Lower(u[|used|].name) in UsedKeys(u);
  }

  lemma DistinctSnoc(used: seq<Criterion>, c: Criterion)
    requires CaselessDistinct(used) && Lower(c.name) !in UsedKeys(used)
    ensures CaselessDistinct(used + [c])
  {
    var u := used + [c];
    forall i, j | 0 <= i < j < |u| ensures Lower(u[i].name) != Lower(u[j].name) {
      assert u[i] == used[i];
      if j < |used| {
        assert u[j] == used[j];
      } else {
        assert Lower(used[i].name) in UsedKeys(used);
      }
    }
  }

  /** A successful `_parse_criteria_results` matched every lower-cased rubric name exactly once. */
  lemma CriteriaResultsSound(data: Json, cs: seq<Criterion>, show: Json -> string, decimal: string -> Option<Decimal>)
    requires CriteriaResults(data, cs, show, decimal).Ok?
    ensures var st := CriteriaResults(data, cs, show, decimal).value;
      Backs(st.results, st.used) && AllResultsValid(st.results) && CaselessDistinct(st.used)
      && (forall j :: 0 <= j < |st.used| ==> st.used[j] in cs)
      && (forall k :: 0 <= k < |cs| ==> exists j :: 0 <= j < |st.used| && Lower(st.used[j].name) == Lower(cs[k].name))
  {
    var table := LookupTable(cs);
    TableKeys(cs);
    ScanSound(data.items, |data.items|, table, show, decimal);
    var st := CriteriaResults(data, cs, show, decimal).value;
    forall k | 0 <= k < |cs|
      ensures exists j :: 0 <= j < |st.used| && Lower(st.used[j].name) == Lower(cs[k].name)
    {
      assert Lower(cs[k].name) in UsedKeys(st.used);
    }
  }

  // ------------------------------------------------- validating the response

  const RequiredFields: seq<string> := ["total_score", "max_possible", "criteria_results", "overall_feedback"]

  /**
   * Python's `field in data` on whatever `json.loads` returned: a key of an
   * object, an element of a list, a substring of a string; on a number, a
   * boolean or `None` it raises `TypeError`.
   */
  function Has(data: Json, field: string): (r: Result<bool, ScoreError>)
    ensures r.Err? <==> !(data.JObject? || data.JArray? || data.JString?)
    ensures data.JObject? ==> r == Ok(field in data.fields)
  {
    match data
    case JObject(o) => Ok(field in o)
    case JArray(items) => Ok(JString(field) in items)
    case JString(t) => Ok(Contains(t, field))
    case _ => Err(TypeFault)
  }

  /** The required-field loop from field `i` on: the first field that is absent, or the fault raised on looking. */
  function FieldsCheck(data: Json, i: nat): (r: Option<ScoreError>)
    requires i <= |RequiredFields|
    ensures r.Some? ==> r.value == TypeFault || r.value.MissingField?
    decreases |RequiredFields| - i
  {
    if i == |RequiredFields| then None
    else match Has(data, RequiredFields[i])
      case Err(e) => Some(e)
      case Ok(present) => if !present then Some(MissingField(RequiredFields[i])) else FieldsCheck(data, i + 1)
  }

  /** Past the required-field loop, an object holds all four fields. */
  lemma FieldsPresent(data: Json)
    requires data.JObject? && FieldsCheck(data, 0) == None
    ensures "total_score" in data.fields && "max_possible" in data.fields
    ensures "criteria_results" in data.fields && "overall_feedback" in data.fields
  {
    FieldsPresentFrom(data, 0);
    assert RequiredFields[0] == "total_score" && RequiredFields[1] == "max_possible";
    assert RequiredFields[2] == "criteria_results" && RequiredFields[3] == "overall_feedback";
  }

  lemma {:induction false} FieldsPresentFrom(data: Json, i: nat)
    requires i <= |RequiredFields| && data.JObject? && FieldsCheck(data, i) == None
    ensures forall k :: i <= k < |RequiredFields| ==> RequiredFields[k] in data.fields
    decreases |RequiredFields| - i
  {
    if i < |RequiredFields| {
      FieldsPresentFrom(data, i + 1);
    }
  }

  /** What `_validate_and_convert` returns or raises. */
  function Converted(data: Json, rubric: Rubric, id: nat, show: Json -> string, decimal: string -> Option<Decimal>)
    : Result<GradingResult, ScoreError>
  {
    match FieldsCheck(data, 0)
    case Some(e) => Err(e)
    case None =>
      if !data.JObject? then Err(TypeFault)
      else
        FieldsPresent(data);
        var o := data.fields;
        match CriteriaResults(o["criteria_results"], rubric.criteria, show, decimal)
        case Err(e) => Err(e)
        case Ok(st) =>
          match ParseDecimal(o["total_score"], "total_score", show, decimal)
          case Err(e) => Err(e)
          case Ok(reportedTotal) =>
            if reportedTotal.NaN? then Err(NaNComparison)
            else match ParseDecimal(o["max_possible"], "max_possible", show, decimal)
            case Err(e) => Err(e)
            case Ok(reportedMax) =>
              if reportedMax == NaN(true) then Err(NaNComparison)
              else if reportedMax != Finite(TotalMaxPoints(rubric)) then Err(MaxPossibleMismatch(reportedMax, TotalMaxPoints(rubric)))
              else
                CriteriaResultsSound(o["criteria_results"], rubric.criteria, show, decimal);
                Checked(MakeGradingResult(id, rubric.title, st.results, PyStr(o["overall_feedback"], show), 1, false, false))
  }

  /** The result model's verdict, a validation failure passed on as `ResultRejected`. */
  function Checked(r: Result<GradingResult, set<Violation>>): Result<GradingResult, ScoreError> {
    match r
    case Err(v) => Err(ResultRejected(v))
    case Ok(g) => Ok(g)
  }

  /**
   * A response that got as far as the result model: an object with the
   * required fields, criteria results that reconciled, a max_possible that
   * reads as the rubric's total, and the verdict of the result model on what
   * was gathered.
   */
  lemma ConvertedParts(data: Json, rubric: Rubric, id: nat, show: Json -> string, decimal: string -> Option<Decimal>)
    requires var r := Converted(data, rubric, id, show, decimal); r.Ok? || r.error.ResultRejected?
    ensures data.JObject? && "criteria_results" in data.fields && "max_possible" in data.fields && "overall_feedback" in data.fields
    ensures var o := data.fields;
      var st := CriteriaResults(o["criteria_results"], rubric.criteria, show, decimal);
      st.Ok? && AllResultsValid(st.value.results)
      && ParseDecimal(o["max_possible"], "max_possible", show, decimal) == Ok(Finite(TotalMaxPoints(rubric)))
      && Converted(data, rubric, id, show, decimal)
         == Checked(MakeGradingResult(id, rubric.title, st.value.results, PyStr(o["overall_feedback"], show), 1, false, false))
  {
    var r := Converted(data, rubric, id, show, decimal);
    assert FieldsCheck(data, 0).None?;
    assert data.JObject?;
    FieldsPresent(data);
    var o := data.fields;
    var st := CriteriaResults(o["criteria_results"], rubric.criteria, show, decimal);
    assert st.Ok?;
    var total := ParseDecimal(o["total_score"], "total_score", show, decimal);
    assert total.Ok?;
    var max := ParseDecimal(o["max_possible"], "max_possible", show, decimal);
    assert max.Ok?;
    assert max.value == Finite(TotalMaxPoints(rubric));
    CriteriaResultsSound(o["criteria_results"], rubric.criteria, show, decimal);
  }

  /**
   * `_validate_and_convert`: the required fields, the criteria results, the
   * two totals, then the result model. The reported total is read (and may
   * fail to read) but its value plays no part. `id` stands for the UUID the
   * result draws.
   */
  method ValidateAndConvert(data: Json, rubric: Rubric, id: nat, show: Json -> string, decimal: string -> Option<Decimal>)
    returns (r: Result<GradingResult, ScoreError>)
    ensures r == Converted(data, rubric, id, show, decimal)
  {
    for i := 0 to |RequiredFields|
      invariant FieldsCheck(data, i) == FieldsCheck(data, 0)
    {
      var field := RequiredFields[i];
      var present := Has(data, field);
      if present.Err? {
        return Err(present.error);
      }
      if !present.value {
        return Err(MissingField(field));
      }
    }
    // Subscripting a list or a string with a field name raises `TypeError`.
    if !data.JObject? {
      return Err(TypeFault);
    }
    FieldsPresent(data);
    var criteriaResults := ParseCriteriaResults(data.fields["criteria_results"], rubric, show, decimal);
    if criteriaResults.Err? {
      return Err(criteriaResults.error);
    }
    var reportedTotal := ParseDecimal(data.fields["total_score"], "total_score", show, decimal);
    if reportedTotal.Err? {
      return Err(reportedTotal.error);
    }
    // `abs(reported_total - calculated_total) > Decimal("0.01")` raises on a NaN; its outcome is unused.
    if reportedTotal.value.NaN? {
      return Err(NaNComparison);
    }
    var reportedMax := ParseDecimal(data.fields["max_possible"], "max_possible", show, decimal);
    if reportedMax.Err? {
      return Err(reportedMax.error);
    }
    // `!=` raises only on a signalling NaN.
    if reportedMax.value == NaN(true) {
      return Err(NaNComparison);
    }
    if reportedMax.value != Finite(TotalMaxPoints(rubric)) {
      return Err(MaxPossibleMismatch(reportedMax.value, TotalMaxPoints(rubric)));
    }
    CriteriaResultsSound(data.fields["criteria_results"], rubric.criteria, show, decimal);
    var built := MakeGradingResult(id, rubric.title, criteriaResults.value, PyStr(data.fields["overall_feedback"], show), 1, false, false);
    if built.Err? {
      return Err(ResultRejected(built.error));
    }
    return Ok(built.value);
  }

  /** What `parse` returns or raises; `decode` stands for `json.loads` (`None` when it raises). */
  function Parsed(response: string, rubric: Rubric, id: nat, show: Json -> string, decimal: string -> Option<Decimal>,
                  decode: string -> Option<Json>): Result<GradingResult, ScoreError>
  {
    match ExtractedJson(response)
    case Err(e) => Err(e)
    case Ok(text) =>
      match decode(text)
      case None => Err(InvalidJson)
      case Some(data) => Converted(data, rubric, id, show, decimal)
  }

  /** `parse`: extract the JSON text, decode it, then validate and convert it. */
  method Parse(response: string, rubric: Rubric, id: nat, show: Json -> string, decimal: string -> Option<Decimal>,
               decode: string -> Option<Json>) returns (r: Result<GradingResult, ScoreError>)
    ensures r == Parsed(response, rubric, id, show, decimal, decode)
  {
    var jsonText := ExtractJson(response);
    if jsonText.Err? {
      return Err(jsonText.error);
    }
    var data := decode(jsonText.value);
    if data.None? {
      return Err(InvalidJson);
    }
    r := ValidateAndConvert(data.value, rubric, id, show, decimal);
  }

  // -------------------------------------------------------------- properties

  /** A tagged fence around stripped text that holds no backtick hands back exactly that text. */
  lemma FencedRoundTrip(t: string)
    requires t != [] && IsStripped(t) && '`' !in t
    ensures ExtractedJson("```json\n" + t + "\n```") == Ok(t)
  {
    var s := "```json\n" + t + "\n```";
    var c := |s| - 3;
    assert OccursAt(s, 0, Fence) && OccursAt(s, 3, "json");
    assert OccursAt(s, c, Fence);
    forall k | 7 <= k < c
      ensures !OccursAt(s, k, Fence)
    {
      if k == 7 || k == c - 1 {
        assert s[k] == '\n';
      } else {
        assert s[k] == t[k - 8];
      }
      assert s[k..k + 3][0] == s[k];
    }
    assert IndexOf(s, Fence, 7) == Some(c);
    assert s[7..c] == "\n" + t + "\n";
    StripPadded("\n", t, "\n");
  }

  /** The field loop stops at the first absent field, whichever later fields are missing too. */
  lemma {:induction false} FieldsCheckFirst(data: Json, j: nat, i: nat)
    requires data.JObject? && j <= i < |RequiredFields| && RequiredFields[i] !in data.fields
    requires forall k :: j <= k < i ==> RequiredFields[k] in data.fields
    ensures FieldsCheck(data, j) == Some(MissingField(RequiredFields[i]))
    decreases i - j
  {
    if j < i {
      FieldsCheckFirst(data, j + 1, i);
    }
  }

  /** The required fields are looked for in order: an object lacking some of them is refused naming the first one absent. */
  lemma MissingFieldIsFirst(data: Json, i: nat, rubric: Rubric, id: nat, show: Json -> string, decimal: string -> Option<Decimal>)
    requires data.JObject? && i < |RequiredFields| && RequiredFields[i] !in data.fields
    requires forall k :: 0 <= k < i ==> RequiredFields[k] in data.fields
    ensures Converted(data, rubric, id, show, decimal) == Err(MissingField(RequiredFields[i]))
  {
    FieldsCheckFirst(data, 0, i);
  }

  /** A decoded number, boolean or `null` makes the first membership test raise `TypeError`. */
  lemma ScalarIsTypeFault(data: Json, rubric: Rubric, id: nat, show: Json -> string, decimal: string -> Option<Decimal>)
    requires !(data.JObject? || data.JArray? || data.JString?)
    ensures Converted(data, rubric, id, show, decimal) == Err(TypeFault)
  {
  }

  /** No element occurs twice. */
  ghost predicate NoDup<T>(a: seq<T>) {
    forall i, j :: 0 <= i < j < |a| ==> a[i] != a[j]
  }

  lemma {:induction false} NoDupCount<T>(a: seq<T>, x: T)
    requires NoDup(a)
    ensures multiset(a)[x] == if x in a then 1 else 0
  {
    if a != [] {
      var rest := a[1..];
      assert a == [a[0]] + rest;
      assert NoDup(rest) by {
        forall i, j | 0 <= i < j < |rest| ensures rest[i] != rest[j] {
          assert rest[i] == a[i + 1] && rest[j] == a[j + 1];
        }
      }
      NoDupCount(rest, x);
      assert forall k :: 0 <= k < |rest| ==> rest[k] == a[k + 1] != a[0];
    }
  }

  /** Two duplicate-free sequences with the same elements are permutations of each other. */
  lemma SameElementsPermute<T>(a: seq<T>, b: seq<T>)
    requires NoDup(a) && NoDup(b) && forall x :: x in a <==> x in b
    ensures multiset(a) == multiset(b)
  {
    forall x ensures multiset(a)[x] == multiset(b)[x] {
      NoDupCount(a, x);
      NoDupCount(b, x);
    }
  }

  /** Taking one criterion out of a sequence takes its max_points out of the total. */
  lemma SumMaxPointsRemove(b: seq<Criterion>, i: nat)
    requires i < |b|
    ensures SumMaxPoints(b) == b[i].maxPoints + SumMaxPoints(b[..i] + b[i + 1..])
  {
    var pre, x, post := b[..i], b[i], b[i + 1..];
    assert b == pre + ([x] + post);
    SumMaxPointsAppend(pre, [x] + post);
    assert ([x] + post)[1..] == post;
    assert SumMaxPoints([x] + post) == x.maxPoints + SumMaxPoints(post);
    SumMaxPointsAppend(pre, post);
  }

  /** Taking one element out of a sequence takes it out of the multiset. */
  lemma MultisetRemove<T>(b: seq<T>, i: nat)
    requires i < |b|
    ensures multiset(b[..i] + b[i + 1..]) == multiset(b) - multiset{b[i]}
  {
    assert b == b[..i] + [b[i]] + b[i + 1..];
  }

  /** The total of the max_points does not depend on the order of the criteria. */
  lemma {:induction false} SumMaxPointsPermutation(a: seq<Criterion>, b: seq<Criterion>)
    requires multiset(a) == multiset(b)
    ensures SumMaxPoints(a) == SumMaxPoints(b)
    decreases |a|
  {
    if a == [] {
      assert |b| == |multiset(b)| == 0;
    } else {
      var x, rest := a[0], a[1..];
      assert a == [x] + rest;
      assert multiset(a) == multiset{x} + multiset(rest);
      assert x in b by { assert x in multiset(b); }
      var i :| 0 <= i < |b| && b[i] == x;
      SumMaxPointsRemove(b, i);
      MultisetRemove(b, i);
      assert multiset(rest) == multiset(b[..i] + b[i + 1..]);
      SumMaxPointsPermutation(rest, b[..i] + b[i + 1..]);
    }
  }

  /** Results that carry their criteria's max_points total the criteria's max_points. */
  lemma {:induction false} BackedTotal(results: seq<CriterionResult>, used: seq<Criterion>)
    requires Backs(results, used)
    ensures SumMax(results) == SumMaxPoints(used)
  {
    if results != [] {
      BackedTotal(results[1..], used[1..]);
    }
  }

  lemma CaselessNoDup(cs: seq<Criterion>)
    requires CaselessDistinct(cs)
    ensures NoDup(cs)
  {
  }

  /**
   * When no two criteria share a lower-cased name, a successful
   * `_parse_criteria_results` returns one result per criterion, the criteria
   * behind the results are the rubric's own up to order, and the results'
   * max_points total the rubric's.
   */
  lemma CriteriaCovered(data: Json, cs: seq<Criterion>, show: Json -> string, decimal: string -> Option<Decimal>)
    requires CaselessDistinct(cs) && CriteriaResults(data, cs, show, decimal).Ok?
    ensures var st := CriteriaResults(data, cs, show, decimal).value;
      multiset(st.used) == multiset(cs) && |st.results| == |cs| && SumMax(st.results) == SumMaxPoints(cs)
  {
    CriteriaResultsSound(data, cs, show, decimal);
    var st := CriteriaResults(data, cs, show, decimal).value;
    SameCriteria(st.used, cs);
    CaselessNoDup(st.used);
    CaselessNoDup(cs);
    SameElementsPermute(st.used, cs);
    SumMaxPointsPermutation(st.used, cs);
    BackedTotal(st.results, st.used);
    assert |st.used| == |multiset(st.used)|;
  }

  /** Criteria drawn from `cs` that reach every lower-cased name of `cs` are all of `cs`, when those names are distinct. */
  lemma SameCriteria(used: seq<Criterion>, cs: seq<Criterion>)
    requires CaselessDistinct(cs)
    requires forall j :: 0 <= j < |used| ==> used[j] in cs
    requires forall k :: 0 <= k < |cs| ==> exists j :: 0 <= j < |used| && Lower(used[j].name) == Lower(cs[k].name)
    ensures forall x :: x in used <==> x in cs
  {
    forall x | x in cs ensures x in used {
      var k :| 0 <= k < |cs| && cs[k] == x;
      var j :| 0 <= j < |used| && Lower(used[j].name) == Lower(cs[k].name);
      var m :| 0 <= m < |cs| && cs[m] == used[j];
      assert m == k;
    }
  }

  /**
   * A converted result is valid, names the rubric, keeps the defaults for
   * passes, variance and review, and was accepted only because the reported
   * max_possible reads as the rubric's total.
   */
  lemma ConvertedShape(data: Json, rubric: Rubric, id: nat, show: Json -> string, decimal: string -> Option<Decimal>)
    requires Converted(data, rubric, id, show, decimal).Ok?
    ensures var g := Converted(data, rubric, id, show, decimal).value;
      ValidGradingResult(g) && g.submissionId == id && g.rubricTitle == rubric.title
      && g.llmPassesUsed == 1 && !g.varianceDetected && !g.flaggedForReview
    ensures data.JObject? && "max_possible" in data.fields
      && ParseDecimal(data.fields["max_possible"], "max_possible", show, decimal) == Ok(Finite(TotalMaxPoints(rubric)))
  {
    ConvertedParts(data, rubric, id, show, decimal);
  }

  /** A result stands for a rubric criterion: it carries that criterion's name and max_points. */
  predicate StandsFor(r: CriterionResult, cs: seq<Criterion>) {
    exists c :: c in cs && r.criterionName == c.name && r.maxPoints == c.maxPoints
  }

  /** Some result carries the lower-cased name of `c`. */
  predicate Claimed(rs: seq<CriterionResult>, c: Criterion) {
    exists j :: 0 <= j < |rs| && Lower(rs[j].criterionName) == Lower(c.name)
  }

  /**
   * What a reconciled result list guarantees as written: each result stands
   * for a criterion, each lower-cased criterion name is claimed, and no two
   * results share a lower-cased name.
   */
  predicate MatchesRubric(rs: seq<CriterionResult>, cs: seq<Criterion>) {
    (forall j :: 0 <= j < |rs| ==> StandsFor(rs[j], cs))
    && (forall k :: 0 <= k < |cs| ==> Claimed(rs, cs[k]))
    && (forall i, j :: 0 <= i < j < |rs| ==> Lower(rs[i].criterionName) != Lower(rs[j].criterionName))
  }

  /** Exactly one result per criterion, under its name and max_points, so the totals agree. */
  predicate CoversRubric(rs: seq<CriterionResult>, cs: seq<Criterion>) {
    |rs| == |cs| && SumMax(rs) == SumMaxPoints(cs)
    && forall c :: c in cs ==> exists j :: 0 <= j < |rs| && rs[j].criterionName == c.name && rs[j].maxPoints == c.maxPoints
  }

  /** The results of a converted response match the rubric's criteria. */
  lemma ConvertedMatchesRubric(data: Json, rubric: Rubric, id: nat, show: Json -> string, decimal: string -> Option<Decimal>)
    requires Converted(data, rubric, id, show, decimal).Ok?
    ensures MatchesRubric(Converted(data, rubric, id, show, decimal).value.criteriaResults, rubric.criteria)
  {
    ConvertedParts(data, rubric, id, show, decimal);
    var items := data.fields["criteria_results"];
    CriteriaResultsSound(items, rubric.criteria, show, decimal);
    var st := CriteriaResults(items, rubric.criteria, show, decimal).value;
    var g := MakeGradingResult(id, rubric.title, st.results, PyStr(data.fields["overall_feedback"], show), 1, false, false);
    assert Converted(data, rubric, id, show, decimal) == Checked(g);
    assert g.Ok? && g.value.criteriaResults == st.results;
    ResultsMatch(st.results, st.used, rubric.criteria);
  }

  /** Results backed by criteria of `cs` that reach every lower-cased name of `cs`, once each. */
  lemma ResultsMatch(rs: seq<CriterionResult>, used: seq<Criterion>, cs: seq<Criterion>)
    requires Backs(rs, used) && CaselessDistinct(used) && forall j :: 0 <= j < |used| ==> used[j] in cs
    requires forall k :: 0 <= k < |cs| ==> exists j :: 0 <= j < |used| && Lower(used[j].name) == Lower(cs[k].name)
    ensures MatchesRubric(rs, cs)
  {
    forall j | 0 <= j < |rs| ensures StandsFor(rs[j], cs) {
      assert used[j] in cs;
    }
    forall k | 0 <= k < |cs| ensures Claimed(rs, cs[k]) {
      var j :| 0 <= j < |used| && Lower(used[j].name) == Lower(cs[k].name);
      assert Lower(rs[j].criterionName) == Lower(cs[k].name);
    }
  }

  /**
   * When no two criteria share a lower-cased name, a converted response
   * has exactly one result per rubric criterion, and its total_max is the
   * rubric's total_max_points.
   */
  lemma ConvertedCovers(data: Json, rubric: Rubric, id: nat, show: Json -> string, decimal: string -> Option<Decimal>)
    requires CaselessDistinct(rubric.criteria) && Converted(data, rubric, id, show, decimal).Ok?
    ensures CoversRubric(Converted(data, rubric, id, show, decimal).value.criteriaResults, rubric.criteria)
  {
    ConvertedParts(data, rubric, id, show, decimal);
    var items := data.fields["criteria_results"];
    CriteriaResultsSound(items, rubric.criteria, show, decimal);
    CriteriaCovered(items, rubric.criteria, show, decimal);
    var st := CriteriaResults(items, rubric.criteria, show, decimal).value;
    PermutedCover(st.results, st.used, rubric.criteria);
  }

  /** Results backed by a permutation of `cs` cover `cs`. */
  lemma PermutedCover(rs: seq<CriterionResult>, used: seq<Criterion>, cs: seq<Criterion>)
    requires Backs(rs, used) && multiset(used) == multiset(cs) && SumMax(rs) == SumMaxPoints(cs)
    ensures CoversRubric(rs, cs)
  {
    assert |used| == |multiset(used)|;
    forall c | c in cs
      ensures exists j :: 0 <= j < |rs| && rs[j].criterionName == c.name && rs[j].maxPoints == c.maxPoints
    {
      assert c in multiset(used);
      var j :| 0 <= j < |used| && used[j] == c;
    }
  }

  /**
   * The reported total_score only has to read as a decimal that is not a
   * NaN: which such decimal it is, infinities included, changes nothing.
   */
  lemma TotalScoreIgnored(fields: map<string, Json>, v: Json, rubric: Rubric, id: nat, show: Json -> string, decimal: string -> Option<Decimal>)
    requires "total_score" in fields
    requires var t := ParseDecimal(fields["total_score"], "total_score", show, decimal); t.Ok? && !t.value.NaN?
    requires var t := ParseDecimal(v, "total_score", show, decimal); t.Ok? && !t.value.NaN?
    ensures Converted(JObject(fields["total_score" := v]), rubric, id, show, decimal)
         == Converted(JObject(fields), rubric, id, show, decimal)
  {
    var other := fields["total_score" := v];
    assert other.Keys == fields.Keys;
    SameKeysSameCheck(JObject(other), JObject(fields), 0);
  }

  /**
   * Once the criteria results have reconciled: a total_score that reads as
   * a NaN raises `InvalidOperation`, as does a max_possible that reads as a
   * signalling NaN; a quiet NaN or an infinite max_possible is a mismatch.
   */
  lemma NonFiniteTotals(fields: map<string, Json>, rubric: Rubric, id: nat, show: Json -> string, decimal: string -> Option<Decimal>)
    requires FieldsCheck(JObject(fields), 0) == None
    requires "criteria_results" in fields && CriteriaResults(fields["criteria_results"], rubric.criteria, show, decimal).Ok?
    requires "total_score" in fields && "max_possible" in fields
    ensures var t := ParseDecimal(fields["total_score"], "total_score", show, decimal);
      var m := ParseDecimal(fields["max_possible"], "max_possible", show, decimal);
      var r := Converted(JObject(fields), rubric, id, show, decimal);
      && (t.Ok? && t.value.NaN? ==> r == Err(NaNComparison))
      && (t.Ok? && !t.value.NaN? && m == Ok(NaN(true)) ==> r == Err(NaNComparison))
      && (t.Ok? && !t.value.NaN? && m.Ok? && (m.value == NaN(false) || m.value.Infinite?)
          ==> r == Err(MaxPossibleMismatch(m.value, TotalMaxPoints(rubric))))
  {
  }

  /** The field loop looks only at which keys an object has. */
  lemma {:induction false} SameKeysSameCheck(a: Json, b: Json, i: nat)
    requires a.JObject? && b.JObject? && a.fields.Keys == b.fields.Keys && i <= |RequiredFields|
    ensures FieldsCheck(a, i) == FieldsCheck(b, i)
    decreases |RequiredFields| - i
  {
    if i < |RequiredFields| {
      SameKeysSameCheck(a, b, i + 1);
    }
  }

  /**
   * With at least one criterion, the result model refuses a converted
   * response only for an empty overall feedback. That refusal is a
   * validation error, not a `ScoringError`.
   */
  lemma FeedbackRejection(data: Json, rubric: Rubric, id: nat, show: Json -> string, decimal: string -> Option<Decimal>)
    requires |rubric.criteria| >= 1
    requires Converted(data, rubric, id, show, decimal).Err? && Converted(data, rubric, id, show, decimal).error.ResultRejected?
    ensures Converted(data, rubric, id, show, decimal).error == ResultRejected({FeedbackEmpty})
    ensures data.JObject? && "overall_feedback" in data.fields && PyStr(data.fields["overall_feedback"], show) == []
    ensures !IsScoringError(Converted(data, rubric, id, show, decimal).error)
  {
    ConvertedParts(data, rubric, id, show, decimal);
    var items := data.fields["criteria_results"];
    CriteriaResultsSound(items, rubric.criteria, show, decimal);
    var st := CriteriaResults(items, rubric.criteria, show, decimal).value;
    var j :| 0 <= j < |st.used| && Lower(st.used[j].name) == Lower(rubric.criteria[0].name);
    OnlyFeedbackFails(id, rubric.title, st.results, PyStr(data.fields["overall_feedback"], show));
  }

  /** With one pass and at least one valid result, only an empty feedback can fail the result model. */
  lemma OnlyFeedbackFails(id: nat, title: string, results: seq<CriterionResult>, feedback: string)
    requires AllResultsValid(results) && |results| >= 1
    ensures MakeGradingResult(id, title, results, feedback, 1, false, false).Err? <==> feedback == []
    ensures MakeGradingResult(id, title, results, feedback, 1, false, false).Err? ==>
      MakeGradingResult(id, title, results, feedback, 1, false, false).error == {FeedbackEmpty}
  {
  }

  /**
   * The lookup keeps, for each lower-cased name, the last criterion that has
   * it: a criterion followed by a case variant of its name is in no entry.
   */
  lemma {:induction false} LaterVariantWins(cs: seq<Criterion>, i: nat, j: nat)
    requires NamesDistinct(cs) && i < j < |cs| && Lower(cs[i].name) == Lower(cs[j].name)
    ensures forall e :: e in LookupTable(cs) ==> e.1.name != cs[i].name
  {
    var n := |cs|;
    var init := cs[..n - 1];
    assert cs[n - 1].name != cs[i].name;
    if j < n - 1 {
      assert NamesDistinct(init) by {
        assert forall k :: 0 <= k < n - 1 ==> init[k] == cs[k];
      }
      assert init[i] == cs[i] && init[j] == cs[j];
      LaterVariantWins(init, i, j);
      TableKeepsAbsent(cs, cs[i].name);
    } else {
      TableOverwrites(cs, cs[i].name);
    }
  }

  /** A last criterion of another name keeps `name` out of the table when the earlier ones did. */
  lemma TableKeepsAbsent(cs: seq<Criterion>, name: string)
    requires cs != [] && cs[|cs| - 1].name != name
    requires forall e :: e in LookupTable(cs[..|cs| - 1]) ==> e.1.name != name
    ensures forall e :: e in LookupTable(cs) ==> e.1.name != name
  {
    TableStep(cs);
  }

  /** A last criterion of another name under the same lower-cased name drops `name` from the table. */
  lemma TableOverwrites(cs: seq<Criterion>, name: string)
    requires cs != [] && cs[|cs| - 1].name != name && Lower(cs[|cs| - 1].name) == Lower(name)
    ensures forall e :: e in LookupTable(cs) ==> e.1.name != name
  {
    TableStep(cs);
    var d := LookupTable(cs[..|cs| - 1]);
    assert forall e :: e in d ==> e.0 == Lower(e.1.name);
  }

  /**
   * The rubric model compares criterion names exactly, so "Content" and
   * "content" may stand side by side; the lookup keys both as "content" and
   * keeps the later one. No accepted response then grades the earlier
   * criterion, and the results never cover the rubric.
   */
  lemma CaseVariantNamesDropCriterion(data: Json, rubric: Rubric, id: nat, show: Json -> string, decimal: string -> Option<Decimal>, i: nat, j: nat)
    requires ValidRubric(rubric) && i < j < |rubric.criteria|
    requires Lower(rubric.criteria[i].name) == Lower(rubric.criteria[j].name)
    requires Converted(data, rubric, id, show, decimal).Ok?
    ensures var rs := Converted(data, rubric, id, show, decimal).value.criteriaResults;
      (forall k :: 0 <= k < |rs| ==> rs[k].criterionName != rubric.criteria[i].name)
      && !CoversRubric(rs, rubric.criteria)
  {
    var cs := rubric.criteria;
    ConvertedParts(data, rubric, id, show, decimal);
    var items := data.fields["criteria_results"];
    var table := LookupTable(cs);
    ScanSound(items.items, |items.items|, table, show, decimal);
    LaterVariantWins(cs, i, j);
    var st := CriteriaResults(items, cs, show, decimal).value;
    assert forall k :: 0 <= k < |st.results| ==> st.results[k].criterionName != cs[i].name by {
      forall k | 0 <= k < |st.results| ensures st.results[k].criterionName != cs[i].name {
        var e :| e in table && e.1 == st.used[k];
      }
    }
    assert cs[i] in cs;
  }

  /** A rubric with the criteria "Content" and "content" is accepted by the rubric model. */
  lemma CaseVariantRubricAccepted()
    ensures var cs := [Criterion("Content", "Depth of the argument", 10.0, true), Criterion("content", "Use of sources", 5.0, true)];
      MakeRubric("Essay", "", cs).Ok? && Lower(cs[0].name) == Lower(cs[1].name)
  {
    assert Lower("Content") == "content" && Lower("content") == "content";
  }
}
