/**
 * The rubric validator: a read-only check that lists every problem it finds
 * in a fixed order (structure, each criterion in turn, repeated names,
 * totals). A rubric is valid exactly when the list is empty, so the
 * "unusually high" total, although worded as a warning, also makes it
 * invalid.
 */
module RubricValidator {
  import opened Wrappers
  import opened Text
  import opened Models

  /** One problem found in a rubric; criterion positions count from 1. */
  datatype Issue =
    | TitleEmpty
    | CriteriaEmpty
    | NameTooShort(index: nat, name: string)
    | DescriptionTooShort(index: nat, name: string)
    | VagueDescription(index: nat, name: string, words: set<string>)
    | PointsTooHigh(index: nat, name: string, points: real)
    | DuplicateName(name: string, first: nat, position: nat)
    | TotalNotPositive
    | TotalTooHigh(total: real)

  const MinDescriptionLength: nat := 10
  const MaxPointsPerCriterion: real := 1000.0
  const HighTotal: real := 1000.0

  /** Words that make a description too vague to grade against (a set in the source; listed here). */
  const VagueWords: seq<string> :=
    ["good", "bad", "nice", "okay", "fine", "appropriate", "adequate", "sufficient", "reasonable"]

  /** The words from position `i` of `VagueWords` on that occur as substrings of `lowered`. */
  function VagueFrom(lowered: string, i: nat): (found: set<string>)
    decreases |VagueWords| - i
  {
    if i >= |VagueWords| then {}
    else (if Contains(lowered, VagueWords[i]) then {VagueWords[i]} else {}) + VagueFrom(lowered, i + 1)
  }

  /** The vague words that occur, as substrings, in the lower-cased description. */
  function VagueFound(description: string): set<string> {
    VagueFrom(Lower(description), 0)
  }

  // ------------------------------------------------------------ the checks

  /** `_validate_structure`: a title that is blank once stripped, then a rubric without criteria. */
  function StructureIssues(r: Rubric): seq<Issue> {
    (if Strip(r.title) == [] then [TitleEmpty] else [])
    + (if r.criteria == [] then [CriteriaEmpty] else [])
  }

  /** `_validate_criterion` for the criterion at position `index`. */
  function CriterionIssues(c: Criterion, index: nat): seq<Issue> {
    var found := VagueFound(c.description);
    (if |Strip(c.name)| < 2 then [NameTooShort(index, c.name)] else [])
    + (if |Strip(c.description)| < MinDescriptionLength then [DescriptionTooShort(index, c.name)] else [])
    + (if found != {} then [VagueDescription(index, c.name, found)] else [])
    + (if c.maxPoints > MaxPointsPerCriterion then [PointsTooHigh(index, c.name, c.maxPoints)] else [])
  }

  /** What a criterion must satisfy for `_validate_criterion` to find nothing. */
  predicate CriterionClean(c: Criterion) {
    |Strip(c.name)| >= 2 && |Strip(c.description)| >= MinDescriptionLength
    && VagueFound(c.description) == {} && c.maxPoints <= MaxPointsPerCriterion
  }

  /** The issues of each criterion, by position. */
  function PerCriterionIssues(cs: seq<Criterion>): (per: seq<seq<Issue>>)
    ensures |per| == |cs|
  {
    if cs == [] then [] else PerCriterionIssues(cs[..|cs| - 1]) + [CriterionIssues(cs[|cs| - 1], |cs|)]
  }

  /** The lists one after the other. */
  function Flatten(xs: seq<seq<Issue>>): seq<Issue> {
    if xs == [] then [] else Flatten(xs[..|xs| - 1]) + xs[|xs| - 1]
  }

  /** The key under which `_check_duplicates` compares names: lower-cased, then stripped. */
  function Key(c: Criterion): string {
    Strip(Lower(c.name))
  }

  /** The key of every criterion, in order. */
  function Keys(cs: seq<Criterion>): (keys: seq<string>)
    ensures |keys| == |cs|
  {
    if cs == [] then [] else Keys(cs[..|cs| - 1]) + [Key(cs[|cs| - 1])]
  }

  /** The `k`-th key is the key of the `k`-th criterion. */
  lemma {:induction false} KeysAt(cs: seq<Criterion>, k: nat)
    requires k < |cs|
    ensures Keys(cs)[k] == Key(cs[k])
  {
    if k < |cs| - 1 {
      KeysAt(cs[..|cs| - 1], k);
    }
  }

  /** The position of the first of the first `n` keys equal to `key`, or `n` when there is none. */
  function FirstWithKey(keys: seq<string>, key: string, n: nat): (f: nat)
    requires n <= |keys|
    ensures f <= n
    ensures f < n ==> keys[f] == key
    ensures forall j :: 0 <= j < f ==> keys[j] != key
  {
    if n == 0 then 0
    else
      var f := FirstWithKey(keys, key, n - 1);
      if f < n - 1 then f else if keys[n - 1] == key then n - 1 else n
  }

  /** One issue for every criterion among the first `n` whose key an earlier criterion already has. */
  function DuplicateIssues(cs: seq<Criterion>, keys: seq<string>, n: nat): seq<Issue>
    requires |keys| == |cs| && n <= |cs|
  {
    if n == 0 then []
    else
      var f := FirstWithKey(keys, keys[n - 1], n - 1);
      DuplicateIssues(cs, keys, n - 1) + (if f < n - 1 then [DuplicateName(cs[n - 1].name, f + 1, n)] else [])
  }

  /** `_validate_total_points`. */
  function TotalIssues(r: Rubric): seq<Issue> {
    var total := TotalMaxPoints(r);
    (if total <= 0.0 then [TotalNotPositive] else [])
    + (if total > HighTotal then [TotalTooHigh(total)] else [])
  }

  /** Every issue `validate` reports, in its order. */
  function Issues(r: Rubric): seq<Issue> {
    StructureIssues(r) + Flatten(PerCriterionIssues(r.criteria))
    + DuplicateIssues(r.criteria, Keys(r.criteria), |r.criteria|) + TotalIssues(r)
  }

  // ---------------------------------------------------------------- methods

  /**
   * `_check_duplicates`: walks the criteria keeping, per key, the position
   * where it was first seen, and reports each later criterion with that key.
   */
  method CheckDuplicates(criteria: seq<Criterion>) returns (issues: seq<Issue>)
    ensures issues == DuplicateIssues(criteria, Keys(criteria), |criteria|)
  {
    ghost var keys := Keys(criteria);
    issues := [];
    var seen: map<string, nat> := map[];
    for i := 0 to |criteria|
      invariant issues == DuplicateIssues(criteria, keys, i)
      invariant SeenFirst(seen, keys, i)
    {
      var nameLower := Strip(Lower(criteria[i].name));
      KeysAt(criteria, i);
      ScanStep(criteria, keys, seen, i);
      if nameLower in seen {
        issues := issues + [DuplicateName(criteria[i].name, seen[nameLower], i + 1)];
      } else {
        seen := seen[nameLower := i + 1];
      }
    }
  }

  /**
   * One step of `_check_duplicates`: a key already in `seen` is reported
   * with the position recorded for it; a new one is recorded.
   */
  lemma ScanStep(cs: seq<Criterion>, keys: seq<string>, seen: map<string, nat>, i: nat)
    requires |keys| == |cs| && i < |cs| && SeenFirst(seen, keys, i)
    ensures keys[i] in seen ==>
      SeenFirst(seen, keys, i + 1)
      && DuplicateIssues(cs, keys, i + 1) == DuplicateIssues(cs, keys, i) + [DuplicateName(cs[i].name, seen[keys[i]], i + 1)]
    ensures keys[i] !in seen ==>
      SeenFirst(seen[keys[i] := i + 1], keys, i + 1)
      && DuplicateIssues(cs, keys, i + 1) == DuplicateIssues(cs, keys, i)
  {
    SeenStep(seen, keys, i);
  }

  /** `seen` maps exactly the keys among the first `i` to one plus the position where each first occurs. */
  ghost predicate SeenFirst(seen: map<string, nat>, keys: seq<string>, i: nat)
    requires i <= |keys|
  {
    (forall key :: key in seen <==> FirstWithKey(keys, key, i) < i)
    && (forall key :: key in seen ==> seen[key] == FirstWithKey(keys, key, i) + 1)
  }

  /** One step of `_check_duplicates`: a key already seen is a repeat of its first position; a new one is recorded. */
  lemma SeenStep(seen: map<string, nat>, keys: seq<string>, i: nat)
    requires i < |keys| && SeenFirst(seen, keys, i)
    ensures keys[i] in seen ==> SeenFirst(seen, keys, i + 1) && seen[keys[i]] == FirstWithKey(keys, keys[i], i) + 1
    ensures keys[i] in seen <==> FirstWithKey(keys, keys[i], i) < i
    ensures keys[i] !in seen ==> SeenFirst(seen[keys[i] := i + 1], keys, i + 1)
  {
    var seen' := seen[keys[i] := i + 1];
    if keys[i] !in seen {
      forall key ensures key in seen' <==> FirstWithKey(keys, key, i + 1) < i + 1 {
        if key != keys[i] {
          assert key in seen' <==> key in seen;
        }
      }
    }
  }

  /** The loop of `validate` that runs `_validate_criterion` on each criterion with its position. */
  method ValidateCriteria(criteria: seq<Criterion>) returns (issues: seq<Issue>)
    ensures issues == Flatten(PerCriterionIssues(criteria))
  {
    issues := [];
    for i := 0 to |criteria|
      invariant issues == Flatten(PerCriterionIssues(criteria[..i]))
    {
      PerCriterionStep(criteria, i);
      issues := issues + CriterionIssues(criteria[i], i + 1);
    }
    assert criteria[..|criteria|] == criteria;
  }

  /** `validate`: the issues in order, and whether there are none. */
  method Validate(r: Rubric) returns (isValid: bool, issues: seq<Issue>)
    ensures issues == Issues(r)
    ensures isValid <==> issues == []
  {
    issues := StructureIssues(r);
    var perCriterion := ValidateCriteria(r.criteria);
    issues := issues + perCriterion;
    var duplicates := CheckDuplicates(r.criteria);
    issues := issues + duplicates;
    issues := issues + TotalIssues(r);
    isValid := |issues| == 0;
  }

  /** `validate_or_raise`: raises with exactly the issues of `validate`, and only when there are some. */
  method ValidateOrRaise(r: Rubric) returns (result: Result<(), seq<Issue>>)
    ensures result.Err? <==> Issues(r) != []
    ensures result.Err? ==> result.error == Issues(r)
  {
    var isValid, issues := Validate(r);
    if !isValid {
      return Err(issues);
    }
    return Ok(());
  }

  // ------------------------------------------------------------------ texts

  /** The prefix `Criterion {index} ({name})` of every per-criterion message. */
  function CriterionPrefix(index: nat, name: string): string {
    "Criterion " + NatText(index) + " (" + name + ")"
  }

  /**
   * The message of an issue. `fmt` renders a decimal as `str(Decimal)` does;
   * `listing` joins the vague words with ", " in the iteration order of the
   * source's frozenset, which Python does not fix.
   */
  function IssueText(issue: Issue, fmt: real -> string, listing: set<string> -> string): (t: string)
    ensures issue.NameTooShort? || issue.DescriptionTooShort? || issue.VagueDescription? || issue.PointsTooHigh? ==>
      StartsWith(t, CriterionPrefix(issue.index, issue.name) + ": ")
  {
    match issue
    case TitleEmpty => "Rubric title is empty"
    case CriteriaEmpty => "Rubric has no criteria"
    case NameTooShort(index, name) =>
      Prefixed(CriterionPrefix(index, name) + ": ", "Name is too short")
    case DescriptionTooShort(index, name) =>
      Prefixed(CriterionPrefix(index, name) + ": ",
        "Description is too short (minimum " + NatText(MinDescriptionLength) + " characters). "
        + "Clear descriptions are essential for consistent grading.")
    case VagueDescription(index, name, words) =>
      Prefixed(CriterionPrefix(index, name) + ": ",
        "Description contains vague words (" + listing(words) + "). Use specific, measurable criteria instead.")
    case PointsTooHigh(index, name, points) =>
      Prefixed(CriterionPrefix(index, name) + ": ",
        "Points (" + fmt(points) + ") exceed maximum allowed (" + fmt(MaxPointsPerCriterion) + ")")
    case DuplicateName(name, first, position) =>
      "Duplicate criterion name: '" + name + "' (appears at positions " + NatText(first) + " and " + NatText(position) + ")"
    case TotalNotPositive => "Total points must be greater than 0"
    case TotalTooHigh(total) =>
      "Total points (" + fmt(total) + ") is unusually high. Consider if this is intentional."
  }

  function Prefixed(prefix: string, rest: string): (t: string)
    ensures StartsWith(t, prefix)
  {
    assert (prefix + rest)[..|prefix|] == prefix;
    prefix + rest
  }

  /** The message of `RubricValidationError`: a header, then one indented line per issue text. */
  function FailureMessage(texts: seq<string>): string {
    "Rubric validation failed:\n" + Join("\n", seq(|texts|, k requires 0 <= k < |texts| => "  - " + texts[k]))
  }

  // ----------------------------------------------------------------- lemmas

  /** The words found from position `i` on are the listed words there that occur in `lowered`. */
  lemma {:induction false} VagueFromWords(lowered: string, i: nat)
    requires i <= |VagueWords|
    ensures forall w :: w in VagueFrom(lowered, i) <==> w in VagueWords[i..] && Contains(lowered, w)
    decreases |VagueWords| - i
  {
    if i < |VagueWords| {
      VagueFromWords(lowered, i + 1);
      assert VagueWords[i..] == [VagueWords[i]] + VagueWords[i + 1..];
    }
  }

  /**
   * The vague-word check names exactly the nine words that occur in the
   * lower-cased description, and gives an issue exactly when one does.
   */
  lemma VagueIssue(c: Criterion, index: nat)
    ensures forall w :: w in VagueFound(c.description) <==> w in VagueWords && Contains(Lower(c.description), w)
    ensures (exists w :: w in VagueWords && Contains(Lower(c.description), w))
      <==> VagueDescription(index, c.name, VagueFound(c.description)) in CriterionIssues(c, index)
  {
    var found := VagueFound(c.description);
    VagueFromWords(Lower(c.description), 0);
    assert VagueWords[0..] == VagueWords;
    assert VagueDescription(index, c.name, found) in CriterionIssues(c, index) <==> found != {};
  }

  /** A criterion gets at most one vague-description issue. */
  lemma VagueIssueOnce(c: Criterion, index: nat)
    ensures forall k, j :: 0 <= k < j < |CriterionIssues(c, index)| ==>
      !(CriterionIssues(c, index)[k].VagueDescription? && CriterionIssues(c, index)[j].VagueDescription?)
  {
  }

  /** `_validate_criterion` finds nothing exactly when the criterion is clean. */
  lemma CriterionIssuesEmptyIff(c: Criterion, index: nat)
    ensures CriterionIssues(c, index) == [] <==> CriterionClean(c)
  {
  }

  /** Putting lists one after the other, one more list adds its issues at the end. */
  lemma FlattenSnoc(xs: seq<seq<Issue>>, x: seq<Issue>)
    ensures Flatten(xs + [x]) == Flatten(xs) + x
  {
    assert (xs + [x])[..|xs|] == xs;
  }

  /** One more criterion adds its `_validate_criterion` issues at the end. */
  lemma PerCriterionStep(cs: seq<Criterion>, i: nat)
    requires i < |cs|
    ensures Flatten(PerCriterionIssues(cs[..i + 1]))
      == Flatten(PerCriterionIssues(cs[..i])) + CriterionIssues(cs[i], i + 1)
  {
    assert cs[..i + 1][..i] == cs[..i];
    FlattenSnoc(PerCriterionIssues(cs[..i]), CriterionIssues(cs[i], i + 1));
  }

  /** Every list in `xs` is empty. */
  predicate AllEmpty(xs: seq<seq<Issue>>) {
    forall k :: 0 <= k < |xs| ==> xs[k] == []
  }

  /** Every criterion of `cs`, taken from the first to the last, is clean. */
  predicate AllClean(cs: seq<Criterion>) {
    cs == [] || (AllClean(cs[..|cs| - 1]) && CriterionClean(cs[|cs| - 1]))
  }

  /** One more list keeps every list empty exactly when it is empty itself. */
  lemma AllEmptySnoc(xs: seq<seq<Issue>>, x: seq<Issue>)
    ensures AllEmpty(xs + [x]) <==> AllEmpty(xs) && x == []
  {
    if AllEmpty(xs) && x == [] {
      forall k | 0 <= k < |xs + [x]| ensures (xs + [x])[k] == [] {
        if k < |xs| { assert (xs + [x])[k] == xs[k]; }
      }
    }
    if AllEmpty(xs + [x]) {
      assert (xs + [x])[|xs|] == x;
      forall k | 0 <= k < |xs| ensures xs[k] == [] {
        assert (xs + [x])[k] == xs[k];
      }
    }
  }

  /** The lists put one after the other give nothing exactly when each list is empty. */
  lemma {:induction false} FlattenEmptyIff(xs: seq<seq<Issue>>)
    ensures Flatten(xs) == [] <==> AllEmpty(xs)
  {
    if xs != [] {
      var init := xs[..|xs| - 1];
      FlattenEmptyIff(init);
      assert |Flatten(xs)| == |Flatten(init)| + |xs[|xs| - 1]|;
      assert forall k :: 0 <= k < |init| ==> init[k] == xs[k];
    }
  }

  /** The per-criterion lists are all empty exactly when every criterion is clean. */
  lemma {:induction false} PerCriterionEmptyIff(cs: seq<Criterion>)
    ensures AllEmpty(PerCriterionIssues(cs)) <==> AllClean(cs)
  {
    if cs != [] {
      var init := cs[..|cs| - 1];
      PerCriterionEmptyIff(init);
      CriterionIssuesEmptyIff(cs[|cs| - 1], |cs|);
      AllEmptySnoc(PerCriterionIssues(init), CriterionIssues(cs[|cs| - 1], |cs|));
    }
  }

  /** The per-criterion checks find nothing exactly when every criterion is clean. */
  lemma CriteriaIssuesEmptyIff(cs: seq<Criterion>)
    ensures Flatten(PerCriterionIssues(cs)) == [] <==> AllClean(cs)
  {
    FlattenEmptyIff(PerCriterionIssues(cs));
    PerCriterionEmptyIff(cs);
  }

  /** No two of the first `n` keys are equal. */
  predicate KeysDistinct(keys: seq<string>, n: nat)
    requires n <= |keys|
  {
    forall i, j :: 0 <= i < j < n ==> keys[i] != keys[j]
  }

  /** Repeated names are reported exactly when two criteria share a key. */
  lemma {:induction false} DuplicateIssuesEmptyIff(cs: seq<Criterion>, keys: seq<string>, n: nat)
    requires |keys| == |cs| && n <= |cs|
    ensures DuplicateIssues(cs, keys, n) == [] <==> KeysDistinct(keys, n)
  {
    if n > 0 {
      DuplicateIssuesEmptyIff(cs, keys, n - 1);
      var f := FirstWithKey(keys, keys[n - 1], n - 1);
      if f < n - 1 {
        assert !KeysDistinct(keys, n) by {
          assert keys[f] == keys[n - 1];
        }
      } else if KeysDistinct(keys, n - 1) {
        assert KeysDistinct(keys, n) by {
          forall i, j | 0 <= i < j < n ensures keys[i] != keys[j] {
            if j == n - 1 {
              assert i < f;
            }
          }
        }
      }
    }
  }

  /** Each duplicate report names a later criterion and the first earlier one with the same key. */
  lemma {:induction false} DuplicateIssueReportsFirst(cs: seq<Criterion>, keys: seq<string>, n: nat, k: nat)
    requires |keys| == |cs| && n <= |cs| && k < |DuplicateIssues(cs, keys, n)|
    ensures var d := DuplicateIssues(cs, keys, n)[k];
      d.DuplicateName? && 1 <= d.first < d.position <= n
      && d.name == cs[d.position - 1].name
      && keys[d.first - 1] == keys[d.position - 1]
      && forall j :: 0 <= j < d.first - 1 ==> keys[j] != keys[d.position - 1]
  {
    var prev := DuplicateIssues(cs, keys, n - 1);
    if k < |prev| {
      DuplicateIssueReportsFirst(cs, keys, n - 1, k);
    }
  }

  /**
   * `validate` finds nothing exactly when the title is not blank, there are
   * criteria, each is clean, no two names agree once lower-cased and
   * stripped, and the total lies in (0, 1000].
   */
  lemma ValidIff(r: Rubric)
    ensures Issues(r) == [] <==>
      Strip(r.title) != [] && r.criteria != []
      && AllClean(r.criteria)
      && KeysDistinct(Keys(r.criteria), |r.criteria|)
      && 0.0 < TotalMaxPoints(r) <= HighTotal
  {
    CriteriaIssuesEmptyIff(r.criteria);
    DuplicateIssuesEmptyIff(r.criteria, Keys(r.criteria), |r.criteria|);
  }

  /** A total above 1000 makes the rubric invalid, although the message calls it a warning. */
  lemma HighTotalInvalid(r: Rubric)
    requires TotalMaxPoints(r) > HighTotal
    ensures Issues(r) != []
    ensures TotalTooHigh(TotalMaxPoints(r)) in Issues(r)
  {
    var i := Issues(r);
    assert i[|i| - 1] == TotalTooHigh(TotalMaxPoints(r));
  }

  /** The stage of an issue in `validate`'s order: structure, criteria, duplicates, totals. */
  function Stage(issue: Issue): nat {
    match issue
    case TitleEmpty => 0
    case CriteriaEmpty => 0
    case DuplicateName(_, _, _) => 2
    case TotalNotPositive => 3
    case TotalTooHigh(_) => 3
    case _ => 1
  }

  /** The criterion position a per-criterion issue is about, and 0 for the others. */
  function Position(issue: Issue): nat {
    match issue
    case NameTooShort(index, _) => index
    case DescriptionTooShort(index, _) => index
    case VagueDescription(index, _, _) => index
    case PointsTooHigh(index, _, _) => index
    case _ => 0
  }

  /** Every issue in `xs` is a per-criterion one about position `index`. */
  predicate About(xs: seq<Issue>, index: nat) {
    forall m :: 0 <= m < |xs| ==> Stage(xs[m]) == 1 && Position(xs[m]) == index
  }

  /** No issue in `xs` is about a criterion's points. */
  predicate NoPointsIssue(xs: seq<Issue>) {
    forall m :: 0 <= m < |xs| ==> !xs[m].PointsTooHigh?
  }

  /** The issues `_validate_criterion` reports are per-criterion ones about its position. */
  lemma CriterionIssuesAt(c: Criterion, index: nat)
    ensures About(CriterionIssues(c, index), index)
  {
    var found := VagueFound(c.description);
    var a := if |Strip(c.name)| < 2 then [NameTooShort(index, c.name)] else [];
    var b := if |Strip(c.description)| < MinDescriptionLength then [DescriptionTooShort(index, c.name)] else [];
    var v := if found != {} then [VagueDescription(index, c.name, found)] else [];
    var p := if c.maxPoints > MaxPointsPerCriterion then [PointsTooHigh(index, c.name, c.maxPoints)] else [];
    assert CriterionIssues(c, index) == a + b + v + p;
    AboutConcat(a, b, index);
    AboutConcat(a + b, v, index);
    AboutConcat(a + b + v, p, index);
  }

  /** Two lists about the same position, one after the other, are about that position. */
  lemma AboutConcat(a: seq<Issue>, b: seq<Issue>, index: nat)
    requires About(a, index) && About(b, index)
    ensures About(a + b, index)
  {
    forall m | 0 <= m < |a + b| ensures Stage((a + b)[m]) == 1 && Position((a + b)[m]) == index {
      if m >= |a| {
        assert (a + b)[m] == b[m - |a|];
      }
    }
  }

  /** A criterion within the bound gets no points issue from `_validate_criterion`. */
  lemma CriterionNoPointsIssue(c: Criterion, index: nat)
    requires c.maxPoints <= MaxPointsPerCriterion
    ensures NoPointsIssue(CriterionIssues(c, index))
  {
  }

  /** The issues of the criterion at position `k + 1` are about position `k + 1`. */
  lemma {:induction false} PerCriterionAbout(cs: seq<Criterion>)
    ensures forall k :: 0 <= k < |cs| ==> About(PerCriterionIssues(cs)[k], k + 1)
  {
    if cs != [] {
      var init := cs[..|cs| - 1];
      PerCriterionAbout(init);
      CriterionIssuesAt(cs[|cs| - 1], |cs|);
      assert forall k :: 0 <= k < |init| ==> init[k] == cs[k];
    }
  }

  /** Criteria that all lie within the points bound get no points issue. */
  lemma {:induction false} PerCriterionNoPoints(cs: seq<Criterion>)
    requires forall k :: 0 <= k < |cs| ==> cs[k].maxPoints <= MaxPointsPerCriterion
    ensures forall k :: 0 <= k < |cs| ==> NoPointsIssue(PerCriterionIssues(cs)[k])
  {
    if cs != [] {
      var init := cs[..|cs| - 1];
      assert forall k :: 0 <= k < |init| ==> init[k] == cs[k];
      PerCriterionNoPoints(init);
      CriterionNoPointsIssue(cs[|cs| - 1], |cs|);
    }
  }

  /** Lists whose `k`-th is about position `k + 1`, put one after the other, come by position. */
  lemma {:induction false} FlattenOrdered(xs: seq<seq<Issue>>)
    requires forall k :: 0 <= k < |xs| ==> About(xs[k], k + 1)
    ensures forall i :: 0 <= i < |Flatten(xs)| ==> Stage(Flatten(xs)[i]) == 1 && 1 <= Position(Flatten(xs)[i]) <= |xs|
    ensures forall i, j :: 0 <= i < j < |Flatten(xs)| ==> Position(Flatten(xs)[i]) <= Position(Flatten(xs)[j])
  {
    if xs != [] {
      var init: seq<seq<Issue>>, last: seq<Issue> := xs[..|xs| - 1], xs[|xs| - 1];
      assert forall k :: 0 <= k < |init| ==> init[k] == xs[k];
      FlattenOrdered(init);
      var f: seq<Issue> := Flatten(init);
      assert Flatten(xs) == f + last;
      assert About(last, |xs|);
      forall i | 0 <= i < |f + last|
        ensures Stage((f + last)[i]) == 1 && 1 <= Position((f + last)[i]) <= |xs|
      {
        if i >= |f| {
          assert (f + last)[i] == last[i - |f|];
        }
      }
      forall i, j | 0 <= i < j < |f + last|
        ensures Position((f + last)[i]) <= Position((f + last)[j])
      {
        if j >= |f| {
          assert (f + last)[j] == last[j - |f|];
          if i >= |f| {
            assert (f + last)[i] == last[i - |f|];
          }
        }
      }
    }
  }

  /** Lists without a points issue, put one after the other, have none. */
  lemma {:induction false} FlattenNoPoints(xs: seq<seq<Issue>>)
    requires forall k :: 0 <= k < |xs| ==> NoPointsIssue(xs[k])
    ensures NoPointsIssue(Flatten(xs))
  {
    if xs != [] {
      var init: seq<seq<Issue>>, last: seq<Issue> := xs[..|xs| - 1], xs[|xs| - 1];
      assert forall k :: 0 <= k < |init| ==> init[k] == xs[k];
      FlattenNoPoints(init);
      var f: seq<Issue> := Flatten(init);
      assert Flatten(xs) == f + last;
      assert NoPointsIssue(last);
      forall i | 0 <= i < |f + last| ensures !(f + last)[i].PointsTooHigh? {
        if i >= |f| {
          assert (f + last)[i] == last[i - |f|];
        }
      }
    }
  }

  /** Every duplicate report is in the duplicate stage. */
  lemma {:induction false} DuplicateIssuesStage(cs: seq<Criterion>, keys: seq<string>, n: nat)
    requires |keys| == |cs| && n <= |cs|
    ensures forall k :: 0 <= k < |DuplicateIssues(cs, keys, n)| ==> Stage(DuplicateIssues(cs, keys, n)[k]) == 2
  {
    if n > 0 {
      DuplicateIssuesStage(cs, keys, n - 1);
    }
  }

  /** Four lists of the four stages, the second ordered by position, put one after the other come stage by stage. */
  lemma StagesInOrder(s: seq<Issue>, c: seq<Issue>, d: seq<Issue>, t: seq<Issue>)
    requires forall k :: 0 <= k < |s| ==> Stage(s[k]) == 0
    requires forall k :: 0 <= k < |c| ==> Stage(c[k]) == 1
    requires forall i, j :: 0 <= i < j < |c| ==> Position(c[i]) <= Position(c[j])
    requires forall k :: 0 <= k < |d| ==> Stage(d[k]) == 2
    requires forall k :: 0 <= k < |t| ==> Stage(t[k]) == 3
    ensures forall i, j :: 0 <= i < j < |s + c + d + t| ==> Stage((s + c + d + t)[i]) <= Stage((s + c + d + t)[j])
    ensures forall i, j :: 0 <= i < j < |s + c + d + t| && Stage((s + c + d + t)[i]) == 1 && Stage((s + c + d + t)[j]) == 1 ==>
      Position((s + c + d + t)[i]) <= Position((s + c + d + t)[j])
  {
    var all := s + c + d + t;
    var a, b, e := |s|, |s| + |c|, |s| + |c| + |d|;
    forall k | 0 <= k < |all|
      ensures Stage(all[k]) == if k < a then 0 else if k < b then 1 else if k < e then 2 else 3
    {
      if k < a {
        assert all[k] == s[k];
      } else if k < b {
        assert all[k] == c[k - a];
      } else if k < e {
        assert all[k] == d[k - b];
      } else {
        assert all[k] == t[k - e];
      }
    }
    forall i, j | 0 <= i < j < |all| && Stage(all[i]) == 1 && Stage(all[j]) == 1
      ensures Position(all[i]) <= Position(all[j])
    {
      assert all[i] == c[i - a] && all[j] == c[j - a];
    }
  }

  /** Issues come stage by stage, and the per-criterion ones by criterion position. */
  lemma IssuesOrdered(r: Rubric)
    ensures forall i, j :: 0 <= i < j < |Issues(r)| ==> Stage(Issues(r)[i]) <= Stage(Issues(r)[j])
    ensures forall i, j :: 0 <= i < j < |Issues(r)| && Stage(Issues(r)[i]) == 1 && Stage(Issues(r)[j]) == 1 ==>
      Position(Issues(r)[i]) <= Position(Issues(r)[j])
  {
    var n := |r.criteria|;
    var s, c, d, t := StructureIssues(r), Flatten(PerCriterionIssues(r.criteria)), DuplicateIssues(r.criteria, Keys(r.criteria), n), TotalIssues(r);
    assert Issues(r) == s + c + d + t;
    StructureAndTotalStages(r);
    PerCriterionOrdered(r.criteria);
    DuplicateIssuesStage(r.criteria, Keys(r.criteria), n);
    StagesInOrder(s, c, d, t);
  }

  /** The structure issues come first and the total issues last. */
  lemma StructureAndTotalStages(r: Rubric)
    ensures forall k :: 0 <= k < |StructureIssues(r)| ==> Stage(StructureIssues(r)[k]) == 0
    ensures forall k :: 0 <= k < |TotalIssues(r)| ==> Stage(TotalIssues(r)[k]) == 3
  {
    var s, t := StructureIssues(r), TotalIssues(r);
    assert s == [] || s == [TitleEmpty] || s == [CriteriaEmpty] || s == [TitleEmpty, CriteriaEmpty];
    assert t == [] || t == [TotalNotPositive] || t == [TotalTooHigh(TotalMaxPoints(r))];
  }

  /** The per-criterion issues, put one after the other, come by criterion position. */
  lemma PerCriterionOrdered(cs: seq<Criterion>)
    ensures forall i :: 0 <= i < |Flatten(PerCriterionIssues(cs))| ==> Stage(Flatten(PerCriterionIssues(cs))[i]) == 1
    ensures forall i, j :: 0 <= i < j < |Flatten(PerCriterionIssues(cs))| ==>
      Position(Flatten(PerCriterionIssues(cs))[i]) <= Position(Flatten(PerCriterionIssues(cs))[j])
  {
    PerCriterionAbout(cs);
    FlattenOrdered(PerCriterionIssues(cs));
  }

  /** A rubric that was built never gets the "no criteria", per-criterion points or non-positive total issue. */
  lemma BuiltRubricIssues(r: Rubric)
    requires ValidRubric(r)
    ensures CriteriaEmpty !in Issues(r)
    ensures TotalNotPositive !in Issues(r)
    ensures NoPointsIssue(Issues(r))
  {
    var n := |r.criteria|;
    var s, c, d, t := StructureIssues(r), Flatten(PerCriterionIssues(r.criteria)), DuplicateIssues(r.criteria, Keys(r.criteria), n), TotalIssues(r);
    assert Issues(r) == s + c + d + t;
    RubricTotals(r);
    assert s == [] || s == [TitleEmpty];
    assert t == [] || t == [TotalTooHigh(TotalMaxPoints(r))];
    PerCriterionOrdered(r.criteria);
    StageExcludes(c, 1);
    BuiltCriteriaNoPoints(r);
    DuplicateIssuesStage(r.criteria, Keys(r.criteria), n);
    StageExcludes(d, 2);
    NoPointsConcat(s, c);
    NoPointsConcat(s + c, d);
    NoPointsConcat(s + c + d, t);
  }

  /** Issues all of one stage hold none of another stage. */
  lemma StageExcludes(xs: seq<Issue>, n: nat)
    requires forall k :: 0 <= k < |xs| ==> Stage(xs[k]) == n
    ensures n != 0 ==> CriteriaEmpty !in xs
    ensures n != 3 ==> TotalNotPositive !in xs
    ensures n != 1 ==> NoPointsIssue(xs)
  {
    forall m | 0 <= m < |xs| ensures (n != 1 ==> !xs[m].PointsTooHigh?) {
      assert Stage(xs[m]) == n;
    }
  }

  /** The criteria of a built rubric get no points issue. */
  lemma BuiltCriteriaNoPoints(r: Rubric)
    requires ValidRubric(r)
    ensures NoPointsIssue(Flatten(PerCriterionIssues(r.criteria)))
  {
    PerCriterionNoPoints(r.criteria);
    FlattenNoPoints(PerCriterionIssues(r.criteria));
  }

  /** Two lists without a points issue, one after the other, have none. */
  lemma NoPointsConcat(a: seq<Issue>, b: seq<Issue>)
    requires NoPointsIssue(a) && NoPointsIssue(b)
    ensures NoPointsIssue(a + b)
  {
    forall m | 0 <= m < |a + b| ensures !(a + b)[m].PointsTooHigh? {
      if m >= |a| {
        assert (a + b)[m] == b[m - |a|];
      }
    }
  }
}
