/**
 * The frozen value types of the grading system: rubric criteria, rubrics, per-criterion
 * results, grading results and audit records, each with the constraints its
 * constructor enforces and the totals derived from it. Decimal amounts are
 * exact `real`s.
 */
module Models {
  import opened Wrappers

  /** One constraint a constructor found broken; a failed construction reports all of them at once. */
  datatype Violation =
    | NameLength           // a criterion name outside 1..200 characters
    | DescriptionEmpty     // an empty criterion description
    | MaxPointsOutOfRange  // max_points not in (0, 1000]
    | TitleLength          // a rubric title outside 1..500 characters
    | NoCriteria           // a rubric without criteria
    | DuplicateNames(names: set<string>)  // criterion names that occur more than once (exact match)
    | AwardedNegative      // awarded_points below zero
    | AwardedAboveMax      // awarded_points above max_points
    | JustificationEmpty   // an empty justification
    | NoCriterionResults   // a grading result without criterion results
    | FeedbackEmpty        // an empty overall feedback
    | PassesBelowOne       // llm_passes_used below one

  // ---------------------------------------------------------------- criteria

  datatype Criterion = Criterion(name: string, description: string, maxPoints: real, allowsPartialCredit: bool)

  predicate ValidCriterion(c: Criterion) {
    1 <= |c.name| <= 200 && |c.description| >= 1 && 0.0 < c.maxPoints <= 1000.0
  }

  function CriterionViolations(name: string, description: string, maxPoints: real): set<Violation> {
    (if 1 <= |name| <= 200 then {} else {NameLength})
    + (if |description| >= 1 then {} else {DescriptionEmpty})
    + (if 0.0 < maxPoints <= 1000.0 then {} else {MaxPointsOutOfRange})
  }

  /** Building a criterion: it succeeds exactly when every field constraint holds, and otherwise names each one broken. */
  function MakeCriterion(name: string, description: string, maxPoints: real, allowsPartialCredit: bool)
    : (r: Result<Criterion, set<Violation>>)
    ensures r.Ok? <==> 1 <= |name| <= 200 && |description| >= 1 && 0.0 < maxPoints <= 1000.0
    ensures r.Ok? ==> ValidCriterion(r.value)
    ensures r.Ok? ==> r.value == Criterion(name, description, maxPoints, allowsPartialCredit)
    ensures r.Err? ==> r.error != {} && r.error <= {NameLength, DescriptionEmpty, MaxPointsOutOfRange}
    ensures r.Err? ==> (NameLength in r.error <==> !(1 <= |name| <= 200))
    ensures r.Err? ==> (DescriptionEmpty in r.error <==> |description| == 0)
    ensures r.Err? ==> (MaxPointsOutOfRange in r.error <==> !(0.0 < maxPoints <= 1000.0))
  {
    var v := CriterionViolations(name, description, maxPoints);
    if v == {} then Ok(Criterion(name, description, maxPoints, allowsPartialCredit)) else Err(v)
  }

  // ----------------------------------------------------------------- rubrics

  datatype Rubric = Rubric(title: string, description: string, criteria: seq<Criterion>)

  /** No two criteria share a name, compared exactly (case matters). */
  predicate NamesDistinct(cs: seq<Criterion>) {
    forall i, j :: 0 <= i < j < |cs| ==> cs[i].name != cs[j].name
  }

  predicate AllCriteriaValid(cs: seq<Criterion>) {
    forall k :: 0 <= k < |cs| ==> ValidCriterion(cs[k])
  }

  predicate ValidRubric(r: Rubric) {
    1 <= |r.title| <= 500 && |r.criteria| >= 1 && AllCriteriaValid(r.criteria) && NamesDistinct(r.criteria)
  }

  /** The names that occur at two or more positions. */
  function RepeatedNames(cs: seq<Criterion>): (names: set<string>)
    ensures names == {} <==> NamesDistinct(cs)
  {
    var names := set i, j | 0 <= i < j < |cs| && cs[i].name == cs[j].name :: cs[i].name;
    assert !NamesDistinct(cs) ==> exists i, j :: 0 <= i < j < |cs| && cs[i].name == cs[j].name && cs[i].name in names;
    names
  }

  /**
   * Building a rubric from criteria that were each built successfully: the
   * field constraints first (title length, at least one criterion), then,
   * only when those hold, the duplicate-name check.
   */
  function MakeRubric(title: string, description: string, criteria: seq<Criterion>): (r: Result<Rubric, set<Violation>>)
    requires AllCriteriaValid(criteria)
    ensures r.Ok? <==> 1 <= |title| <= 500 && |criteria| >= 1 && NamesDistinct(criteria)
    ensures r.Ok? ==> ValidRubric(r.value) && r.value == Rubric(title, description, criteria)
    ensures r.Err? ==> r.error != {} && r.error <= {TitleLength, NoCriteria, DuplicateNames(RepeatedNames(criteria))}
    ensures r.Err? ==> (TitleLength in r.error <==> !(1 <= |title| <= 500))
    ensures r.Err? ==> (NoCriteria in r.error <==> |criteria| == 0)
    ensures r.Err? && 1 <= |title| <= 500 && |criteria| >= 1 ==>
      r.error == {DuplicateNames(RepeatedNames(criteria))} && RepeatedNames(criteria) != {}
  {
    var fields := (if 1 <= |title| <= 500 then {} else {TitleLength}) + (if |criteria| >= 1 then {} else {NoCriteria});
    if fields != {} then Err(fields)
    else if RepeatedNames(criteria) != {} then Err({DuplicateNames(RepeatedNames(criteria))})
    else Ok(Rubric(title, description, criteria))
  }

  /** The exact sum of the criteria's max_points. */
  function SumMaxPoints(cs: seq<Criterion>): real {
    if cs == [] then 0.0 else cs[0].maxPoints + SumMaxPoints(cs[1..])
  }

  function TotalMaxPoints(r: Rubric): real {
    SumMaxPoints(r.criteria)
  }

  function CriterionCount(r: Rubric): nat {
    |r.criteria|
  }

  lemma {:induction false} SumMaxPointsBounds(cs: seq<Criterion>)
    requires AllCriteriaValid(cs)
    ensures 0.0 <= SumMaxPoints(cs) <= 1000.0 * |cs| as real
    ensures |cs| > 0 ==> SumMaxPoints(cs) > 0.0
  {
    if cs != [] {
      SumMaxPointsBounds(cs[1..]);
    }
  }

  lemma {:induction false} SumMaxPointsAppend(a: seq<Criterion>, b: seq<Criterion>)
    ensures SumMaxPoints(a + b) == SumMaxPoints(a) + SumMaxPoints(b)
  {
    if a != [] {
      assert (a + b)[1..] == a[1..] + b;
      SumMaxPointsAppend(a[1..], b);
    } else {
      assert a + b == b;
    }
  }

  /** A rubric that was built has a positive total of at most 1000 points per criterion, and at least one criterion. */
  lemma RubricTotals(r: Rubric)
    requires ValidRubric(r)
    ensures CriterionCount(r) >= 1
    ensures 0.0 < TotalMaxPoints(r) <= 1000.0 * CriterionCount(r) as real
  {
    SumMaxPointsBounds(r.criteria);
  }

  // -------------------------------------------------------- criterion results

  datatype CriterionResult = CriterionResult(
    criterionName: string,
    maxPoints: real,
    awardedPoints: real,
    justification: string,
    deductionReason: Option<string>)

  predicate ValidCriterionResult(r: CriterionResult) {
    0.0 <= r.awardedPoints <= r.maxPoints && |r.justification| >= 1
  }

  /**
   * Building a criterion result: the field constraints (awarded not negative,
   * justification not empty) first, then, only when those hold, awarded at most max.
   */
  function MakeCriterionResult(name: string, maxPoints: real, awarded: real, justification: string, deductionReason: Option<string>)
    : (r: Result<CriterionResult, set<Violation>>)
    ensures r.Ok? <==> 0.0 <= awarded <= maxPoints && |justification| >= 1
    ensures r.Ok? ==> ValidCriterionResult(r.value)
    ensures r.Ok? ==> r.value == CriterionResult(name, maxPoints, awarded, justification, deductionReason)
    ensures r.Err? ==> r.error != {} && r.error <= {AwardedNegative, JustificationEmpty, AwardedAboveMax}
    ensures r.Err? ==> (AwardedNegative in r.error <==> awarded < 0.0)
    ensures r.Err? ==> (JustificationEmpty in r.error <==> |justification| == 0)
    ensures r.Err? ==> (AwardedAboveMax in r.error <==> 0.0 <= awarded && |justification| >= 1 && awarded > maxPoints)
  {
    var fields := (if awarded >= 0.0 then {} else {AwardedNegative}) + (if |justification| >= 1 then {} else {JustificationEmpty});
    if fields != {} then Err(fields)
    else if awarded > maxPoints then Err({AwardedAboveMax})
    else Ok(CriterionResult(name, maxPoints, awarded, justification, deductionReason))
  }

  /** awarded / max * 100, guarded against a zero max. */
  function Percentage(r: CriterionResult): real {
    if r.maxPoints == 0.0 then 0.0 else r.awardedPoints / r.maxPoints * 100.0
  }

  /** A ratio of two amounts with 0 <= part <= whole, as a percentage, lies in [0, 100]. */
  lemma RatioPercentBounds(part: real, whole: real)
    requires 0.0 <= part <= whole && whole > 0.0
    ensures 0.0 <= part / whole * 100.0 <= 100.0
  {
    assert part / whole <= 1.0 by {
      assert part / whole * whole == part;
    }
  }

  /** A valid criterion result scores between 0 and 100 percent. */
  lemma PercentageBounds(r: CriterionResult)
    requires ValidCriterionResult(r)
    ensures 0.0 <= Percentage(r) <= 100.0
    ensures r.maxPoints > 0.0 ==> Percentage(r) * r.maxPoints == r.awardedPoints * 100.0
    ensures r.maxPoints == 0.0 ==> Percentage(r) == 0.0
    ensures Percentage(r) == 100.0 <==> r.maxPoints > 0.0 && r.awardedPoints == r.maxPoints
  {
    if r.maxPoints != 0.0 {
      RatioPercentBounds(r.awardedPoints, r.maxPoints);
    }
  }

  // ---------------------------------------------------------- grading results

  /**
   * A graded submission. `submissionId` stands for the UUID drawn when the
   * result is built; the timestamp is not modelled.
   */
  datatype GradingResult = GradingResult(
    submissionId: nat,
    rubricTitle: string,
    criteriaResults: seq<CriterionResult>,
    overallFeedback: string,
    llmPassesUsed: int,
    varianceDetected: bool,
    flaggedForReview: bool)

  predicate AllResultsValid(rs: seq<CriterionResult>) {
    forall k :: 0 <= k < |rs| ==> ValidCriterionResult(rs[k])
  }

  predicate ValidGradingResult(g: GradingResult) {
    |g.criteriaResults| >= 1 && AllResultsValid(g.criteriaResults) && |g.overallFeedback| >= 1 && g.llmPassesUsed >= 1
  }

  /** Building a grading result from criterion results that were each built successfully. */
  function MakeGradingResult(
    id: nat, title: string, results: seq<CriterionResult>, feedback: string,
    passes: int, varianceDetected: bool, flagged: bool): (r: Result<GradingResult, set<Violation>>)
    requires AllResultsValid(results)
    ensures r.Ok? <==> |results| >= 1 && |feedback| >= 1 && passes >= 1
    ensures r.Ok? ==> ValidGradingResult(r.value)
    ensures r.Ok? ==> r.value == GradingResult(id, title, results, feedback, passes, varianceDetected, flagged)
    ensures r.Err? ==> r.error != {} && r.error <= {NoCriterionResults, FeedbackEmpty, PassesBelowOne}
    ensures r.Err? ==> (NoCriterionResults in r.error <==> |results| == 0)
    ensures r.Err? ==> (FeedbackEmpty in r.error <==> |feedback| == 0)
    ensures r.Err? ==> (PassesBelowOne in r.error <==> passes < 1)
  {
    var v := (if |results| >= 1 then {} else {NoCriterionResults})
      + (if |feedback| >= 1 then {} else {FeedbackEmpty})
      + (if passes >= 1 then {} else {PassesBelowOne});
    if v == {} then Ok(GradingResult(id, title, results, feedback, passes, varianceDetected, flagged)) else Err(v)
  }

  function SumAwarded(rs: seq<CriterionResult>): real {
    if rs == [] then 0.0 else rs[0].awardedPoints + SumAwarded(rs[1..])
  }

  function SumMax(rs: seq<CriterionResult>): real {
    if rs == [] then 0.0 else rs[0].maxPoints + SumMax(rs[1..])
  }

  function TotalAwarded(g: GradingResult): real {
    SumAwarded(g.criteriaResults)
  }

  function TotalMax(g: GradingResult): real {
    SumMax(g.criteriaResults)
  }

  /** total_awarded / total_max * 100, guarded against a zero total_max. */
  function PercentageScore(g: GradingResult): real {
    if TotalMax(g) == 0.0 then 0.0 else TotalAwarded(g) / TotalMax(g) * 100.0
  }

  lemma {:induction false} SumsBounded(rs: seq<CriterionResult>)
    requires AllResultsValid(rs)
    ensures 0.0 <= SumAwarded(rs) <= SumMax(rs)
  {
    if rs != [] {
      SumsBounded(rs[1..]);
    }
  }

  /** Per-criterion bounds carry over to the totals: 0 <= total_awarded <= total_max, and the score lies in [0, 100]. */
  lemma GradingTotals(g: GradingResult)
    requires AllResultsValid(g.criteriaResults)
    ensures 0.0 <= TotalAwarded(g) <= TotalMax(g)
    ensures 0.0 <= PercentageScore(g) <= 100.0
    ensures TotalMax(g) == 0.0 ==> PercentageScore(g) == 0.0
  {
    SumsBounded(g.criteriaResults);
    if TotalMax(g) != 0.0 {
      RatioPercentBounds(TotalAwarded(g), TotalMax(g));
    }
  }

  // ------------------------------------------------------------ audit records

  /** The audit receipt: three digests, the model, the temperature and the pass count. Id and timestamp are not modelled. */
  datatype AuditRecord = AuditRecord(
    rubricHash: string,
    answerHash: string,
    resultHash: string,
    modelUsed: string,
    temperature: real,
    passesCount: int)
}
