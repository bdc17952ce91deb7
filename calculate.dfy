/** The statistics and the prediction arithmetic of
    src/services/calculate.service.ts. Math.sqrt and mathjs' erf are
    parameters (`sqrt`, `erf`); all arithmetic is exact, over real. */
module Calculate {
  import opened Wrappers
  import opened Models
  import opened Common

  // ------------------------------------------------------------------
  // calculateStatistics
  // ------------------------------------------------------------------

  /** The three nullable fields of a comparison entry. */
  datatype Field = OddScore | RealScore | ScoreDifference

  function FieldOf(e: ComparisonEntry, f: Field): Option<real> {
    match f
    case OddScore => e.oddScore
    case RealScore => e.realScore
    case ScoreDifference => e.scoreDifference
  }

  /** filter(entry => entry.f !== null).map(entry => entry.f): the non-null
      values of one field, in entry order. */
  function Present(comparisons: seq<ComparisonEntry>, f: Field): (r: seq<real>)
    ensures |r| <= |comparisons|
    decreases |comparisons|
  {
    if comparisons == [] then []
    else
      var init := Present(comparisons[..|comparisons| - 1], f);
      match FieldOf(comparisons[|comparisons| - 1], f)
      case None => init
      case Some(v) => init + [v]
  }

  /** Each field is filtered on its own: a value is in the sample exactly
      when some entry carries it in that field, whatever its other fields. */
  lemma {:induction false} PresentMembers(comparisons: seq<ComparisonEntry>, f: Field)
    ensures forall x :: x in Present(comparisons, f) <==>
      exists i :: 0 <= i < |comparisons| && FieldOf(comparisons[i], f) == Some(x)
    decreases |comparisons|
  {
    if comparisons != [] {
      var init := comparisons[..|comparisons| - 1];
      PresentMembers(init, f);
      forall x ensures x in Present(comparisons, f) <==>
        exists i :: 0 <= i < |comparisons| && FieldOf(comparisons[i], f) == Some(x)
      {
        if x in Present(init, f) {
          var i :| 0 <= i < |init| && FieldOf(init[i], f) == Some(x);
          assert comparisons[i] == init[i];
        }
        if i :| 0 <= i < |comparisons| && FieldOf(comparisons[i], f) == Some(x) {
          if i < |init| {
            assert init[i] == comparisons[i];
          }
        }
      }
    }
  }

  /** The field is null in every entry. */
  predicate AllNull(comparisons: seq<ComparisonEntry>, f: Field) {
    forall i :: 0 <= i < |comparisons| ==> FieldOf(comparisons[i], f).None?
  }

  /** A sample is empty exactly when the field is null in every entry. */
  lemma {:induction false} PresentEmpty(comparisons: seq<ComparisonEntry>, f: Field)
    ensures Present(comparisons, f) == [] <==> AllNull(comparisons, f)
    decreases |comparisons|
  {
    if comparisons != [] {
      var init := comparisons[..|comparisons| - 1];
      PresentEmpty(init, f);
      assert forall i :: 0 <= i < |init| ==> init[i] == comparisons[i];
    }
  }

  /** The sample keeps entry order: filtering a concatenation concatenates
      the samples. */
  lemma {:induction false} PresentConcat(a: seq<ComparisonEntry>, b: seq<ComparisonEntry>, f: Field)
    ensures Present(a + b, f) == Present(a, f) + Present(b, f)
    decreases |b|
  {
    if b == [] {
      assert a + b == a;
    } else {
      PresentConcat(a, b[..|b| - 1], f);
      assert (a + b)[..|a + b| - 1] == a + b[..|b| - 1];
    }
  }

  datatype StatsError = EmptySample

  /** The mean and stdev of one non-empty sample; a single value has stdev 0
      (calculateStdev is not called). */
  function Describe(sample: seq<real>, sqrt: real -> real): (r: StatisticsResult)
    requires |sample| > 0
  {
    StatisticsResult(Mean(sample), if |sample| > 1 then Stdev(sample, sqrt) else 0.0)
  }

  /** The summary lies inside the sample's range; a single value is its own
      mean with no spread; and the stdev is non-negative whenever sqrt is on
      the variance. */
  lemma DescribeFacts(sample: seq<real>, sqrt: real -> real, lo: real, hi: real)
    requires |sample| > 0
    requires forall i :: 0 <= i < |sample| ==> lo <= sample[i] <= hi
    ensures lo <= Describe(sample, sqrt).mean <= hi
    ensures |sample| == 1 ==> Describe(sample, sqrt) == StatisticsResult(sample[0], 0.0)
    ensures (forall v: real :: v >= 0.0 ==> sqrt(v) >= 0.0) ==> Describe(sample, sqrt).stdev >= 0.0
  {
    MeanAtLeast(sample, lo);
    MeanAtMost(sample, hi);
    VarianceNonNegative(sample);
    if |sample| == 1 {
      VarianceOfConstant(sample);
    }
  }

  /** calculateStatistics: fails when any of the three samples is empty;
      otherwise summarises each sample on its own. */
  function CalculateStatistics(comparisons: seq<ComparisonEntry>, sqrt: real -> real): (r: Result<CalculatedStatistics, StatsError>)
    ensures r.Failure? <==> (Present(comparisons, OddScore) == [] || Present(comparisons, RealScore) == []
      || Present(comparisons, ScoreDifference) == [])
  {
    var oddScores := Present(comparisons, OddScore);
    var realScores := Present(comparisons, RealScore);
    var scoreDifferences := Present(comparisons, ScoreDifference);
    if |oddScores| == 0 || |realScores| == 0 || |scoreDifferences| == 0 then Failure(EmptySample)
    else Success(CalculatedStatistics(Describe(oddScores, sqrt), Describe(realScores, sqrt), Describe(scoreDifferences, sqrt)))
  }

  /** The statistics fail exactly when some field is null in every entry
      (in particular when there are no entries). */
  lemma StatisticsFailIff(comparisons: seq<ComparisonEntry>, sqrt: real -> real)
    ensures CalculateStatistics(comparisons, sqrt).Failure? <==> exists f :: AllNull(comparisons, f)
  {
    PresentEmpty(comparisons, OddScore);
    PresentEmpty(comparisons, RealScore);
    PresentEmpty(comparisons, ScoreDifference);
    if exists f :: AllNull(comparisons, f) {
      var f :| AllNull(comparisons, f);
      PresentEmpty(comparisons, f);
    }
  }

  lemma PresentOne(e: ComparisonEntry, f: Field)
    ensures Present([e], f) == if FieldOf(e, f).Some? then [FieldOf(e, f).value] else []
  {
    assert [e][..0] == [];
  }

  lemma DescribeOne(x: real, sqrt: real -> real)
    ensures Describe([x], sqrt) == StatisticsResult(x, 0.0)
  {
    DescribeFacts([x], sqrt, x, x);
  }

  /** One complete entry: each mean is the entry's value and each stdev 0. */
  lemma StatisticsOfOne(e: ComparisonEntry, sqrt: real -> real)
    requires e.oddScore.Some? && e.realScore.Some? && e.scoreDifference.Some?
    ensures CalculateStatistics([e], sqrt) == Success(CalculatedStatistics(
      StatisticsResult(e.oddScore.value, 0.0),
      StatisticsResult(e.realScore.value, 0.0),
      StatisticsResult(e.scoreDifference.value, 0.0)))
  {
    PresentOne(e, OddScore);
    PresentOne(e, RealScore);
    PresentOne(e, ScoreDifference);
    DescribeOne(e.oddScore.value, sqrt);
    DescribeOne(e.realScore.value, sqrt);
    DescribeOne(e.scoreDifference.value, sqrt);
  }

  // ------------------------------------------------------------------
  // calculateZScore, calculateProbabilities
  // ------------------------------------------------------------------

  /** calculateZScore: how many stdevs the opening line lies from the mean.
      The source divides without a guard; a zero stdev is excluded here. */
  function ZScore(openingBet: real, mean: real, stdev: real): (z: real)
    requires stdev != 0.0
    ensures mean + z * stdev == openingBet
  {
    (openingBet - mean) / stdev
  }

  /** Math.SQRT2, written as the shortest decimal that rounds to that double. */
  const SQRT2: real := 1.4142135623730951

  datatype Probabilities = Probabilities(probBelow: real, probAbove: real)

  /** calculateProbabilities: the normal CDF at z, 0.5 * (1 + erf(z / sqrt 2)),
      and its complement, both in percent. */
  function CalculateProbabilities(zScore: real, erf: real -> real): (p: Probabilities)
    ensures p.probBelow + p.probAbove == 100.0
    ensures p.probBelow == 50.0 * (1.0 + erf(zScore / SQRT2))
  {
    var probBelow := 0.5 * (1.0 + erf(zScore / SQRT2));
    var probAbove := 1.0 - probBelow;
    Probabilities(probBelow * 100.0, probAbove * 100.0)
  }

  /** With erf in [-1, 1] both percentages are in [0, 100]; with erf(0) = 0
      a z-score of 0 splits them evenly. */
  lemma ProbabilityBounds(zScore: real, erf: real -> real)
    ensures -1.0 <= erf(zScore / SQRT2) <= 1.0 ==>
      0.0 <= CalculateProbabilities(zScore, erf).probBelow <= 100.0
      && 0.0 <= CalculateProbabilities(zScore, erf).probAbove <= 100.0
    ensures zScore == 0.0 && erf(0.0) == 0.0 ==> CalculateProbabilities(zScore, erf) == Probabilities(50.0, 50.0)
  {
  }

  // ------------------------------------------------------------------
  // calculateAverageDeviation, estimateTotalScore, evaluateScorePrediction
  // ------------------------------------------------------------------

  /** calculateAverageDeviation: the mean of the score-difference sample. */
  function AverageDeviation(scoreDifference: StatisticsResult): real {
    scoreDifference.mean
  }

  /** estimateTotalScore: the opening line moved by the average of the two
      teams' deviations; the move lies between the two deviations. */
  function EstimateTotalScore(homeAvgDeviation: real, awayAvgDeviation: real, openingOdd: real): (r: real)
    ensures homeAvgDeviation <= awayAvgDeviation ==> openingOdd + homeAvgDeviation <= r <= openingOdd + awayAvgDeviation
    ensures awayAvgDeviation <= homeAvgDeviation ==> openingOdd + awayAvgDeviation <= r <= openingOdd + homeAvgDeviation
    ensures homeAvgDeviation == awayAvgDeviation ==> r == openingOdd + homeAvgDeviation
  {
    openingOdd + (homeAvgDeviation + awayAvgDeviation) / 2.0
  }

  /** The three labels of evaluateScorePrediction. */
  datatype Verdict = Below | Near | Above

  const DefaultThreshold: real := 150.0

  /** evaluateScorePrediction: below when more than 1% under the threshold,
      above when more than 5% over it (the first test wins), near otherwise. */
  function EvaluateScorePrediction(estimatedScore: real, threshold: real := DefaultThreshold): (v: Verdict)
    ensures v == Below <==> estimatedScore < threshold * 0.99
    ensures v == Above <==> !(estimatedScore < threshold * 0.99) && estimatedScore > threshold * 1.05
  {
    if estimatedScore < threshold * 0.99 then Below
    else if estimatedScore > threshold * 1.05 then Above
    else Near
  }

  function Rank(v: Verdict): nat {
    match v
    case Below => 0
    case Near => 1
    case Above => 2
  }

  /** For a non-negative threshold the label never goes down as the estimate
      goes up, and the threshold itself is near. */
  lemma EvaluateMonotone(s1: real, s2: real, threshold: real)
    requires threshold >= 0.0 && s1 <= s2
    ensures Rank(EvaluateScorePrediction(s1, threshold)) <= Rank(EvaluateScorePrediction(s2, threshold))
    ensures EvaluateScorePrediction(threshold, threshold) == Near
  {
  }

  // ------------------------------------------------------------------
  // calculateBet
  // ------------------------------------------------------------------

  /** What calculateBet returns (before the toFixed(2) rounding): the opening
      line, the predicted total and the two percentages. The verdict of
      evaluateScorePrediction is computed but not part of it. */
  datatype BetResult = BetResult(openingBet: real, predictedTotalScore: real, probBelow: real, probAbove: real)

  /** The spread used for the z-score: the average of the two teams'
      real-score stdevs. */
  function CombinedStdev(homeStats: CalculatedStatistics, awayStats: CalculatedStatistics): real {
    (homeStats.realScore.stdev + awayStats.realScore.stdev) / 2.0
  }

  function PredictedTotal(homeStats: CalculatedStatistics, awayStats: CalculatedStatistics, versusStats: CalculatedStatistics): real {
    EstimateTotalScore(AverageDeviation(homeStats.scoreDifference), AverageDeviation(awayStats.scoreDifference), versusStats.oddScore.mean)
  }

  /** calculateBet. */
  function CalculateBet(homeStats: CalculatedStatistics, awayStats: CalculatedStatistics, versusStats: CalculatedStatistics,
                        openingBet: real, erf: real -> real): (r: BetResult)
    requires CombinedStdev(homeStats, awayStats) != 0.0
    ensures r.openingBet == openingBet
    ensures r.predictedTotalScore == versusStats.oddScore.mean
      + (homeStats.scoreDifference.mean + awayStats.scoreDifference.mean) / 2.0
    ensures r.probBelow + r.probAbove == 100.0
    ensures var z := ZScore(openingBet, r.predictedTotalScore, CombinedStdev(homeStats, awayStats));
      r.probBelow == 50.0 * (1.0 + erf(z / SQRT2)) && r.probAbove == 100.0 - r.probBelow
  {
    var combinedStdev := CombinedStdev(homeStats, awayStats);
    var predictedTotalScore := PredictedTotal(homeStats, awayStats, versusStats);
    var zScore := ZScore(openingBet, predictedTotalScore, combinedStdev);
    var p := CalculateProbabilities(zScore, erf);
    var _ := EvaluateScorePrediction(predictedTotalScore, openingBet);
    BetResult(openingBet, predictedTotalScore, p.probBelow, p.probAbove)
  }

  /** An opening line equal to the predicted total is an even split, given
      erf(0) = 0. */
  lemma CalculateBetEven(homeStats: CalculatedStatistics, awayStats: CalculatedStatistics, versusStats: CalculatedStatistics,
                         erf: real -> real)
    requires CombinedStdev(homeStats, awayStats) != 0.0
    requires erf(0.0) == 0.0
    ensures var predicted := PredictedTotal(homeStats, awayStats, versusStats);
      var r := CalculateBet(homeStats, awayStats, versusStats, predicted, erf);
      r.probBelow == 50.0 && r.probAbove == 50.0
  {
    var predicted := PredictedTotal(homeStats, awayStats, versusStats);
    var z := ZScore(predicted, predicted, CombinedStdev(homeStats, awayStats));
    assert z == 0.0;
    ProbabilityBounds(z, erf);
  }
}
