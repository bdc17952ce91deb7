/** How the stages meet (src/controllers/match.controller.ts): the opening-odds
    entries of a cohort are handed to calculateStatistics as comparison
    entries, and the three cohorts' statistics feed calculateBet. */
module Pipeline {
  import opened Wrappers
  import opened Models
  import opened Common
  import opened Fetch
  import opened Calculate

  /** An opening-odds entry read as a comparison entry: every field present. */
  function ToComparison(o: OpeningOddData): (e: ComparisonEntry)
    ensures e.oddScore == Some(o.oddScore) && e.realScore == Some(o.realScore)
    ensures e.scoreDifference == Some(o.scoreDifference)
  {
    ComparisonEntry(Some(o.oddScore), Some(o.realScore), Some(o.scoreDifference))
  }

  function ToComparisons(odds: seq<OpeningOddData>): (r: seq<ComparisonEntry>)
    ensures |r| == |odds|
    ensures forall i :: 0 <= i < |odds| ==> r[i] == ToComparison(odds[i])
    decreases |odds|
  {
    if odds == [] then [] else ToComparisons(odds[..|odds| - 1]) + [ToComparison(odds[|odds| - 1])]
  }

  /** The statistics of a cohort's odds fail exactly when no match of the
      cohort was paired with a line. */
  lemma StatisticsOfOdds(odds: seq<OpeningOddData>, sqrt: real -> real)
    ensures CalculateStatistics(ToComparisons(odds), sqrt).Failure? <==> odds == []
  {
    var cs := ToComparisons(odds);
    PresentEmpty(cs, OddScore);
    PresentEmpty(cs, RealScore);
    PresentEmpty(cs, ScoreDifference);
    if odds != [] {
      assert FieldOf(cs[0], OddScore).Some?;
      assert FieldOf(cs[0], RealScore).Some?;
      assert FieldOf(cs[0], ScoreDifference).Some?;
    }
  }

  /** When no match of a cohort gets a line (every odds request fails, say),
      the cohort has no statistics and the prediction cannot be made. */
  lemma NoLinesNoStatistics(ms: seq<MatchData>, fetchOdds: string -> Option<seq<Bet>>, sqrt: real -> real)
    requires forall i :: 0 <= i < |ms| ==> PairMatch(ms[i], fetchOdds).None?
    ensures CalculateStatistics(ToComparisons(OpeningOddsSpec(ms, fetchOdds)), sqrt).Failure?
  {
    OpeningOddsEmpty(ms, fetchOdds);
    StatisticsOfOdds([], sqrt);
  }

  /** Every entry openingOdds emits has a non-negative score difference. */
  lemma OpeningOddsDifferencesNonNegative(ms: seq<MatchData>, fetchOdds: string -> Option<seq<Bet>>)
    ensures forall o :: o in OpeningOddsSpec(ms, fetchOdds) ==> o.scoreDifference >= 0.0
  {
    OpeningOddsEntries(ms, fetchOdds);
    forall o | o in OpeningOddsSpec(ms, fetchOdds) ensures o.scoreDifference >= 0.0 {
      var i :| 0 <= i < |ms| && PairMatch(ms[i], fetchOdds) == Some(o);
    }
  }

  /** No entry is filtered out: the score-difference sample is the entries'
      differences, one per entry, in order. */
  lemma {:induction false} DifferenceSample(odds: seq<OpeningOddData>)
    ensures |Present(ToComparisons(odds), ScoreDifference)| == |odds|
    ensures forall j :: 0 <= j < |odds| ==> Present(ToComparisons(odds), ScoreDifference)[j] == odds[j].scoreDifference
    decreases |odds|
  {
    if odds != [] {
      var init := odds[..|odds| - 1];
      DifferenceSample(init);
      assert ToComparisons(odds)[..|odds| - 1] == ToComparisons(init);
    }
  }

  /** Non-negative differences have a non-negative mean. */
  lemma OddsDifferenceMean(odds: seq<OpeningOddData>, sqrt: real -> real)
    requires forall o :: o in odds ==> o.scoreDifference >= 0.0
    requires CalculateStatistics(ToComparisons(odds), sqrt).Success?
    ensures CalculateStatistics(ToComparisons(odds), sqrt).value.scoreDifference.mean >= 0.0
  {
    var sample := Present(ToComparisons(odds), ScoreDifference);
    DifferenceSample(odds);
    forall j | 0 <= j < |sample| ensures 0.0 <= sample[j] {
      assert odds[j] in odds;
    }
    MeanAtLeast(sample, 0.0);
    assert CalculateStatistics(ToComparisons(odds), sqrt).value.scoreDifference == Describe(sample, sqrt);
  }

  /** The statistics of a cohort paired by openingOdds have a non-negative
      mean score difference. */
  lemma DifferenceMeanNonNegative(ms: seq<MatchData>, fetchOdds: string -> Option<seq<Bet>>, sqrt: real -> real)
    requires CalculateStatistics(ToComparisons(OpeningOddsSpec(ms, fetchOdds)), sqrt).Success?
    ensures CalculateStatistics(ToComparisons(OpeningOddsSpec(ms, fetchOdds)), sqrt).value.scoreDifference.mean >= 0.0
  {
    OpeningOddsDifferencesNonNegative(ms, fetchOdds);
    OddsDifferenceMean(OpeningOddsSpec(ms, fetchOdds), sqrt);
  }

  /** Because the score differences are absolute values, the predicted total
      is never below the head-to-head mean line when the home and away
      statistics come from openingOdds. */
  lemma PredictionAtLeastVersusLine(homeMatches: seq<MatchData>, awayMatches: seq<MatchData>,
                                    versusStats: CalculatedStatistics,
                                    fetchOdds: string -> Option<seq<Bet>>, sqrt: real -> real)
    requires CalculateStatistics(ToComparisons(OpeningOddsSpec(homeMatches, fetchOdds)), sqrt).Success?
    requires CalculateStatistics(ToComparisons(OpeningOddsSpec(awayMatches, fetchOdds)), sqrt).Success?
    ensures var home := CalculateStatistics(ToComparisons(OpeningOddsSpec(homeMatches, fetchOdds)), sqrt).value;
      var away := CalculateStatistics(ToComparisons(OpeningOddsSpec(awayMatches, fetchOdds)), sqrt).value;
      PredictedTotal(home, away, versusStats) >= versusStats.oddScore.mean
  {
    DifferenceMeanNonNegative(homeMatches, fetchOdds, sqrt);
    DifferenceMeanNonNegative(awayMatches, fetchOdds, sqrt);
  }
}
