/** The records the statistics pipeline passes between its stages
    (src/models/match.ts, src/models/statistics.ts), plus the betting-odds
    quote returned by the odds provider. */
module Models {
  import opened Wrappers

  /** A formatted match of a team's history. `matchTime` is the match's
      timestamp; `totalScore` is None when the provider gave no score. */
  datatype MatchData = MatchData(
    matchId: string,
    homeId: string,
    homeName: string,
    awayId: string,
    awayName: string,
    matchTime: int,
    totalScore: Option<int>)

  /** A match paired with its opening total-score line. */
  datatype OpeningOddData = OpeningOddData(
    matchId: string,
    oddScore: real,
    realScore: real,
    scoreDifference: real)

  /** Which cohort a list of matches belongs to. */
  datatype TeamType = Home | Away | Versus

  /** One observation handed to the statistics stage; every field may be null. */
  datatype ComparisonEntry = ComparisonEntry(
    oddScore: Option<real>,
    realScore: Option<real>,
    scoreDifference: Option<real>)

  datatype StatisticsResult = StatisticsResult(mean: real, stdev: real)

  datatype CalculatedStatistics = CalculatedStatistics(
    oddScore: StatisticsResult,
    realScore: StatisticsResult,
    scoreDifference: StatisticsResult)

  /** The `handicap` field of a quote: missing (undefined or null), or a text
      whose `parseFloat` reading is `parsed` (None when it reads as NaN). */
  datatype Handicap = NoHandicap | Handicap(parsed: Option<real>)

  /** One quote of the '18_3' (total points) market. `addTime` is the
      `parseInt` reading of its `add_time` field, None when that is NaN. */
  datatype Bet = Bet(handicap: Handicap, addTime: Option<int>)
}
