# bet_bot statistics pipeline — a Dafny model

bet_bot predicts the total score of a basketball match. The prediction uses three cohorts of past matches:
- the home team's home games;
- the away team's away games;
- the head-to-head games.

For each cohort, the trailing N games count. Each game is paired with its opening total line, and the cohort is reduced to means and standard deviations. The three summaries then give a predicted total and over/under percentages against the current opening line.

This project models the data handling of that pipeline and proves what each stage promises. All of it verifies.

The modules follow the source files:

| module | models |
|---|---|
| `Wrappers` | `Option` and `Result` |
| `Models` | the records of `src/models/match.ts` and `src/models/statistics.ts`, plus the odds quote (`Bet`) |
| `ParseIds` | `parseMatchId` |
| `ParseScores` | `formatMatch`, `formatMatches` |
| `ParseCohorts` | `parseHomeAtHomeMatches`, `parseAwayAtAwayMatches` |
| `ParseVersus` | `parseVersusMatches` |
| `ParseRecent` | `getRecentMatches`: an in-place stable sort on an `array`, then a slice |
| `Common` | `firstBet`, `calculateMean`, `calculateStdev` |
| `Fetch` | `openingOdds`, `getFirstBet` |
| `Calculate` | `calculateStatistics`, z-score, probabilities, estimate, verdict, `calculateBet` |
| `Pipeline` | how the controller chains the stages: opening-odds entries into `calculateStatistics`, statistics into `calculateBet` |

Several things the source takes from outside are parameters instead:
- the odds request (`fetchOdds`);
- `Math.sqrt` and mathjs `erf`;
- the match lists that were loaded from JSON files.

Some representation choices:
- `parseFloat` and `parseInt` readings are `Option` values, where `None` stands for NaN.
- A match time is an integer timestamp.

Behaviour of the code worth noting, which the model follows:
- **`openingOdds` picks the first parseable quote in list order**, not the earliest one by `add_time` (`src/services/fetch.service.ts:143-150`). `getFirstBet` does take the earliest quote. `Fetch.OpeningOddsNotEarliest` gives two quotes on which the two functions read different lines.
- **`calculateMean` of an empty list is NaN in the code.** The model's `Mean` requires a non-empty sample. Every call in the pipeline is guarded by the empty-sample check of `calculateStatistics`.
- **A negative average score difference cannot come out of the pipeline.** The differences are absolute values, so their means are never negative. A prediction below the head-to-head line is therefore impossible. `Pipeline.PredictionAtLeastVersusLine` proves this.
- **Swapping the two team ids does not give a symmetric head-to-head list in general.** The entries are copied from the first team's history. The set of match ids is symmetric when both histories agree on each shared match's sides (`ParseVersus.ConsistentSides`).

## Model

| member | source | states |
|---|---|---|
| ParseIds.DigitRun | src/services/parse.service.ts:11 | the greedy `\d+` run at a position: every character in it is a digit and the next one is not |
| ParseIds.DigitRunUnique | src/services/parse.service.ts:11 | any maximal digit run starting at i has exactly the length DigitRun gives |
| ParseIds.DigitsThenSlashIs | src/services/parse.service.ts:11 | the digits-then-slash step succeeds with d iff d is a non-empty digit string followed by "/" at that position |
| ParseIds.MatchAtIsPattern | src/services/parse.service.ts:11 | the match attempt at position p yields d iff "/r/" or "/rh/", then d, then "/" occurs at p |
| ParseIds.FirstMatchFrom | src/services/parse.service.ts:11 | the scan returns the first position with a match, and no position before it matches; None means no position matches |
| ParseIds.ParseMatchId | src/services/parse.service.ts:10-18 | the id returned is a non-empty string of decimal digits; the error case is the thrown Error (its leftmost-match property is ParseMatchIdCorrect) |
| ParseIds.ParseMatchIdCorrect | src/services/parse.service.ts:10-18 | on success, the id is the digit run of the leftmost `/r/<digits>/` or `/rh/<digits>/` occurrence; the call fails exactly when no occurrence exists |
| ParseScores.Split | src/services/parse.service.ts:125 | `split('-')` always yields at least one part (split and join are inverse, by JoinSplit and SplitJoin) |
| ParseScores.ParseInt | src/services/parse.service.ts:125 | parseInt(s, 10): an optional sign, then the leading digit run; NaN (None) when no digit follows; ShowParses reads every decimal rendering back |
| ParseScores.JoinSplit | src/services/parse.service.ts:125 | splitting on '-' loses nothing: joining the parts back gives the string, and no part contains '-' |
| ParseScores.SplitJoin | src/services/parse.service.ts:125 | splitting the join of separator-free parts gives those parts back |
| ParseScores.SumParts | src/services/parse.service.ts:125 | the reduce of parseInt over the parts is a number exactly when every part parses |
| ParseScores.FormatTotal | src/services/parse.service.ts:125 | the total is present iff `ss` is present, non-empty and every '-'-separated part parses |
| ParseScores.FormatTotalOfScore | src/services/parse.service.ts:125 | the total of the score "h-a" is h + a |
| ParseScores.ShowParses | src/services/parse.service.ts:125 | parseInt reads the decimal rendering of n back as n |
| ParseScores.FormatMatch | src/services/parse.service.ts:124-135 | the id, time, team ids and names are copied from the raw record, and the total is its FormatTotal |
| ParseScores.FormatMatches | src/services/parse.service.ts:112-121 | same length as the input, and each output is formatMatch of the input at the same index |
| ParseCohorts.Keep | src/services/parse.service.ts:34-35 | a filter is never longer than its input |
| ParseCohorts.KeepCounts | src/services/parse.service.ts:34-35 | a game is kept iff it is in the input and satisfies the criterion; a kept game occurs as often as in the input, any other game does not occur |
| ParseCohorts.KeepConcat | src/services/parse.service.ts:34-35 | filtering a concatenation is the concatenation of the filtered parts, so the input order is kept |
| ParseCohorts.KeepAll | src/services/parse.service.ts:34-35 | when every game satisfies the criterion, the filter returns the input unchanged |
| ParseCohorts.HomeAtHome | src/services/parse.service.ts:34-44 | the home cohort holds exactly the games with homeId == teamId, each as often as in the history, records unchanged |
| ParseCohorts.AwayAtAway | src/services/parse.service.ts:51-61 | the away cohort holds exactly the games with awayId == teamId, each as often as in the history, records unchanged |
| ParseCohorts.CohortsKeepOrder | src/services/parse.service.ts:34-61 | filtering two concatenated histories gives the two filtered halves in order |
| ParseVersus.ParseVersusMatches | src/services/parse.service.ts:67-108 | the nested loops emit exactly the Versus join: for each home-list game in order, one copy per away-list game with its matchId, when its sides are the two teams in either order |
| ParseVersus.Versus | src/services/parse.service.ts:73-105 | the reference join the loops are proved equal to: per home-list game in order, its inner-loop output; its members are characterised by VersusMembers |
| ParseVersus.PairsFor | src/services/parse.service.ts:79-103 | the inner loop's output for one home-list game; counted by PairsForCount |
| ParseVersus.PairsForCount | src/services/parse.service.ts:79-103 | the inner loop emits only copies of the home-list game, as many as there are away-list games with its matchId, and none when its sides do not match |
| ParseVersus.PairsForMembers | src/services/parse.service.ts:79-103 | the inner loop emits the home-list game iff its sides match and its matchId occurs in the away list |
| ParseVersus.VersusMembers | src/services/parse.service.ts:86-101 | a record is in the head-to-head list iff it is a home-list record whose sides are the two teams and whose matchId occurs in the away list |
| ParseVersus.VersusMember | src/services/parse.service.ts:86-101 | the same membership characterisation for one record |
| ParseVersus.VersusIdsIncluded | src/services/parse.service.ts:86-92 | if the histories agree on the sides of shared matches, every head-to-head id is also found with the team ids swapped |
| ParseVersus.VersusSymmetric | src/services/parse.service.ts:86-92 | under that agreement, the set of head-to-head match ids does not depend on which team is named first |
| ParseRecent.SortByTime | src/services/parse.service.ts:22-26 | the reference newest-first order, of the same length as the input; sorted, a permutation and stable by SortByTimeSorts and SortByTimeStable |
| ParseRecent.Insert | src/services/parse.service.ts:22-26 | insertion after every record of equal or later time, one longer than its input |
| ParseRecent.InsertAt | src/services/parse.service.ts:22-26 | inserting x at its slot keeps the prefix before it and shifts the rest by one |
| ParseRecent.InsertPosSplits | src/services/parse.service.ts:22-26 | in a newest-first list, everything before x's slot is at least as new as x and everything after it strictly older |
| ParseRecent.InsertKeepsOrder | src/services/parse.service.ts:22-26 | inserting into a newest-first list keeps it newest-first |
| ParseRecent.InsertAdds | src/services/parse.service.ts:22-26 | inserting adds exactly x to the multiset |
| ParseRecent.SortByTimeSorts | src/services/parse.service.ts:22-26 | the sort yields a non-increasing matchTime order and a permutation of the input |
| ParseRecent.KeepInsert | src/services/parse.service.ts:22-26 | inserting x after every game of equal or later time appends it to the games of its own time |
| ParseRecent.SortByTimeStable | src/services/parse.service.ts:22 | the sort is stable: the games of any one time keep their input order |
| ParseRecent.SliceEnd | src/services/parse.service.ts:28 | the end index of `slice(0, limit)`: the limit capped at the length, and a negative limit counted from the end, floored at 0 |
| ParseRecent.Recent | src/services/parse.service.ts:21-29 | what getRecentMatches returns: the sorted order cut at SliceEnd; its selection properties are RecentSelection |
| ParseRecent.CutNewestFirst | src/services/parse.service.ts:28 | a prefix of a newest-first list is newest-first, the prefix and the rest together make up the list's multiset, and nothing after the cut is newer than anything before it |
| ParseRecent.RecentSelection | src/services/parse.service.ts:21-29 | for limit >= 0: min(limit, n) games, newest first; together with the games cut off they make up the input's multiset; no game cut off is newer than a game kept |
| ParseRecent.FindInsertPos | src/services/parse.service.ts:22-26 | the forward scan finds the slot where Insert puts x |
| ParseRecent.ShiftedIsInsert | src/services/parse.service.ts:22-26 | a shifted array with x at the slot is the inserted sequence |
| ParseRecent.InsertLast | src/services/parse.service.ts:22-26 | one insertion step: the sorted prefix plus the next element becomes Insert of them, and the rest of the array is untouched |
| ParseRecent.SortNewestFirst | src/services/parse.service.ts:22-26 | the array is sorted in place into SortByTime of its old contents |
| ParseRecent.GetRecentMatches | src/services/parse.service.ts:21-29 | the caller's array is left sorted, and the result is the first `limit` games of the sorted order (JavaScript slice semantics) |
| Common.KeepEarlier | src/utils/common.ts:24-28 | one reduce step keeps one of its two quotes: the earlier when both times are readable, the new quote on a tie or when either time is NaN |
| Common.FirstBet | src/utils/common.ts:23-30 | the reduce gives null iff the list is empty; otherwise it gives an element of the list |
| Common.FirstBetEarliest | src/utils/common.ts:24-28 | with every add_time readable, the result has a minimal add_time, and every later element is strictly later: ties go to the last minimal element |
| Common.FirstBetUntimedLast | src/utils/common.ts:25-27 | a last quote whose add_time is NaN wins the final comparison and is returned |
| Common.Sum | src/utils/common.ts:33 | the left fold `(a, b) => a + b` from 0; bounded by SumAtLeast and SumAtMost |
| Common.Mean | src/utils/common.ts:32-35 | calculateMean: the sum divided by the length, on a non-empty sample; bounded by MeanAtLeast and MeanAtMost |
| Common.MeanAtLeast | src/utils/common.ts:32-35 | the sum divided by the length is at least every lower bound of the sample |
| Common.MeanAtMost | src/utils/common.ts:32-35 | the sum divided by the length is at most every upper bound of the sample |
| Common.SquaredDiffs | src/utils/common.ts:38 | the map of squared deviations keeps the length |
| Common.SquaredDiffsNonNegative | src/utils/common.ts:38 | every squared deviation is non-negative |
| Common.Variance | src/utils/common.ts:37-39 | the population variance: the mean of the squared deviations, dividing by N; non-negative by VarianceNonNegative |
| Common.Stdev | src/utils/common.ts:36-41 | calculateStdev: the square root of the population variance, never negative when sqrt is not |
| Common.VarianceNonNegative | src/utils/common.ts:36-41 | the population variance under the square root is never negative |
| Common.VarianceOfConstant | src/utils/common.ts:36-41 | for identical values the mean is that value and the variance is exactly zero |
| Fetch.FirstParseable | src/services/fetch.service.ts:143-150 | the inner loop stops at the first quote at or after `from` whose handicap parses; None means no such quote |
| Fetch.Abs | src/services/fetch.service.ts:158 | Math.abs: non-negative and equal to x or -x |
| Fetch.PairMatch | src/services/fetch.service.ts:122-167 | one iteration adds nothing iff the total is null, the request fails, or no '18_3' quote parses; otherwise the entry carries the match id, the first parseable line in list order, the total, and the absolute difference |
| Fetch.OpeningOdds | src/services/fetch.service.ts:99-172 | the loop returns the entries of the matches, in input order; odds are requested for exactly the matches with a total; teamType has no effect |
| Fetch.OpeningOddsSpec | src/services/fetch.service.ts:119-168 | the reference list the loop is proved equal to: the PairMatch entries in input order |
| Fetch.Lookups | src/services/fetch.service.ts:122-128 | the reference list of odds requests: the ids of the scored matches in input order |
| Fetch.OpeningOddsConcat | src/services/fetch.service.ts:119-168 | the entries of two concatenated lists are the two lists' entries one after the other |
| Fetch.OpeningOddsEntries | src/services/fetch.service.ts:119-168 | never more entries than matches, and every entry is the pairing of some input match |
| Fetch.OpeningOddsEmpty | src/services/fetch.service.ts:119-168 | when no match can be paired, the result is empty |
| Fetch.LookupsConcat | src/services/fetch.service.ts:122-128 | the requests of two concatenated lists are the two lists' requests one after the other |
| Fetch.LookupsSkipUnscored | src/services/fetch.service.ts:122-128 | a match with a null total is skipped before any request; any other match is requested once, by its id |
| Fetch.GetFirstBet | src/services/fetch.service.ts:46-69 | no line iff the request fails, the '18_3' list is empty, or firstBet's quote has no handicap; otherwise the line is parseFloat of firstBet's handicap |
| Fetch.GetFirstBetEarliest | src/services/fetch.service.ts:46-69 | with readable add_times, the line read is that of a quote with the minimal add_time, the last one among ties |
| Fetch.OpeningOddsNotEarliest | src/services/fetch.service.ts:143-150 | on the same two quotes, openingOdds reads 150.5 from the first in list order, while getFirstBet reads 148.0 from the earlier one |
| Calculate.Present | src/services/calculate.service.ts:13-23 | a filtered sample is never longer than the comparisons |
| Calculate.PresentMembers | src/services/calculate.service.ts:13-23 | a value is in a field's sample iff some comparison has that field non-null with that value |
| Calculate.PresentEmpty | src/services/calculate.service.ts:13-23 | a field's sample is empty iff the field is null in every comparison |
| Calculate.PresentConcat | src/services/calculate.service.ts:13-23 | each field is filtered independently and in order, entry by entry |
| Calculate.Describe | src/services/calculate.service.ts:31-38 | one field's statistics: calculateMean of the sample, and stdev 0 for a singleton, calculateStdev otherwise; bounded by DescribeFacts |
| Calculate.DescribeFacts | src/services/calculate.service.ts:31-38 | the mean lies within the sample's bounds; a singleton has its value as mean and stdev 0; the stdev is non-negative when sqrt is |
| Calculate.CalculateStatistics | src/services/calculate.service.ts:12-55 | fails iff one of the three filtered samples is empty |
| Calculate.StatisticsFailIff | src/services/calculate.service.ts:26-28 | fails iff some field is null in every comparison |
| Calculate.StatisticsOfOne | src/services/calculate.service.ts:31-38 | one complete comparison gives its own values as means, with every stdev 0 |
| Calculate.ZScore | src/services/calculate.service.ts:58-60 | the z-score is the number of stdevs between the mean and the opening bet: mean + z * stdev == openingBet |
| Calculate.CalculateProbabilities | src/services/calculate.service.ts:62-66 | the two percentages add to 100, and the lower one is 50 * (1 + erf(z / sqrt 2)) |
| Calculate.ProbabilityBounds | src/services/calculate.service.ts:62-66 | with erf in [-1, 1], both percentages are in [0, 100]; a zero z-score splits 50/50 |
| Calculate.AverageDeviation | src/services/calculate.service.ts:68-70 | a team's average deviation is the mean of its score-difference sample |
| Calculate.EstimateTotalScore | src/services/calculate.service.ts:71-73 | the estimate moves the line by an amount between the two deviations, and by exactly that deviation when they are equal |
| Calculate.EvaluateScorePrediction | src/services/calculate.service.ts:75-83 | Below iff the score is under 0.99 of the threshold; Above iff it is not Below and is over 1.05 of it; Near otherwise |
| Calculate.EvaluateMonotone | src/services/calculate.service.ts:75-83 | for a non-negative threshold, a larger estimate never gets a lower label, and the threshold itself is Near |
| Calculate.CombinedStdev | src/services/calculate.service.ts:98 | the spread for the z-score: the average of the two teams' real-score stdevs |
| Calculate.PredictedTotal | src/services/calculate.service.ts:96-100 | the predicted total: the versus odd mean moved by the two teams' average deviations, as EstimateTotalScore bounds it |
| Calculate.CalculateBet | src/services/calculate.service.ts:85-118 | returns the opening bet; the predicted total is the versus odd mean plus the average of the two mean differences; with z the z-score of the opening bet measured from the prediction in combined stdevs, the under percentage is 50 * (1 + erf(z / sqrt 2)) and the over percentage is 100 minus it |
| Calculate.CalculateBetEven | src/services/calculate.service.ts:96-104 | an opening bet equal to the prediction gives 50/50 |
| Pipeline.ToComparisons | src/controllers/match.controller.ts:84-86 | each opening-odds entry becomes a comparison with all three fields present, in order |
| Pipeline.StatisticsOfOdds | src/controllers/match.controller.ts:84-86 | the statistics of a cohort's entries fail iff the cohort has no entries |
| Pipeline.NoLinesNoStatistics | src/controllers/match.controller.ts:84-86 | when no match of a cohort can be paired, its statistics fail |
| Pipeline.OpeningOddsDifferencesNonNegative | src/services/fetch.service.ts:157-165 | every emitted score difference is non-negative |
| Pipeline.DifferenceSample | src/services/calculate.service.ts:21-23 | the score-difference sample of the entries is their differences, one per entry, in order |
| Pipeline.OddsDifferenceMean | src/services/calculate.service.ts:37 | non-negative differences give a non-negative mean difference |
| Pipeline.DifferenceMeanNonNegative | src/controllers/match.controller.ts:84-86 | a cohort paired by openingOdds has a non-negative mean score difference |
| Pipeline.PredictionAtLeastVersusLine | src/controllers/match.controller.ts:96-101 | with home and away statistics from openingOdds, the predicted total is never below the head-to-head mean line |

## Left out

- HTTP retrieval is not modelled. `matchDetails`, `allMatches` with its pagination, `fetchPage` and `fetchOdds` are calls to the betting API. Only their results enter the model: the match lists, and the lookup `fetchOdds: string -> Option<seq<Bet>>`.
- JSON file caching (`saveToJson`, `loadFromJson`, `deleteFiles`) is filesystem plumbing. The cohort functions take the loaded history as a sequence.
- The controller is not modelled as a whole. The routes, the Express wiring, the request-body validation and the authentication middleware are out. Only its chaining of stages is stated, in `Pipeline`.
- The `Promise.all` concurrency is not modelled. Each stage is sequential, and the model treats every stage so.
- Logging (`console.*`) is dropped, including the `teamType` switch, which only selects a message.
- The `toFixed(2)` rounding of the returned figures is not modelled. `CalculateBet` returns the exact values.
- Floating-point arithmetic is not modelled. The model computes over exact `real`s, and `Math.SQRT2` appears as its decimal expansion.
- `Math.sqrt` and mathjs `erf` are left uninterpreted and passed as function parameters. Only the facts stated as hypotheses are used, such as `erf(0) = 0`, `erf` in [-1, 1] and a non-negative `sqrt`.
- parseFloat is abstracted: a handicap's reading is given as `Option<real>`.
- parseInt is modelled only in part. It takes an optional sign and the leading digit run, with no leading-whitespace skipping.
- `add_time` is likewise given as an already-read `Option<int>`.
- Date parsing is left out: `matchTime` is an integer timestamp. In the source it is the provider's `time` string (`src/models/match.ts:16`, `src/services/parse.service.ts:128`). When `new Date` cannot read it, `getTime()` is NaN, so the comparator (`src/services/parse.service.ts:22-26`) returns NaN, which `Array.prototype.sort` treats as 0. If no time parses, the sort keeps the input order and `getRecentMatches` returns the first `limit` records as loaded. The model does not cover unreadable times.
- ParseScores.FormatTotal: a part that parseInt reads as NaN makes the total None, where `formatMatch` returns the number NaN. The formatted history is saved with `JSON.stringify`, which writes NaN as `null` (`src/services/fetch.service.ts:92-93`, `src/utils/common.ts:12`). Every cohort is read back from that file (`src/services/parse.service.ts:33`, `50`, `68-69`), so every later stage sees `null`, as the model's None does, and `openingOdds` skips the match. Only the in-memory return value of `formatMatches` differs.
- Common.Mean: requires a non-empty sample. The source divides 0 by 0 and yields NaN, but every call in the pipeline is guarded by the empty-sample check.
- Calculate.ZScore: requires a non-zero stdev. The source divides by zero and yields Infinity or NaN; that case is not modelled.
- Calculate.CalculateBet: requires a non-zero combined stdev, for the same reason as ZScore.
- The `typeof … !== 'object'` skips in `parseVersusMatches` are not modelled. The histories are typed sequences of records, so such entries cannot occur.
- The comparator sort `Array.prototype.sort` is modelled by an in-place insertion sort. The model's order is proved newest-first, a permutation and stable, as a stable sort of the source gives. The engine's actual algorithm and its number of comparisons are not modelled.
- ParseRecent.RecentSelection: is stated for `limit >= 0` only. A negative limit, which slices from the end, is modelled by `SliceEnd` and `GetRecentMatches` but not covered by this lemma.
- Common.VarianceOfConstant: proves one direction only. Equal values give variance zero, but "variance zero implies equal values" is not proved.
- The reference formula Var = E[x²] − E[x]² is not proved. It is nonlinear real arithmetic the solver does not settle.
- `evaluateScorePrediction`'s message strings become the three `Verdict` labels. The threshold is kept as a real parameter with default 150.
- The value `calculateBet` computes and then discards is modelled the same way: it is evaluated, and it does not reach the result.
