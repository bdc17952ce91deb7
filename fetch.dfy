/** Pairing a team's matches with their opening total-points line
    (src/services/fetch.service.ts, openingOdds and getFirstBet). The odds
    request is a parameter: `fetchOdds(matchId)` is None when the request
    fails or does not answer 200, and otherwise the match's '18_3' quotes
    (the empty list when the market is missing). */
module Fetch {
  import opened Wrappers
  import opened Models
  import opened Common

  /** `parseFloat(bet.handicap)` when it is not NaN; a missing handicap reads
      as NaN. */
  function HandicapValue(b: Bet): Option<real> {
    match b.handicap
    case NoHandicap => None
    case Handicap(parsed) => parsed
  }

  /** No quote of the list has a readable handicap. */
  predicate NoParseable(bets: seq<Bet>) {
    forall j :: 0 <= j < |bets| ==> HandicapValue(bets[j]).None?
  }

  /** The index of the first quote, in list order, whose handicap parses. */
  function FirstParseable(bets: seq<Bet>, from: nat): (r: Option<nat>)
    requires from <= |bets|
    ensures r.Some? ==> (from <= r.value < |bets| && HandicapValue(bets[r.value]).Some?
      && forall j :: from <= j < r.value ==> HandicapValue(bets[j]).None?)
    ensures r.None? ==> forall j :: from <= j < |bets| ==> HandicapValue(bets[j]).None?
    decreases |bets| - from
  {
    if from == |bets| then None
    else if HandicapValue(bets[from]).Some? then Some(from)
    else FirstParseable(bets, from + 1)
  }

  function Abs(x: real): (r: real)
    ensures r >= 0.0 && (r == x || r == -x)
  {
    if x < 0.0 then -x else x
  }

  /** The entry emitted for a match of total `total` whose opening line is
      `odd`. */
  function Entry(m: MatchData, odd: real, total: int): OpeningOddData {
    OpeningOddData(m.matchId, odd, total as real, Abs(odd - total as real))
  }

  /** What one iteration of the openingOdds loop contributes: nothing when the
      match has no total, when the odds request fails, when there are no
      '18_3' quotes or when no quote's handicap parses; otherwise the entry
      built from the first quote, in list order, whose handicap parses. */
  function PairMatch(m: MatchData, fetchOdds: string -> Option<seq<Bet>>): (r: Option<OpeningOddData>)
    ensures r.None? <==> m.totalScore.None? || fetchOdds(m.matchId).None? || NoParseable(fetchOdds(m.matchId).value)
    ensures r.Some? ==>
      var bets := fetchOdds(m.matchId).value;
      var k := FirstParseable(bets, 0).value;
      && r.value.matchId == m.matchId
      && Some(r.value.oddScore) == HandicapValue(bets[k])
      && r.value.realScore == m.totalScore.value as real
      && r.value.scoreDifference >= 0.0
      && (r.value.scoreDifference == r.value.oddScore - r.value.realScore
          || r.value.scoreDifference == r.value.realScore - r.value.oddScore)
  {
    if m.totalScore.None? then None
    else
      match fetchOdds(m.matchId)
      case None => None
      case Some(bets) =>
        if |bets| == 0 then None
        else
          match FirstParseable(bets, 0)
          case None => None
          case Some(k) => Some(Entry(m, HandicapValue(bets[k]).value, m.totalScore.value))
  }

  /** The list openingOdds returns: the contributions of the matches, in
      input order. */
  function OpeningOddsSpec(ms: seq<MatchData>, fetchOdds: string -> Option<seq<Bet>>): seq<OpeningOddData>
    decreases |ms|
  {
    if ms == [] then []
    else
      var init := OpeningOddsSpec(ms[..|ms| - 1], fetchOdds);
      match PairMatch(ms[|ms| - 1], fetchOdds)
      case None => init
      case Some(e) => init + [e]
  }

  /** The match ids the loop requests odds for, in order: exactly the matches
      that have a total. */
  function Lookups(ms: seq<MatchData>): seq<string>
    decreases |ms|
  {
    if ms == [] then []
    else Lookups(ms[..|ms| - 1]) + (if ms[|ms| - 1].totalScore.Some? then [ms[|ms| - 1].matchId] else [])
  }

  /** openingOdds. `teamType` only selects a log line, so nothing in the
      result depends on it; `queried` records the odds requests made. */
  method OpeningOdds(allMatches: seq<MatchData>, teamType: TeamType, fetchOdds: string -> Option<seq<Bet>>)
    returns (allOpeningBets: seq<OpeningOddData>, ghost queried: seq<string>)
    ensures allOpeningBets == OpeningOddsSpec(allMatches, fetchOdds)
    ensures queried == Lookups(allMatches)
  {
    allOpeningBets, queried := [], [];
    for i := 0 to |allMatches|
      invariant allOpeningBets == OpeningOddsSpec(allMatches[..i], fetchOdds)
      invariant queried == Lookups(allMatches[..i])
    {
      var m := allMatches[i];
      assert allMatches[..i + 1][..i] == allMatches[..i];
      if m.totalScore.None? {
        continue;
      }
      queried := queried + [m.matchId];
      var response := fetchOdds(m.matchId);
      if response.None? {
        continue;
      }
      var allTotalPointBets := response.value;
      if |allTotalPointBets| == 0 {
        continue;
      }
      var validBet: Option<Bet> := None;
      var k := 0;
      while k < |allTotalPointBets|
        invariant 0 <= k <= |allTotalPointBets|
        invariant validBet.None?
        invariant forall j :: 0 <= j < k ==> HandicapValue(allTotalPointBets[j]).None?
      {
        if HandicapValue(allTotalPointBets[k]).Some? {
          validBet := Some(allTotalPointBets[k]);
          break;
        }
        k := k + 1;
      }
      if validBet.None? {
        continue;
      }
      assert FirstParseable(allTotalPointBets, 0) == Some(k);
      var oddScore := HandicapValue(validBet.value).value;
      var difference := Abs(oddScore - m.totalScore.value as real);
      var data := OpeningOddData(m.matchId, oddScore, m.totalScore.value as real, difference);
      allOpeningBets := allOpeningBets + [data];
    }
    assert allMatches[..|allMatches|] == allMatches;
  }

  /** The output follows the input: the result for a concatenation is the
      concatenation of the results. */
  lemma {:induction false} OpeningOddsConcat(a: seq<MatchData>, b: seq<MatchData>, fetchOdds: string -> Option<seq<Bet>>)
    ensures OpeningOddsSpec(a + b, fetchOdds) == OpeningOddsSpec(a, fetchOdds) + OpeningOddsSpec(b, fetchOdds)
    decreases |b|
  {
    if b == [] {
      assert a + b == a;
    } else {
      var init := b[..|b| - 1];
      OpeningOddsConcat(a, init, fetchOdds);
      assert (a + b)[..|a + b| - 1] == a + init;
      assert (a + b)[|a + b| - 1] == b[|b| - 1];
    }
  }

  /** At most one entry per match, and every entry is the contribution of
      some input match. */
  lemma {:induction false} OpeningOddsEntries(ms: seq<MatchData>, fetchOdds: string -> Option<seq<Bet>>)
    ensures |OpeningOddsSpec(ms, fetchOdds)| <= |ms|
    ensures forall e :: e in OpeningOddsSpec(ms, fetchOdds) ==>
      exists i :: 0 <= i < |ms| && PairMatch(ms[i], fetchOdds) == Some(e)
    decreases |ms|
  {
    if ms != [] {
      var init := ms[..|ms| - 1];
      OpeningOddsEntries(init, fetchOdds);
      forall e | e in OpeningOddsSpec(ms, fetchOdds)
        ensures exists i :: 0 <= i < |ms| && PairMatch(ms[i], fetchOdds) == Some(e)
      {
        if e in OpeningOddsSpec(init, fetchOdds) {
          var i :| 0 <= i < |init| && PairMatch(init[i], fetchOdds) == Some(e);
          assert ms[i] == init[i];
        } else {
          assert PairMatch(ms[|ms| - 1], fetchOdds) == Some(e);
        }
      }
    }
  }

  /** When no match contributes (for instance when every odds request
      fails), the result is empty. */
  lemma {:induction false} OpeningOddsEmpty(ms: seq<MatchData>, fetchOdds: string -> Option<seq<Bet>>)
    requires forall i :: 0 <= i < |ms| ==> PairMatch(ms[i], fetchOdds).None?
    ensures OpeningOddsSpec(ms, fetchOdds) == []
    decreases |ms|
  {
    if ms != [] {
      var init := ms[..|ms| - 1];
      assert forall i :: 0 <= i < |init| ==> init[i] == ms[i];
      OpeningOddsEmpty(init, fetchOdds);
    }
  }

  /** A match without a total is never looked up, and the lookups follow the
      input order. */
  lemma {:induction false} LookupsConcat(a: seq<MatchData>, b: seq<MatchData>)
    ensures Lookups(a + b) == Lookups(a) + Lookups(b)
    decreases |b|
  {
    if b == [] {
      assert a + b == a;
    } else {
      var init := b[..|b| - 1];
      LookupsConcat(a, init);
      assert (a + b)[..|a + b| - 1] == a + init;
    }
  }

  lemma {:induction false} LookupsSkipUnscored(m: MatchData)
    ensures Lookups([m]) == if m.totalScore.None? then [] else [m.matchId]
  {
    assert [m][..0] == [];
  }

  // ------------------------------------------------------------------
  // getFirstBet
  // ------------------------------------------------------------------

  /** What getFirstBet returns: null, NaN, or a number. */
  datatype OpeningLine = NoLine | NotANumber | Line(value: real)

  /** getFirstBet: the handicap of the firstBet quote, read with parseFloat;
      null when the request fails, when there are no '18_3' quotes or when
      that quote has no handicap. */
  function GetFirstBet(matchId: string, fetchOdds: string -> Option<seq<Bet>>): (r: OpeningLine)
    ensures r.NoLine? <==> (fetchOdds(matchId).None? || |fetchOdds(matchId).value| == 0
      || FirstBet(fetchOdds(matchId).value).value.handicap.NoHandicap?)
    ensures r.Line? ==> HandicapValue(FirstBet(fetchOdds(matchId).value).value) == Some(r.value)
    ensures r.NotANumber? ==> HandicapValue(FirstBet(fetchOdds(matchId).value).value).None?
  {
    match fetchOdds(matchId)
    case None => NoLine
    case Some(bets) =>
      if |bets| == 0 then NoLine
      else
        var first := FirstBet(bets).value;
        match first.handicap
        case NoHandicap => NoLine
        case Handicap(parsed) => if parsed.None? then NotANumber else Line(parsed.value)
  }

  /** When every quote has a readable add_time, getFirstBet reads the quote
      with the smallest add_time (the last such quote on ties). */
  lemma GetFirstBetEarliest(matchId: string, fetchOdds: string -> Option<seq<Bet>>)
    requires fetchOdds(matchId).Some? && |fetchOdds(matchId).value| > 0
    requires AllTimed(fetchOdds(matchId).value)
    requires GetFirstBet(matchId, fetchOdds).Line?
    ensures var bets := fetchOdds(matchId).value;
      exists k :: 0 <= k < |bets| && HandicapValue(bets[k]) == Some(GetFirstBet(matchId, fetchOdds).value)
        && (forall i :: 0 <= i < |bets| ==> bets[k].addTime.value <= bets[i].addTime.value)
        && (forall i :: k < i < |bets| ==> bets[k].addTime.value < bets[i].addTime.value)
  {
    var k := FirstBetEarliest(fetchOdds(matchId).value);
  }

  /** openingOdds and getFirstBet can read different lines off the same
      quotes: openingOdds takes the first readable quote in list order,
      getFirstBet the earliest by add_time. */
  lemma OpeningOddsNotEarliest()
    ensures var bets := [Bet(Handicap(Some(150.5)), Some(200)), Bet(Handicap(Some(148.0)), Some(100))];
      var fetchOdds := (id: string) => Some(bets);
      var m := MatchData("1", "10", "A", "20", "B", 0, Some(150));
      && PairMatch(m, fetchOdds).value.oddScore == 150.5
      && GetFirstBet("1", fetchOdds) == Line(148.0)
  {
    var bets := [Bet(Handicap(Some(150.5)), Some(200)), Bet(Handicap(Some(148.0)), Some(100))];
    assert bets[..1] == [bets[0]];
    assert [bets[0]][..0] == [];
    assert FirstBet(bets) == Some(bets[1]);
    assert FirstParseable(bets, 0) == Some(0);
  }
}
