/** The home-at-home and away-at-away cohorts of a team's history
    (src/services/parse.service.ts). */
module ParseCohorts {
  import opened Models

  // ------------------------------------------------------------------
  // Cohorts: parseHomeAtHomeMatches, parseAwayAtAwayMatches
  // ------------------------------------------------------------------

  /** A condition on a match record that a cohort filter keeps. */
  datatype Criterion =
    | HomeTeamIs(teamId: string)
    | AwayTeamIs(teamId: string)
    | PlayedAt(time: int)
    | MatchIdIs(matchId: string)

  predicate Holds(c: Criterion, g: MatchData) {
    match c
    case HomeTeamIs(t) => g.homeId == t
    case AwayTeamIs(t) => g.awayId == t
    case PlayedAt(t) => g.matchTime == t
    case MatchIdIs(id) => g.matchId == id
  }

  /** Array.prototype.filter: the records that satisfy c, in their order. */
  function Keep(games: seq<MatchData>, c: Criterion): (r: seq<MatchData>)
    ensures |r| <= |games|
    decreases |games|
  {
    if games == [] then []
    else Keep(games[..|games| - 1], c) + (if Holds(c, games[|games| - 1]) then [games[|games| - 1]] else [])
  }

  /** The filter keeps every record that satisfies c, as often as it occurs,
      and nothing else. */
  lemma {:induction false} KeepCounts(games: seq<MatchData>, c: Criterion)
    ensures forall g :: g in Keep(games, c) <==> g in games && Holds(c, g)
    ensures forall g :: multiset(Keep(games, c))[g] == if Holds(c, g) then multiset(games)[g] else 0
    decreases |games|
  {
    if games != [] {
      var init, last := games[..|games| - 1], games[|games| - 1];
      KeepCounts(init, c);
      assert games == init + [last];
      assert multiset(games) == multiset(init) + multiset{last};
    }
  }

  lemma KeepSnoc(s: seq<MatchData>, x: MatchData, c: Criterion)
    ensures Keep(s + [x], c) == Keep(s, c) + (if Holds(c, x) then [x] else [])
  {
    assert (s + [x])[..|s|] == s;
  }

  /** Filtering commutes with concatenation, so it keeps the input order. */
  lemma {:induction false} KeepConcat(a: seq<MatchData>, b: seq<MatchData>, c: Criterion)
    ensures Keep(a + b, c) == Keep(a, c) + Keep(b, c)
    decreases |b|
  {
    if b == [] {
      assert a + b == a;
    } else {
      var init, last := b[..|b| - 1], b[|b| - 1];
      var tail := if Holds(c, last) then [last] else [];
      calc {
        Keep(a + b, c);
        { assert a + b == (a + init) + [last]; }
        Keep((a + init) + [last], c);
        { KeepSnoc(a + init, last, c); }
        Keep(a + init, c) + tail;
        { KeepConcat(a, init, c); }
        (Keep(a, c) + Keep(init, c)) + tail;
        Keep(a, c) + (Keep(init, c) + tail);
        { assert b == init + [last]; KeepSnoc(init, last, c); }
        Keep(a, c) + Keep(b, c);
      }
    }
  }

  /** A filter whose condition every record satisfies keeps everything. */
  lemma {:induction false} KeepAll(games: seq<MatchData>, c: Criterion)
    requires forall i :: 0 <= i < |games| ==> Holds(c, games[i])
    ensures Keep(games, c) == games
    decreases |games|
  {
    if games != [] {
      KeepAll(games[..|games| - 1], c);
    }
  }

  /** A filter that rejects every record keeps nothing. */
  lemma {:induction false} KeepNone(games: seq<MatchData>, c: Criterion)
    requires forall i :: 0 <= i < |games| ==> !Holds(c, games[i])
    ensures Keep(games, c) == []
    decreases |games|
  {
    if games != [] {
      KeepNone(games[..|games| - 1], c);
    }
  }

  /** Filtering a single record. */
  lemma KeepOne(x: MatchData, c: Criterion)
    ensures Keep([x], c) == if Holds(c, x) then [x] else []
  {
    assert [x][..0] == [];
  }

  /** A record the criterion rejects can be spliced in anywhere. */
  lemma KeepSkip(before: seq<MatchData>, x: MatchData, after: seq<MatchData>, c: Criterion)
    requires !Holds(c, x)
    ensures Keep(before + [x] + after, c) == Keep(before + after, c)
  {
    KeepConcat(before + [x], after, c);
    KeepConcat(before, [x], c);
    KeepConcat(before, after, c);
    KeepOne(x, c);
    assert Keep(before, c) + [] == Keep(before, c);
  }

  /** A kept record spliced in before a tail the criterion rejects entirely
      comes last among the kept records. */
  lemma KeepBeforeRejected(before: seq<MatchData>, x: MatchData, after: seq<MatchData>, c: Criterion)
    requires Holds(c, x) && Keep(after, c) == []
    ensures Keep(before + [x] + after, c) == Keep(before + after, c) + [x]
  {
    KeepConcat(before + [x], after, c);
    KeepConcat(before, [x], c);
    KeepConcat(before, after, c);
    KeepOne(x, c);
    assert Keep(before + [x], c) + [] == Keep(before + [x], c);
    assert Keep(before, c) + [] == Keep(before, c);
  }

  /** parseHomeAtHomeMatches: the games the team played at home, each
      record copied unchanged, in history order. */
  function HomeAtHome(allGames: seq<MatchData>, teamId: string): (r: seq<MatchData>)
    ensures forall g :: g in r <==> g in allGames && g.homeId == teamId
    ensures forall g :: multiset(r)[g] == if g.homeId == teamId then multiset(allGames)[g] else 0
  {
    KeepCounts(allGames, HomeTeamIs(teamId));
    Keep(allGames, HomeTeamIs(teamId))
  }

  /** parseAwayAtAwayMatches: the games the team played away, each record
      copied unchanged, in history order. */
  function AwayAtAway(allGames: seq<MatchData>, teamId: string): (r: seq<MatchData>)
    ensures forall g :: g in r <==> g in allGames && g.awayId == teamId
    ensures forall g :: multiset(r)[g] == if g.awayId == teamId then multiset(allGames)[g] else 0
  {
    KeepCounts(allGames, AwayTeamIs(teamId));
    Keep(allGames, AwayTeamIs(teamId))
  }

  /** Both cohorts keep the history's order: filtering a history made of two
      parts gives the filtered parts one after the other. */
  lemma CohortsKeepOrder(a: seq<MatchData>, b: seq<MatchData>, teamId: string)
    ensures HomeAtHome(a + b, teamId) == HomeAtHome(a, teamId) + HomeAtHome(b, teamId)
    ensures AwayAtAway(a + b, teamId) == AwayAtAway(a, teamId) + AwayAtAway(b, teamId)
  {
    KeepConcat(a, b, HomeTeamIs(teamId));
    KeepConcat(a, b, AwayTeamIs(teamId));
  }
}
