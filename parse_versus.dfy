/** The head-to-head cohort (src/services/parse.service.ts,
    parseVersusMatches). */
module ParseVersus {
  import opened Models
  import opened ParseCohorts

  // ------------------------------------------------------------------
  // Head to head: parseVersusMatches
  // ------------------------------------------------------------------

  /** The record's two sides are the two teams, in either order. */
  predicate SamePairing(g: MatchData, homeId: string, awayId: string) {
    (g.homeId == homeId && g.awayId == awayId) || (g.homeId == awayId && g.awayId == homeId)
  }

  /** The entries the inner loop adds for one home-list record: one copy of
      it per away-list record with the same match id. */
  function PairsFor(homeGame: MatchData, awayGames: seq<MatchData>, homeId: string, awayId: string): seq<MatchData>
    decreases |awayGames|
  {
    if awayGames == [] then []
    else
      var awayGame := awayGames[|awayGames| - 1];
      PairsFor(homeGame, awayGames[..|awayGames| - 1], homeId, awayId)
        + (if homeGame.matchId == awayGame.matchId && SamePairing(homeGame, homeId, awayId) then [homeGame] else [])
  }

  /** The head-to-head join: home-list order first, then away-list order. */
  function Versus(homeGames: seq<MatchData>, awayGames: seq<MatchData>, homeId: string, awayId: string): seq<MatchData>
    decreases |homeGames|
  {
    if homeGames == [] then []
    else
      Versus(homeGames[..|homeGames| - 1], awayGames, homeId, awayId)
        + PairsFor(homeGames[|homeGames| - 1], awayGames, homeId, awayId)
  }

  /** parseVersusMatches: the nested loops over both teams' histories. */
  method ParseVersusMatches(homeGames: seq<MatchData>, awayGames: seq<MatchData>, homeId: string, awayId: string)
    returns (matchingMatches: seq<MatchData>)
    ensures matchingMatches == Versus(homeGames, awayGames, homeId, awayId)
  {
    matchingMatches := [];
    for i := 0 to |homeGames|
      invariant matchingMatches == Versus(homeGames[..i], awayGames, homeId, awayId)
    {
      var homeGame := homeGames[i];
      ghost var before := matchingMatches;
      for j := 0 to |awayGames|
        invariant matchingMatches == before + PairsFor(homeGame, awayGames[..j], homeId, awayId)
      {
        var awayGame := awayGames[j];
        assert awayGames[..j + 1][..j] == awayGames[..j];
        if homeGame.matchId == awayGame.matchId
          && ((homeGame.homeId == homeId && homeGame.awayId == awayId)
              || (homeGame.homeId == awayId && homeGame.awayId == homeId))
        {
          matchingMatches := matchingMatches + [homeGame];
        }
      }
      assert awayGames[..|awayGames|] == awayGames;
      assert homeGames[..i + 1][..i] == homeGames[..i];
    }
    assert homeGames[..|homeGames|] == homeGames;
  }

  /** For one home-list record the join emits that record, once per away-list
      record sharing its match id, provided its sides are the two teams. */
  lemma {:induction false} PairsForCount(homeGame: MatchData, awayGames: seq<MatchData>, homeId: string, awayId: string)
    ensures forall x :: x in PairsFor(homeGame, awayGames, homeId, awayId) ==> x == homeGame
    ensures |PairsFor(homeGame, awayGames, homeId, awayId)|
         == if SamePairing(homeGame, homeId, awayId) then |Keep(awayGames, MatchIdIs(homeGame.matchId))| else 0
    decreases |awayGames|
  {
    if awayGames != [] {
      PairsForCount(homeGame, awayGames[..|awayGames| - 1], homeId, awayId);
    }
  }

  /** The match ids of a list of records. */
  function MatchIds(games: seq<MatchData>): set<string> {
    set g | g in games :: g.matchId
  }

  lemma {:induction false} PairsForMembers(homeGame: MatchData, awayGames: seq<MatchData>, homeId: string, awayId: string)
    ensures homeGame in PairsFor(homeGame, awayGames, homeId, awayId)
        <==> SamePairing(homeGame, homeId, awayId) && homeGame.matchId in MatchIds(awayGames)
    ensures forall x :: x in PairsFor(homeGame, awayGames, homeId, awayId) ==> x == homeGame
    decreases |awayGames|
  {
    if awayGames != [] {
      var init, last := awayGames[..|awayGames| - 1], awayGames[|awayGames| - 1];
      PairsForMembers(homeGame, init, homeId, awayId);
      assert awayGames == init + [last];
      assert MatchIds(awayGames) == MatchIds(init) + {last.matchId};
    }
  }

  /** Every head-to-head entry is a home-list record, with the two teams as
      its sides, whose match id also occurs in the away list; and every such
      record is in the output. */
  lemma {:induction false} VersusMembers(homeGames: seq<MatchData>, awayGames: seq<MatchData>, homeId: string, awayId: string)
    ensures forall x :: x in Versus(homeGames, awayGames, homeId, awayId) <==>
      (x in homeGames && SamePairing(x, homeId, awayId) && x.matchId in MatchIds(awayGames))
    decreases |homeGames|
  {
    if homeGames != [] {
      var init, last := homeGames[..|homeGames| - 1], homeGames[|homeGames| - 1];
      VersusMembers(init, awayGames, homeId, awayId);
      PairsForMembers(last, awayGames, homeId, awayId);
      assert homeGames == init + [last];
    }
  }

  /** Histories agree on each match: records with the same id name the same
      sides (as two reports of one real match do). */
  predicate ConsistentSides(homeGames: seq<MatchData>, awayGames: seq<MatchData>, homeId: string, awayId: string) {
    forall h, a :: h in homeGames && a in awayGames && h.matchId == a.matchId
      ==> (SamePairing(h, homeId, awayId) <==> SamePairing(a, homeId, awayId))
  }

  /** VersusMembers for one record x. */
  lemma VersusMember(homeGames: seq<MatchData>, awayGames: seq<MatchData>, homeId: string, awayId: string, x: MatchData)
    ensures x in Versus(homeGames, awayGames, homeId, awayId) <==>
      (x in homeGames && SamePairing(x, homeId, awayId) && x.matchId in MatchIds(awayGames))
  {
    VersusMembers(homeGames, awayGames, homeId, awayId);
  }

  /** One half of the symmetry: every head-to-head id is found again with the
      lists and the teams swapped. */
  lemma VersusIdsIncluded(homeGames: seq<MatchData>, awayGames: seq<MatchData>, homeId: string, awayId: string)
    requires ConsistentSides(homeGames, awayGames, homeId, awayId)
    ensures MatchIds(Versus(homeGames, awayGames, homeId, awayId)) <= MatchIds(Versus(awayGames, homeGames, awayId, homeId))
  {
    var left, right := Versus(homeGames, awayGames, homeId, awayId), Versus(awayGames, homeGames, awayId, homeId);
    forall id | id in MatchIds(left) ensures id in MatchIds(right) {
      var h :| h in left && h.matchId == id;
      VersusMember(homeGames, awayGames, homeId, awayId, h);
      var a :| a in awayGames && a.matchId == h.matchId;
      assert SamePairing(a, homeId, awayId);
      assert h.matchId in MatchIds(homeGames);
      VersusMember(awayGames, homeGames, awayId, homeId, a);
      assert a in right;
    }
  }

  /** The head-to-head cohort does not depend on which team's history is
      scanned first: swapping the lists and the teams gives the same set of
      match ids, when the histories agree on each match's sides. */
  lemma VersusSymmetric(homeGames: seq<MatchData>, awayGames: seq<MatchData>, homeId: string, awayId: string)
    requires ConsistentSides(homeGames, awayGames, homeId, awayId)
    ensures MatchIds(Versus(homeGames, awayGames, homeId, awayId)) == MatchIds(Versus(awayGames, homeGames, awayId, homeId))
  {
    VersusIdsIncluded(homeGames, awayGames, homeId, awayId);
    assert ConsistentSides(awayGames, homeGames, awayId, homeId);
    VersusIdsIncluded(awayGames, homeGames, awayId, homeId);
  }
}
