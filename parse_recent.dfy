/** The most recent matches, newest first (src/services/parse.service.ts,
    getRecentMatches). */
module ParseRecent {
  import opened Models
  import opened ParseCohorts

  // ------------------------------------------------------------------
  // getRecentMatches: stable sort by time, newest first, then slice
  // ------------------------------------------------------------------

  /** Newest first: times never increase along the sequence. */
  predicate NewestFirst(s: seq<MatchData>) {
    forall i, j :: 0 <= i < j < |s| ==> s[i].matchTime >= s[j].matchTime
  }

  /** Where a stable sort puts a new record x into the already sorted
      sequence: after every record at least as recent as x. */
  function InsertPos(sorted: seq<MatchData>, x: MatchData): (k: nat)
    ensures k <= |sorted|
  {
    if sorted == [] || sorted[0].matchTime < x.matchTime then 0
    else 1 + InsertPos(sorted[1..], x)
  }

  function Insert(sorted: seq<MatchData>, x: MatchData): (r: seq<MatchData>)
    ensures |r| == |sorted| + 1
  {
    var k := InsertPos(sorted, x);
    sorted[..k] + [x] + sorted[k..]
  }

  /** The order Array.prototype.sort with comparator (a, b) => b.time - a.time
      produces: each record is inserted, in input order, after the records
      already placed that are at least as recent. */
  function SortByTime(s: seq<MatchData>): (r: seq<MatchData>)
    ensures |r| == |s|
    decreases |s|
  {
    if s == [] then [] else Insert(SortByTime(s[..|s| - 1]), s[|s| - 1])
  }

  /** Element by element: the records before the insertion point, x, then
      the records after it. */
  lemma InsertAt(sorted: seq<MatchData>, x: MatchData)
    ensures forall i :: 0 <= i < InsertPos(sorted, x) ==> Insert(sorted, x)[i] == sorted[i]
    ensures Insert(sorted, x)[InsertPos(sorted, x)] == x
    ensures forall i :: InsertPos(sorted, x) < i <= |sorted| ==> Insert(sorted, x)[i] == sorted[i - 1]
  {
  }

  lemma {:induction false} InsertPosSplits(sorted: seq<MatchData>, x: MatchData)
    requires NewestFirst(sorted)
    ensures forall i :: 0 <= i < InsertPos(sorted, x) ==> sorted[i].matchTime >= x.matchTime
    ensures forall i :: InsertPos(sorted, x) <= i < |sorted| ==> sorted[i].matchTime < x.matchTime
    decreases |sorted|
  {
    if sorted != [] && sorted[0].matchTime >= x.matchTime {
      InsertPosSplits(sorted[1..], x);
    }
  }

  lemma InsertKeepsOrder(sorted: seq<MatchData>, x: MatchData)
    requires NewestFirst(sorted)
    ensures NewestFirst(Insert(sorted, x))
  {
    var k := InsertPos(sorted, x);
    InsertPosSplits(sorted, x);
    InsertAt(sorted, x);
    var r := Insert(sorted, x);
    forall i, j | 0 <= i < j < |r| ensures r[i].matchTime >= r[j].matchTime {
      var ti := if i < k then sorted[i].matchTime else if i == k then x.matchTime else sorted[i - 1].matchTime;
      var tj := if j < k then sorted[j].matchTime else if j == k then x.matchTime else sorted[j - 1].matchTime;
      assert r[i].matchTime == ti && r[j].matchTime == tj;
    }
  }

  lemma InsertAdds(sorted: seq<MatchData>, x: MatchData)
    ensures multiset(Insert(sorted, x)) == multiset(sorted) + multiset{x}
  {
    var k := InsertPos(sorted, x);
    assert sorted == sorted[..k] + sorted[k..];
  }

  /** The sort yields the input records, newest first. */
  lemma {:induction false} SortByTimeSorts(s: seq<MatchData>)
    ensures NewestFirst(SortByTime(s))
    ensures multiset(SortByTime(s)) == multiset(s)
    decreases |s|
  {
    if s != [] {
      var init := s[..|s| - 1];
      SortByTimeSorts(init);
      InsertKeepsOrder(SortByTime(init), s[|s| - 1]);
      InsertAdds(SortByTime(init), s[|s| - 1]);
      assert s == init + [s[|s| - 1]];
    }
  }

  /** Inserting x adds it at the end of the records of its own time and
      leaves the records of every other time as they were. */
  lemma KeepInsert(sorted: seq<MatchData>, x: MatchData, t: int)
    requires NewestFirst(sorted)
    ensures Keep(Insert(sorted, x), PlayedAt(t)) == Keep(sorted, PlayedAt(t)) + (if x.matchTime == t then [x] else [])
  {
    var k := InsertPos(sorted, x);
    var before, after := sorted[..k], sorted[k..];
    var c := PlayedAt(t);
    assert sorted == before + after;
    if x.matchTime == t {
      OlderTailRejected(sorted, x);
      KeepBeforeRejected(before, x, after, c);
    } else {
      KeepSkip(before, x, after, c);
      assert Keep(sorted, c) + [] == Keep(sorted, c);
    }
  }

  /** Nothing after x's slot in a newest-first sequence has x's time. */
  lemma OlderTailRejected(sorted: seq<MatchData>, x: MatchData)
    requires NewestFirst(sorted)
    ensures Keep(sorted[InsertPos(sorted, x)..], PlayedAt(x.matchTime)) == []
  {
    var k := InsertPos(sorted, x);
    var after := sorted[k..];
    InsertPosSplits(sorted, x);
    forall i | 0 <= i < |after| ensures !Holds(PlayedAt(x.matchTime), after[i]) {
      assert after[i] == sorted[k + i];
    }
    KeepNone(after, PlayedAt(x.matchTime));
  }

  /** The sort is stable: the records of any one time keep the relative
      order they had in the input. */
  lemma {:induction false} SortByTimeStable(s: seq<MatchData>, t: int)
    ensures Keep(SortByTime(s), PlayedAt(t)) == Keep(s, PlayedAt(t))
    decreases |s|
  {
    if s != [] {
      var init := s[..|s| - 1];
      SortByTimeStable(init, t);
      SortByTimeSorts(init);
      KeepInsert(SortByTime(init), s[|s| - 1], t);
    }
  }

  /** The end index of Array.prototype.slice(0, limit) on n elements
      (a negative limit counts from the end). */
  function SliceEnd(n: nat, limit: int): nat {
    if limit < 0 then (if n + limit < 0 then 0 else n + limit)
    else if limit < n then limit
    else n
  }

  /** What getRecentMatches returns for the input order s. */
  function Recent(s: seq<MatchData>, limit: int): seq<MatchData> {
    SortByTime(s)[..SliceEnd(|s|, limit)]
  }

  /** Cutting a newest-first sequence anywhere splits its multiset in two and
      leaves nothing in the tail more recent than anything in the head. */
  lemma CutNewestFirst(sorted: seq<MatchData>, e: nat)
    requires NewestFirst(sorted) && e <= |sorted|
    ensures NewestFirst(sorted[..e])
    ensures multiset(sorted[..e]) + multiset(sorted[e..]) == multiset(sorted)
    ensures forall x, y :: x in sorted[..e] && y in sorted[e..] ==> y.matchTime <= x.matchTime
  {
    assert sorted == sorted[..e] + sorted[e..];
    forall x, y | x in sorted[..e] && y in sorted[e..] ensures y.matchTime <= x.matchTime {
      var i :| 0 <= i < e && sorted[i] == x;
      var j :| 0 <= j < |sorted| - e && sorted[e..][j] == y;
      assert sorted[e + j] == y;
    }
  }

  /** The most recent `limit` matches: exactly min(limit, |s|) of them, newest
      first, drawn from the input, and no match left out is more recent than
      one that was kept. */
  lemma RecentSelection(s: seq<MatchData>, limit: int)
    requires limit >= 0
    ensures |Recent(s, limit)| == if limit < |s| then limit else |s|
    ensures NewestFirst(Recent(s, limit))
    ensures multiset(Recent(s, limit)) + multiset(SortByTime(s)[SliceEnd(|s|, limit)..]) == multiset(s)
    ensures forall x, y :: x in Recent(s, limit) && y in SortByTime(s)[SliceEnd(|s|, limit)..] ==> y.matchTime <= x.matchTime
  {
    SortByTimeSorts(s);
    var sorted, e := SortByTime(s), SliceEnd(|s|, limit);
    assert e == if limit < |s| then limit else |s|;
    assert Recent(s, limit) == sorted[..e];
    CutNewestFirst(sorted, e);
  }

  /** Where a[i] goes among a[..i]: past every leading record at least as
      recent. */
  method FindInsertPos(a: array<MatchData>, i: nat, x: MatchData) returns (k: nat)
    requires i <= a.Length
    ensures k == InsertPos(a[..i], x)
  {
    k := 0;
    while k < i && a[k].matchTime >= x.matchTime
      invariant k <= i
      invariant InsertPos(a[..i], x) == k + InsertPos(a[..i][k..], x)
    {
      assert a[..i][k..][1..] == a[..i][k + 1..];
      k := k + 1;
    }
  }

  /** One step of the insertion sort: finds the place of a[i] in a[..i]
      and moves the records after that place up by one. */
  method InsertLast(a: array<MatchData>, i: nat)
    requires i < a.Length
    modifies a
    ensures a[..i + 1] == Insert(old(a[..i]), old(a[i]))
    ensures a[i + 1..] == old(a[i + 1..])
  {
    ghost var sorted := a[..i];
    var x := a[i];
    var k := FindInsertPos(a, i, x);
    var j := i;
    while j > k
      invariant k <= j <= i
      invariant forall m :: 0 <= m < j ==> a[m] == sorted[m]
      invariant forall m :: j < m <= i ==> a[m] == sorted[m - 1]
      invariant a[i + 1..] == old(a[i + 1..])
    {
      a[j] := a[j - 1];
      j := j - 1;
    }
    a[j] := x;
    ShiftedIsInsert(a[..i + 1], sorted, x, j);
  }

  /** The array contents after the shifting loop: the records before the
      insertion point, x, then the rest moved up by one. */
  lemma ShiftedIsInsert(b: seq<MatchData>, sorted: seq<MatchData>, x: MatchData, j: nat)
    requires j == InsertPos(sorted, x) && |b| == |sorted| + 1
    requires forall k :: 0 <= k < j ==> b[k] == sorted[k]
    requires b[j] == x
    requires forall k :: j < k < |b| ==> b[k] == sorted[k - 1]
    ensures b == Insert(sorted, x)
  {
    InsertAt(sorted, x);
  }

  /** Sorts the array in place, newest first, stably (insertion sort). */
  method SortNewestFirst(a: array<MatchData>)
    modifies a
    ensures a[..] == SortByTime(old(a[..]))
  {
    ghost var input := a[..];
    var i := 0;
    while i < a.Length
      invariant 0 <= i <= a.Length
      invariant a[..i] == SortByTime(input[..i])
      invariant a[i..] == input[i..]
    {
      assert a[i] == a[i..][0] == input[i];
      InsertLast(a, i);
      assert input[..i + 1][..i] == input[..i];
      i := i + 1;
    }
    assert input[..a.Length] == input;
  }

  /** getRecentMatches: reorders the caller's array in place and returns
      its first `limit` entries. */
  method GetRecentMatches(matches: array<MatchData>, limit: int) returns (recent: seq<MatchData>)
    modifies matches
    ensures matches[..] == SortByTime(old(matches[..]))
    ensures recent == Recent(old(matches[..]), limit)
  {
    SortNewestFirst(matches);
    recent := matches[..SliceEnd(matches.Length, limit)];
  }
}
