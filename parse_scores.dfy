/** Turning the provider's ended-event records into MatchData
    (src/services/parse.service.ts, formatMatch / formatMatches). */
module ParseScores {
  import opened Wrappers
  import opened Models
  import opened ParseIds

  // ------------------------------------------------------------------
  // formatMatch / formatMatches: the total of a score string "78-72"
  // ------------------------------------------------------------------

  /** A match record as the provider's ended-events listing returns it; `ss`
      is the score string ("78-72"), None when absent. */
  datatype RawMatch = RawMatch(
    id: string,
    time: int,
    homeId: string,
    homeName: string,
    awayId: string,
    awayName: string,
    ss: Option<string>)

  /** String.prototype.split with a one-character separator. */
  function Split(s: string, sep: char): (parts: seq<string>)
    ensures |parts| >= 1
    decreases |s|
  {
    if s == [] then [""]
    else
      var rest := Split(s[1..], sep);
      if s[0] == sep then [""] + rest else [[s[0]] + rest[0]] + rest[1..]
  }

  /** Array.prototype.join with a one-character separator. */
  function Join(parts: seq<string>, sep: char): string
    requires |parts| >= 1
  {
    if |parts| == 1 then parts[0] else parts[0] + [sep] + Join(parts[1..], sep)
  }

  /** Split cuts the text at every separator: joining the pieces back gives
      the text, and no piece holds the separator. */
  lemma {:induction false} JoinSplit(s: string, sep: char)
    ensures Join(Split(s, sep), sep) == s
    ensures forall k :: 0 <= k < |Split(s, sep)| ==> sep !in Split(s, sep)[k]
    decreases |s|
  {
    if s != [] {
      JoinSplit(s[1..], sep);
      var rest := Split(s[1..], sep);
      if s[0] == sep {
        assert Split(s, sep)[1..] == rest;
      } else {
        var parts := Split(s, sep);
        assert parts[0] == [s[0]] + rest[0];
        if |rest| == 1 {
          assert Join(parts, sep) == [s[0]] + rest[0];
        } else {
          assert parts[1..] == rest[1..];
          assert Join(parts, sep) == [s[0]] + rest[0] + [sep] + Join(rest[1..], sep);
        }
        assert s == [s[0]] + s[1..];
        forall k | 0 <= k < |parts| ensures sep !in parts[k] {
          if k > 0 {
            assert parts[k] == rest[k];
          }
        }
      }
    }
  }

  lemma {:induction false} SplitNoSeparator(x: string, sep: char)
    requires sep !in x
    ensures Split(x, sep) == [x]
    decreases |x|
  {
    if x != [] {
      SplitNoSeparator(x[1..], sep);
      assert x == [x[0]] + x[1..];
    }
  }

  lemma {:induction false} SplitAtSeparator(x: string, y: string, sep: char)
    requires sep !in x
    ensures Split(x + [sep] + y, sep) == [x] + Split(y, sep)
    decreases |x|
  {
    var s := x + [sep] + y;
    if x == [] {
      assert s[1..] == y;
    } else {
      assert s[1..] == x[1..] + [sep] + y;
      SplitAtSeparator(x[1..], y, sep);
      assert x == [x[0]] + x[1..];
    }
  }

  /** Split undoes Join when no piece holds the separator. */
  lemma {:induction false} SplitJoin(parts: seq<string>, sep: char)
    requires |parts| >= 1
    requires forall k :: 0 <= k < |parts| ==> sep !in parts[k]
    ensures Split(Join(parts, sep), sep) == parts
    decreases |parts|
  {
    if |parts| == 1 {
      SplitNoSeparator(parts[0], sep);
    } else {
      SplitJoin(parts[1..], sep);
      SplitAtSeparator(parts[0], Join(parts[1..], sep), sep);
      assert parts == [parts[0]] + parts[1..];
    }
  }

  /** The value of a string of decimal digits, read left to right. */
  function DigitsValue(d: string): nat
    requires AllDigits(d)
  {
    if d == [] then 0
    else 10 * DigitsValue(d[..|d| - 1]) + (d[|d| - 1] as int - '0' as int)
  }

  /** parseInt(s, 10): an optional sign, then the longest run of digits;
      None (NaN) when no digit follows. */
  function ParseInt(s: string): Option<int> {
    var start := if |s| > 0 && (s[0] == '+' || s[0] == '-') then 1 else 0;
    var n := DigitRun(s, start);
    var magnitude: int := if n == 0 then 0 else DigitsValue(s[start..start + n]);
    if n == 0 then None
    else if start == 1 && s[0] == '-' then Some(-magnitude)
    else Some(magnitude)
  }

  /** Every part reads as a number under parseInt. */
  predicate AllPartsParse(parts: seq<string>) {
    forall k :: 0 <= k < |parts| ==> ParseInt(parts[k]).Some?
  }

  /** The reduce `(sum, score) => sum + parseInt(score, 10)` from 0: None as
      soon as one part reads as NaN. */
  function SumParts(parts: seq<string>): (r: Option<int>)
    ensures r.Some? <==> AllPartsParse(parts)
  {
    if parts == [] then Some(0)
    else
      match (SumParts(parts[..|parts| - 1]), ParseInt(parts[|parts| - 1]))
      case (Some(sum), Some(v)) => Some(sum + v)
      case _ => None
  }

  /** The total score of a score string: None when it is absent or empty,
      otherwise the sum of its '-'-separated parts. */
  function FormatTotal(ss: Option<string>): (total: Option<int>)
    ensures total.Some? <==> ss.Some? && ss.value != "" && AllPartsParse(Split(ss.value, '-'))
  {
    if ss.None? || ss.value == "" then None else SumParts(Split(ss.value, '-'))
  }

  /** formatMatch: copies the identity, time and teams and totals the score. */
  function FormatMatch(m: RawMatch): (r: MatchData)
    ensures r.matchId == m.id && r.matchTime == m.time
    ensures r.homeId == m.homeId && r.homeName == m.homeName
    ensures r.awayId == m.awayId && r.awayName == m.awayName
    ensures r.totalScore == FormatTotal(m.ss)
  {
    MatchData(m.id, m.homeId, m.homeName, m.awayId, m.awayName, m.time, FormatTotal(m.ss))
  }

  /** formatMatches: formats every record, keeping length and order. */
  method FormatMatches(matches: seq<RawMatch>) returns (formattedMatches: seq<MatchData>)
    ensures |formattedMatches| == |matches|
    ensures forall i :: 0 <= i < |matches| ==> formattedMatches[i] == FormatMatch(matches[i])
  {
    formattedMatches := [];
    for i := 0 to |matches|
      invariant |formattedMatches| == i
      invariant forall k :: 0 <= k < i ==> formattedMatches[k] == FormatMatch(matches[k])
    {
      var formattedMatch := FormatMatch(matches[i]);
      formattedMatches := formattedMatches + [formattedMatch];
    }
  }

  /** The decimal text of a natural number, as the provider writes scores. */
  function Show(n: nat): (d: string)
    ensures |d| > 0 && AllDigits(d)
  {
    if n < 10 then [('0' as int + n) as char]
    else Show(n / 10) + [('0' as int + n % 10) as char]
  }

  lemma {:induction false} ShowValue(n: nat)
    ensures DigitsValue(Show(n)) == n
  {
    if n >= 10 {
      ShowValue(n / 10);
      assert Show(n)[..|Show(n)| - 1] == Show(n / 10);
    }
  }

  lemma ShowParses(n: nat)
    ensures ParseInt(Show(n)) == Some(n)
  {
    var d := Show(n);
    assert d[0] != '+' && d[0] != '-' by { assert IsDigit(d[0]); }
    DigitRunUnique(d, 0, |d|);
    assert d[0..|d|] == d;
    ShowValue(n);
  }

  /** A score string "H-A" written by the provider totals to H + A. */
  lemma FormatTotalOfScore(home: nat, away: nat)
    ensures FormatTotal(Some(Show(home) + "-" + Show(away))) == Some(home + away)
  {
    var score := Show(home) + "-" + Show(away);
    var parts := [Show(home), Show(away)];
    assert '-' !in Show(home) by { assert !IsDigit('-'); }
    assert '-' !in Show(away) by { assert !IsDigit('-'); }
    assert Join(parts, '-') == score by {
      assert parts[1..] == [Show(away)];
    }
    SplitJoin(parts, '-');
    ShowParses(home);
    ShowParses(away);
    assert parts[..1] == [Show(home)];
    assert [Show(home)][..0] == [];
    assert SumParts([Show(home)]) == Some(home);
    assert SumParts(parts) == Some(home + away);
    assert score != "";
  }
}
