/** Reading the match id out of a match link
    (src/services/parse.service.ts, parseMatchId). */
module ParseIds {
  import opened Wrappers

  // ------------------------------------------------------------------
  // parseMatchId: the regular expression /\/r[h]?\/(\d+)\//
  // ------------------------------------------------------------------

  datatype ParseError = InvalidMatchLink

  predicate IsDigit(c: char) {
    '0' <= c <= '9'
  }

  predicate AllDigits(d: string) {
    forall k :: 0 <= k < |d| ==> IsDigit(d[k])
  }

  /** The length of the maximal run of decimal digits that starts at index i
      (what the greedy `\d+` consumes). */
  function DigitRun(s: string, i: nat): (n: nat)
    requires i <= |s|
    ensures i + n <= |s|
    ensures forall k :: i <= k < i + n ==> IsDigit(s[k])
    ensures i + n < |s| ==> !IsDigit(s[i + n])
    decreases |s| - i
  {
    if i < |s| && IsDigit(s[i]) then 1 + DigitRun(s, i + 1) else 0
  }

  /** A digit run that ends at a non-digit (or at the end) is the maximal one. */
  lemma {:induction false} DigitRunUnique(s: string, i: nat, m: nat)
    requires i + m <= |s|
    requires forall k :: i <= k < i + m ==> IsDigit(s[k])
    requires i + m < |s| ==> !IsDigit(s[i + m])
    ensures DigitRun(s, i) == m
    decreases m
  {
    if m > 0 {
      DigitRunUnique(s, i + 1, m - 1);
    }
  }

  /** s holds the text t at position p. */
  predicate StartsAt(s: string, p: nat, t: string) {
    p + |t| <= |s| && s[p..p + |t|] == t
  }

  /** `(\d+)\/` at index i: the captured digits, if the pattern is there. */
  function DigitsThenSlash(s: string, i: nat): Option<string>
    requires i <= |s|
  {
    var n := DigitRun(s, i);
    if n > 0 && i + n < |s| && s[i + n] == '/' then Some(s[i..i + n]) else None
  }

  /** The capture of the whole pattern when the match starts at position p. */
  function MatchAt(s: string, p: nat): Option<string> {
    if StartsAt(s, p, "/r/") then DigitsThenSlash(s, p + 3)
    else if StartsAt(s, p, "/rh/") then DigitsThenSlash(s, p + 4)
    else None
  }

  /** Declarative reading of the pattern: at position p the link holds
      "/r/" or "/rh/", then the non-empty digit string d, then "/". */
  predicate PatternAt(s: string, p: nat, d: string) {
    && |d| > 0
    && AllDigits(d)
    && (StartsAt(s, p, "/r/" + d + "/") || StartsAt(s, p, "/rh/" + d + "/"))
  }

  lemma StartsAtConcat(s: string, p: nat, a: string, b: string)
    ensures StartsAt(s, p, a + b) <==> StartsAt(s, p, a) && StartsAt(s, p + |a|, b)
  {
    if p + |a| + |b| <= |s| {
      assert s[p..p + |a| + |b|] == s[p..p + |a|] + s[p + |a|..p + |a| + |b|];
      if s[p..p + |a| + |b|] == a + b {
        assert s[p..p + |a|] == (a + b)[..|a|] == a;
        assert s[p + |a|..p + |a| + |b|] == (a + b)[|a|..] == b;
      }
    }
  }

  lemma DigitsThenSlashIs(s: string, i: nat, d: string)
    requires i <= |s|
    ensures DigitsThenSlash(s, i) == Some(d) <==> |d| > 0 && AllDigits(d) && StartsAt(s, i, d + "/")
  {
    var n := DigitRun(s, i);
    StartsAtConcat(s, i, d, "/");
    if |d| > 0 && AllDigits(d) && StartsAt(s, i, d + "/") {
      assert forall k :: 0 <= k < |d| ==> s[i + k] == s[i..i + |d|][k] == d[k];
      assert s[i + |d|] == s[i + |d|..i + |d| + 1][0] == '/';
      DigitRunUnique(s, i, |d|);
    }
    if DigitsThenSlash(s, i) == Some(d) {
      assert forall k :: 0 <= k < |d| ==> d[k] == s[i + k];
      assert s[i + n..i + n + 1] == "/";
    }
  }

  /** The computed capture agrees with the declarative pattern. */
  lemma MatchAtIsPattern(s: string, p: nat, d: string)
    ensures MatchAt(s, p) == Some(d) <==> PatternAt(s, p, d)
  {
    StartsAtConcat(s, p, "/r/", d + "/");
    StartsAtConcat(s, p, "/rh/", d + "/");
    assert "/r/" + d + "/" == "/r/" + (d + "/");
    assert "/rh/" + d + "/" == "/rh/" + (d + "/");
    if StartsAt(s, p, "/rh/") {
      assert s[p + 2] == s[p..p + 4][2] == 'h';
      DigitsThenSlashIs(s, p + 4, d);
    } else if StartsAt(s, p, "/r/") {
      DigitsThenSlashIs(s, p + 3, d);
    }
  }

  /** The leftmost position at or after p where the pattern matches. */
  function FirstMatchFrom(s: string, p: nat): (r: Option<nat>)
    requires p <= |s|
    ensures r.Some? ==> p <= r.value <= |s| && MatchAt(s, r.value).Some?
    ensures r.Some? ==> forall q :: p <= q < r.value ==> MatchAt(s, q).None?
    ensures r.None? ==> forall q :: p <= q <= |s| ==> MatchAt(s, q).None?
    decreases |s| - p
  {
    if MatchAt(s, p).Some? then Some(p)
    else if p == |s| then None
    else FirstMatchFrom(s, p + 1)
  }

  /** parseMatchId: the digits captured by the leftmost match, or the error
      the source throws when the link does not contain the pattern. */
  function ParseMatchId(matchUrl: string): (r: Result<string, ParseError>)
    ensures r.Success? ==> |r.value| > 0 && AllDigits(r.value)
  {
    match FirstMatchFrom(matchUrl, 0)
    case Some(p) => Success(MatchAt(matchUrl, p).value)
    case None => Failure(InvalidMatchLink)
  }

  /** The id returned is the digit string of the leftmost occurrence of
      "/r/<digits>/" or "/rh/<digits>/"; the call fails exactly when the link
      has no such occurrence. */
  lemma ParseMatchIdCorrect(matchUrl: string)
    ensures ParseMatchId(matchUrl).Success? ==>
      exists p :: 0 <= p <= |matchUrl| && PatternAt(matchUrl, p, ParseMatchId(matchUrl).value)
        && forall q: nat, e :: q < p ==> !PatternAt(matchUrl, q, e)
    ensures ParseMatchId(matchUrl).Failure? ==> forall p: nat, e :: !PatternAt(matchUrl, p, e)
  {
    match FirstMatchFrom(matchUrl, 0)
    case Some(p) =>
      MatchAtIsPattern(matchUrl, p, ParseMatchId(matchUrl).value);
      forall q: nat, e | q < p ensures !PatternAt(matchUrl, q, e) {
        MatchAtIsPattern(matchUrl, q, e);
      }
    case None =>
      forall p: nat, e ensures !PatternAt(matchUrl, p, e) {
        MatchAtIsPattern(matchUrl, p, e);
        if p > |matchUrl| {
          assert !StartsAt(matchUrl, p, "/r/" + e + "/");
        }
      }
  }
}
