/** The reductions of src/utils/common.ts: the earliest quote of a list
    (firstBet) and the mean and population standard deviation of a sample. */
module Common {
  import opened Wrappers
  import opened Models

  // ------------------------------------------------------------------
  // firstBet: a reduce that keeps the quote with the smallest add_time
  // ------------------------------------------------------------------

  /** The comparison `parseInt(a) < parseInt(b)`: false as soon as either side
      is NaN. */
  predicate EarlierThan(a: Option<int>, b: Option<int>) {
    a.Some? && b.Some? && a.value < b.value
  }

  /** One step of the reduce: keep the running choice only when it is
      strictly earlier than the next quote; otherwise take the next quote.
      With both times readable the step keeps the earlier one, and on a tie
      the next quote; a NaN time on either side also gives the next quote. */
  function KeepEarlier(minBet: Option<Bet>, bet: Bet): (r: Bet)
    ensures r == bet || (minBet.Some? && r == minBet.value)
    ensures minBet.Some? && minBet.value.addTime.Some? && bet.addTime.Some? ==>
      r.addTime.Some? && r.addTime.value <= minBet.value.addTime.value && r.addTime.value <= bet.addTime.value
    ensures minBet.Some? && minBet.value.addTime == bet.addTime ==> r == bet
    ensures minBet.None? || minBet.value.addTime.None? || bet.addTime.None? ==> r == bet
  {
    if minBet.Some? && EarlierThan(minBet.value.addTime, bet.addTime) then minBet.value else bet
  }

  /** The reduce over the list, starting from null. */
  function FirstBet(bets: seq<Bet>): (r: Option<Bet>)
    ensures r.Some? <==> |bets| > 0
    ensures r.Some? ==> r.value in bets
    decreases |bets|
  {
    if bets == [] then None
    else
      var prior := FirstBet(bets[..|bets| - 1]);
      Some(KeepEarlier(prior, bets[|bets| - 1]))
  }

  /** Every quote carries a readable add_time. */
  predicate AllTimed(bets: seq<Bet>) {
    forall i :: 0 <= i < |bets| ==> bets[i].addTime.Some?
  }

  /** When every add_time is readable, firstBet returns the quote at some
      index k whose add_time is minimal, and, since the comparison is strict,
      k is the LAST index of that time: every quote after it is strictly
      later. */
  lemma {:induction false} FirstBetEarliest(bets: seq<Bet>) returns (k: nat)
    requires |bets| > 0 && AllTimed(bets)
    ensures k < |bets| && FirstBet(bets) == Some(bets[k])
    ensures forall i :: 0 <= i < |bets| ==> bets[k].addTime.value <= bets[i].addTime.value
    ensures forall i :: k < i < |bets| ==> bets[k].addTime.value < bets[i].addTime.value
    decreases |bets|
  {
    var n := |bets|;
    if n == 1 {
      assert bets[..0] == [];
      k := 0;
    } else {
      var init := bets[..n - 1];
      assert AllTimed(init) by {
        assert forall i :: 0 <= i < |init| ==> init[i] == bets[i];
      }
      var j := FirstBetEarliest(init);
      assert init[j] == bets[j];
      if bets[j].addTime.value < bets[n - 1].addTime.value {
        k := j;
      } else {
        k := n - 1;
      }
    }
  }

  /** A quote whose add_time is NaN wins every comparison it is the right-hand
      side of: when the list ends with one, firstBet returns it. */
  lemma FirstBetUntimedLast(bets: seq<Bet>)
    requires |bets| > 0 && bets[|bets| - 1].addTime.None?
    ensures FirstBet(bets) == Some(bets[|bets| - 1])
  {
  }

  // ------------------------------------------------------------------
  // calculateMean / calculateStdev
  // ------------------------------------------------------------------

  /** The reduce (a, b) => a + b from 0, left to right. */
  function Sum(xs: seq<real>): real
    decreases |xs|
  {
    if xs == [] then 0.0 else Sum(xs[..|xs| - 1]) + xs[|xs| - 1]
  }

  /** calculateMean: the sum divided by the length. The length is positive at
      every call the pipeline makes. */
  function Mean(xs: seq<real>): real
    requires |xs| > 0
  {
    Sum(xs) / (|xs| as real)
  }

  /** The map n => Math.pow(n - mean, 2). */
  function SquaredDiffs(xs: seq<real>, mean: real): (r: seq<real>)
    ensures |r| == |xs|
    decreases |xs|
  {
    if xs == [] then []
    else
      var d := xs[|xs| - 1] - mean;
      SquaredDiffs(xs[..|xs| - 1], mean) + [d * d]
  }

  /** The population variance: the mean of the squared deviations from the
      mean, dividing by N (not N - 1). */
  function Variance(xs: seq<real>): real
    requires |xs| > 0
  {
    Mean(SquaredDiffs(xs, Mean(xs)))
  }

  /** calculateStdev, with Math.sqrt given as `sqrt`: never negative when
      sqrt is not. */
  function Stdev(xs: seq<real>, sqrt: real -> real): (r: real)
    requires |xs| > 0
    ensures (forall v: real :: v >= 0.0 ==> sqrt(v) >= 0.0) ==> r >= 0.0
  {
    VarianceNonNegative(xs);
    sqrt(Variance(xs))
  }

  /** A sum of terms that are all at least lo is at least |xs| * lo. */
  lemma {:induction false} SumAtLeast(xs: seq<real>, lo: real)
    requires forall i :: 0 <= i < |xs| ==> lo <= xs[i]
    ensures (|xs| as real) * lo <= Sum(xs)
    decreases |xs|
  {
    if xs != [] {
      var init := xs[..|xs| - 1];
      assert forall i :: 0 <= i < |init| ==> init[i] == xs[i];
      SumAtLeast(init, lo);
      assert (|xs| as real) * lo == (|init| as real) * lo + lo;
    }
  }

  /** A sum of terms that are all at most hi is at most |xs| * hi. */
  lemma {:induction false} SumAtMost(xs: seq<real>, hi: real)
    requires forall i :: 0 <= i < |xs| ==> xs[i] <= hi
    ensures Sum(xs) <= (|xs| as real) * hi
    decreases |xs|
  {
    if xs != [] {
      var init := xs[..|xs| - 1];
      assert forall i :: 0 <= i < |init| ==> init[i] == xs[i];
      SumAtMost(init, hi);
      assert (|xs| as real) * hi == (|init| as real) * hi + hi;
    }
  }

  /** The mean is at least any lower bound of the sample... */
  lemma MeanAtLeast(xs: seq<real>, lo: real)
    requires |xs| > 0
    requires forall i :: 0 <= i < |xs| ==> lo <= xs[i]
    ensures lo <= Mean(xs)
  {
    SumAtLeast(xs, lo);
    var n := |xs| as real;
    assert lo == n * lo / n;
    DivMonotone(n * lo, Sum(xs), n);
  }

  /** ... and at most any upper bound. */
  lemma MeanAtMost(xs: seq<real>, hi: real)
    requires |xs| > 0
    requires forall i :: 0 <= i < |xs| ==> xs[i] <= hi
    ensures Mean(xs) <= hi
  {
    SumAtMost(xs, hi);
    var n := |xs| as real;
    assert hi == n * hi / n;
    DivMonotone(Sum(xs), n * hi, n);
  }

  lemma DivMonotone(a: real, b: real, n: real)
    requires n > 0.0 && a <= b
    ensures a / n <= b / n
  {
    assert b / n - a / n == (b - a) / n;
  }

  lemma DivMul(a: real, n: real)
    requires n > 0.0
    ensures a / n * n == a
  {
  }

  /** A sum of non-negative terms is non-negative. */
  lemma {:induction false} SumNonNegative(xs: seq<real>)
    requires forall i :: 0 <= i < |xs| ==> xs[i] >= 0.0
    ensures Sum(xs) >= 0.0
    decreases |xs|
  {
    if xs != [] {
      var init := xs[..|xs| - 1];
      assert forall i :: 0 <= i < |init| ==> init[i] == xs[i];
      SumNonNegative(init);
    }
  }

  lemma {:induction false} SquaredDiffsAt(xs: seq<real>, m: real)
    ensures forall i :: 0 <= i < |xs| ==> SquaredDiffs(xs, m)[i] == (xs[i] - m) * (xs[i] - m)
    decreases |xs|
  {
    if xs != [] {
      SquaredDiffsAt(xs[..|xs| - 1], m);
    }
  }

  lemma SquareNonNegative(d: real)
    ensures d * d >= 0.0
  {
    if d < 0.0 {
      var e := -d;
      assert e * e == d * d;
    }
  }

  lemma SquaredDiffsNonNegative(xs: seq<real>, m: real)
    ensures forall i :: 0 <= i < |xs| ==> SquaredDiffs(xs, m)[i] >= 0.0
  {
    SquaredDiffsAt(xs, m);
    forall i | 0 <= i < |xs| ensures SquaredDiffs(xs, m)[i] >= 0.0 {
      SquareNonNegative(xs[i] - m);
    }
  }

  /** The variance under the root is never negative. */
  lemma VarianceNonNegative(xs: seq<real>)
    requires |xs| > 0
    ensures Variance(xs) >= 0.0
  {
    var m := Mean(xs);
    SquaredDiffsNonNegative(xs, m);
    SumNonNegative(SquaredDiffs(xs, m));
    DivMonotone(0.0, Sum(SquaredDiffs(xs, m)), |xs| as real);
  }

  /** The sum of a sample of n copies of c. */
  lemma {:induction false} SumConstant(xs: seq<real>, c: real)
    requires forall i :: 0 <= i < |xs| ==> xs[i] == c
    ensures Sum(xs) == (|xs| as real) * c
    decreases |xs|
  {
    if xs != [] {
      var init := xs[..|xs| - 1];
      assert forall i :: 0 <= i < |init| ==> init[i] == xs[i];
      SumConstant(init, c);
    }
  }

  /** A sample of identical values has variance zero. */
  lemma VarianceOfConstant(xs: seq<real>)
    requires |xs| > 0
    requires forall i :: 0 <= i < |xs| ==> xs[i] == xs[0]
    ensures Mean(xs) == xs[0]
    ensures Variance(xs) == 0.0
  {
    var n := |xs| as real;
    SumConstant(xs, xs[0]);
    DivMul(xs[0], n);
    var sq := SquaredDiffs(xs, xs[0]);
    SquaredDiffsAt(xs, xs[0]);
    SumConstant(sq, 0.0);
  }
}
