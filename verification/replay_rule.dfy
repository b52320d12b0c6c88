/** What the live rule means, said without its division: in closes, their number and their total. */
module RuleLaws {
  import opened Basics
  import opened Replay
  import opened ReplayTheorems

  /** The last close lies above the average of the window by more than the threshold. */
  predicate RisesBeyond(prices: seq<real>, threshold: int)
    requires prices != []
  {
    var n, last, total := |prices| as real, prices[|prices| - 1], Sum(prices);
    10000.0 * (n * last - total) > threshold as real * total
  }

  /** The last close lies below it by more than the threshold. */
  predicate FallsBeyond(prices: seq<real>, threshold: int)
    requires prices != []
  {
    var n, last, total := |prices| as real, prices[|prices| - 1], Sum(prices);
    10000.0 * (total - n * last) > threshold as real * total
  }

  lemma Ordered(a: real, b: real, k: real)
    requires k > 0.0
    ensures a > b <==> a * k > b * k
  {
    if a > b {
      assert (a - b) * k > 0.0;
    } else {
      assert (b - a) * k >= 0.0;
    }
  }

  /** Multiplying the distance by the mean and by the number of closes clears both fractions. */
  lemma Cleared(last: real, total: real, n: real, t: real)
    requires total > 0.0 && n > 0.0
    ensures total / n > 0.0
    ensures var distance := (last / (total / n) - 1.0) * 10000.0;
      && (distance > t <==> 10000.0 * (n * last - total) > t * total)
      && (distance < -t <==> 10000.0 * (total - n * last) > t * total)
  {
    var mean := total / n;
    assert mean * n == total;
    Ordered(mean, 0.0, n);
    var ratio := last / mean;
    assert ratio * mean == last;
    var distance := (ratio - 1.0) * 10000.0;
    assert ratio * total == ratio * mean * n == last * n;
    assert distance * total == 10000.0 * (ratio * total - total) == 10000.0 * (n * last - total);
    Ordered(distance, t, total);
    Ordered(-distance, t, total);
    assert -distance * total == 10000.0 * (total - n * last);
  }

  /** Momentum is long exactly on a rise beyond the threshold, mean reversion exactly on a fall beyond it. */
  lemma TargetMeans(prices: seq<real>, threshold: int)
    requires |prices| >= 2 && AllPositive(prices)
    ensures Target(prices, Momentum, threshold) == Success(if RisesBeyond(prices, threshold) then 1.0 else 0.0)
    ensures Target(prices, MeanReversion, threshold) == Success(if FallsBeyond(prices, threshold) then 1.0 else 0.0)
  {
    SumPositive(prices);
    Cleared(prices[|prices| - 1], Sum(prices), |prices| as real, threshold as real);
  }

  lemma {:induction false} SumBetween(prices: seq<real>, bound: real)
    ensures (forall i :: 0 <= i < |prices| ==> prices[i] >= bound) ==> Sum(prices) >= bound * |prices| as real
    ensures (forall i :: 0 <= i < |prices| ==> prices[i] <= bound) ==> Sum(prices) <= bound * |prices| as real
  {
    if prices != [] {
      SumBetween(prices[..|prices| - 1], bound);
    }
  }

  /** Only a real move counts: something earlier in the window was lower, or higher, than the last close. */
  lemma LongNeedsAMove(prices: seq<real>, threshold: int)
    requires |prices| >= 2 && AllPositive(prices) && threshold >= 0
    ensures Target(prices, Momentum, threshold) == Success(1.0) ==>
      exists i :: 0 <= i < |prices| - 1 && prices[i] < prices[|prices| - 1]
    ensures Target(prices, MeanReversion, threshold) == Success(1.0) ==>
      exists i :: 0 <= i < |prices| - 1 && prices[i] > prices[|prices| - 1]
  {
    var last, total := prices[|prices| - 1], Sum(prices);
    TargetMeans(prices, threshold);
    SumPositive(prices);
    SumBetween(prices, last);
    assert threshold as real * total >= 0.0;
  }

  /** The two candidates never want the share at once. */
  lemma NeverBothLong(prices: seq<real>, threshold: int)
    requires |prices| >= 2 && AllPositive(prices) && threshold >= 0
    ensures !(Target(prices, Momentum, threshold) == Success(1.0)
              && Target(prices, MeanReversion, threshold) == Success(1.0))
  {
    TargetMeans(prices, threshold);
    SumPositive(prices);
    assert threshold as real * Sum(prices) >= 0.0;
  }

  function Times(prices: seq<real>, k: real): (scaled: seq<real>)
    ensures |scaled| == |prices| && forall i :: 0 <= i < |prices| ==> scaled[i] == k * prices[i]
  {
    seq(|prices|, i requires 0 <= i < |prices| => k * prices[i])
  }

  lemma TimesInit(prices: seq<real>, k: real)
    requires prices != []
    ensures Times(prices, k)[..|prices| - 1] == Times(prices[..|prices| - 1], k)
  {
    forall i | 0 <= i < |prices| - 1 ensures Times(prices, k)[i] == Times(prices[..|prices| - 1], k)[i] {
      assert prices[..|prices| - 1][i] == prices[i];
    }
  }

  lemma {:induction false} SumTimes(prices: seq<real>, k: real)
    ensures Sum(Times(prices, k)) == k * Sum(prices)
  {
    if prices != [] {
      TimesInit(prices, k);
      var init, last := prices[..|prices| - 1], prices[|prices| - 1];
      SumTimes(init, k);
      assert Sum(Times(prices, k)) == Sum(Times(init, k)) + k * last;
      assert k * Sum(init) + k * last == k * (Sum(init) + last);
    }
  }

  lemma SamePositive(prices: seq<real>, k: real)
    requires k > 0.0
    ensures AllPositive(Times(prices, k)) <==> AllPositive(prices)
  {
    if !AllPositive(prices) {
      var i :| 0 <= i < |prices| && prices[i] <= 0.0;
      Ordered(prices[i], 0.0, k);
      assert Times(prices, k)[i] <= 0.0;
    }
    if !AllPositive(Times(prices, k)) {
      var i :| 0 <= i < |prices| && Times(prices, k)[i] <= 0.0;
      Ordered(prices[i], 0.0, k);
      assert prices[i] <= 0.0;
    }
  }

  lemma SameMove(prices: seq<real>, threshold: int, k: real)
    requires k > 0.0 && prices != []
    ensures RisesBeyond(Times(prices, k), threshold) == RisesBeyond(prices, threshold)
    ensures FallsBeyond(Times(prices, k), threshold) == FallsBeyond(prices, threshold)
  {
    hide Sum;
    SumTimes(prices, k);
    var n, last, total, t := |prices| as real, prices[|prices| - 1], Sum(prices), threshold as real;
    assert 10000.0 * (n * (k * last) - k * total) == 10000.0 * (n * last - total) * k;
    assert t * (k * total) == t * total * k;
    Ordered(10000.0 * (n * last - total), t * total, k);
    Ordered(10000.0 * (total - n * last), t * total, k);
  }

  /** The rule does not see the currency: scaling every price changes nothing. */
  lemma ScaleFree(prices: seq<real>, candidate: Candidate, threshold: int, k: real)
    requires k > 0.0
    ensures Target(Times(prices, k), candidate, threshold) == Target(prices, candidate, threshold)
  {
    hide AllPositive, RisesBeyond, FallsBeyond;
    SamePositive(prices, k);
    if |prices| >= 2 && AllPositive(prices) {
      TargetMeans(prices, threshold);
      TargetMeans(Times(prices, k), threshold);
      SameMove(prices, threshold, k);
    }
  }

  /** A bar is held exactly when a full gap-free window before it calls for it. */
  lemma HeldMeans(s: Study, i: nat)
    requires s.Valid() && i < |s.bars|
    ensures s.Held(i) == 1.0 <==>
      && s.Warm(i)
      && var closes := Closes(s.bars, i - s.plan.window, i);
         if s.candidate.Momentum? then RisesBeyond(closes, s.plan.thresholdBps)
         else FallsBeyond(closes, s.plan.thresholdBps)
    ensures s.Held(i) == 0.0 || s.Held(i) == 1.0
  {
    hide Target, RisesBeyond, FallsBeyond, Closes;
    if s.Warm(i) {
      WarmIsTarget(s, i);
      ClosesPositive(s.bars, i - s.plan.window, i);
      TargetMeans(Closes(s.bars, i - s.plan.window, i), s.plan.thresholdBps);
    }
  }
}
