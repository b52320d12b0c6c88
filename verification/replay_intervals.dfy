/**
 * The moving-block bootstrap around a mean of daily results (interval in
 * signal_foundry/trading/research.py). The generator is an input: the k-th number that a generator
 * seeded with seed draws below bound.
 */
module Intervals {
  import opened Basics
  import opened Replay

  const MIN_DAYS := 20
  const MAX_DAYS := 366
  const BLOCK := 5
  const RESAMPLES := 500

  type Generator = (int, nat, nat) -> nat

  ghost predicate InRange(draw: Generator) {
    forall seed, bound, k :: bound > 0 ==> draw(seed, bound, k) < bound
  }

  function Mean(values: seq<real>): real
    requires values != []
  {
    Sum(values) / |values| as real
  }

  // ----- resampling -----

  /** How many blocks cover a sample. */
  function Blocks(n: nat): nat {
    (n + BLOCK - 1) / BLOCK
  }

  /** The day that day i of the k-th resample repeats. */
  function Source(n: nat, seed: int, draw: Generator, k: nat, i: nat): nat
    requires n >= BLOCK
  {
    draw(seed, n - BLOCK + 1, k * Blocks(n) + i / BLOCK) + i % BLOCK
  }

  function Resample(values: seq<real>, seed: int, draw: Generator, k: nat): (sample: seq<real>)
    requires |values| >= BLOCK && InRange(draw)
    ensures |sample| == |values|
    ensures forall i :: 0 <= i < |sample| ==>
      Source(|values|, seed, draw, k, i) < |values| && sample[i] == values[Source(|values|, seed, draw, k, i)]
  {
    seq(|values|, i requires 0 <= i < |values| =>
      assert Source(|values|, seed, draw, k, i) < |values|;
      values[Source(|values|, seed, draw, k, i)])
  }

  function Means(values: seq<real>, seed: int, draw: Generator, count: nat): (means: seq<real>)
    requires |values| >= BLOCK && InRange(draw)
    ensures |means| == count
    ensures forall k :: 0 <= k < count ==> means[k] == Mean(Resample(values, seed, draw, k))
  {
    seq(count, k requires 0 <= k < count => Mean(Resample(values, seed, draw, k)))
  }

  // ----- order -----

  predicate Ascending(xs: seq<real>) {
    forall i, j :: 0 <= i < j < |xs| ==> xs[i] <= xs[j]
  }

  function Insert(xs: seq<real>, x: real): (ys: seq<real>)
    ensures multiset(ys) == multiset(xs) + multiset{x} && |ys| == |xs| + 1
  {
    if xs == [] || x <= xs[0] then
      assert [x] + xs == [x] + xs && multiset([x] + xs) == multiset{x} + multiset(xs);
      [x] + xs
    else
      assert xs == [xs[0]] + xs[1..];
      [xs[0]] + Insert(xs[1..], x)
  }

  lemma {:induction false} InsertAscends(xs: seq<real>, x: real)
    requires Ascending(xs)
    ensures Ascending(Insert(xs, x))
  {
    var ys := Insert(xs, x);
    if xs != [] && x > xs[0] {
      InsertAscends(xs[1..], x);
      var rest := Insert(xs[1..], x);
      forall j | 0 <= j < |rest| ensures xs[0] <= rest[j] {
        assert rest[j] in multiset(rest);
        assert rest[j] == x || rest[j] in xs[1..];
      }
      assert ys[0] == xs[0] && ys[1..] == rest;
      assert forall i :: 0 < i < |ys| ==> ys[i] == rest[i - 1];
    } else {
      assert forall i :: 0 < i < |ys| ==> ys[i] == xs[i - 1];
    }
  }

  /** list.sort. */
  function Sorted(xs: seq<real>): (ys: seq<real>)
    ensures |ys| == |xs|
  {
    if xs == [] then [] else Insert(Sorted(xs[1..]), xs[0])
  }

  /** The same values in ascending order. */
  lemma {:induction false} SortedIsSorted(xs: seq<real>)
    ensures Ascending(Sorted(xs)) && multiset(Sorted(xs)) == multiset(xs)
  {
    hide Ascending, Insert;
    if xs == [] {
      NoneAscend();
    } else {
      SortedIsSorted(xs[1..]);
      InsertAscends(Sorted(xs[1..]), xs[0]);
      assert xs == [xs[0]] + xs[1..];
    }
  }

  lemma NoneAscend()
    ensures Ascending([])
  {
  }

  /** How many of xs are below, or above, a bound. */
  function Below(xs: seq<real>, bound: real): nat {
    if xs == [] then 0 else (if xs[0] < bound then 1 else 0) + Below(xs[1..], bound)
  }

  function Above(xs: seq<real>, bound: real): (n: nat)
    ensures n <= |xs|
  {
    if xs == [] then 0 else (if xs[0] > bound then 1 else 0) + Above(xs[1..], bound)
  }

  lemma {:induction false} InsertCounts(xs: seq<real>, x: real, bound: real)
    ensures Below(Insert(xs, x), bound) == Below(xs, bound) + (if x < bound then 1 else 0)
    ensures Above(Insert(xs, x), bound) == Above(xs, bound) + (if x > bound then 1 else 0)
  {
    if xs != [] && x > xs[0] {
      InsertCounts(xs[1..], x, bound);
      assert Insert(xs, x)[1..] == Insert(xs[1..], x);
    } else {
      assert ([x] + xs)[1..] == xs;
    }
  }

  lemma {:induction false} SortCounts(xs: seq<real>, bound: real)
    ensures Below(Sorted(xs), bound) == Below(xs, bound) && Above(Sorted(xs), bound) == Above(xs, bound)
  {
    if xs != [] {
      SortCounts(xs[1..], bound);
      InsertCounts(Sorted(xs[1..]), xs[0], bound);
    }
  }

  lemma {:induction false} RankCounts(xs: seq<real>, k: nat, bound: real)
    requires Ascending(xs) && k < |xs|
    ensures bound <= xs[k] ==> Below(xs, bound) <= k
    ensures xs[k] <= bound ==> Above(xs, bound) <= |xs| - 1 - k
  {
    if |xs| > 1 {
      RankCounts(xs[1..], if k == 0 then 0 else k - 1, bound);
    }
  }

  // ----- the interval -----

  /** None for a short sample, a refusal for a long one, else the 7th and the 494th of 500 ordered means. */
  function Interval(values: seq<real>, seed: int, draw: Generator): Result<Option<(real, real)>, ResearchError>
    requires InRange(draw)
  {
    if |values| < MIN_DAYS then Success(None)
    else if |values| > MAX_DAYS then Failure(ResearchSample)
    else
      var means := Sorted(Means(values, seed, draw, RESAMPLES));
      Success(Some((means[6], means[493])))
  }

  /** Draws blocks until the sample is covered, 500 times, and reads off two of the ordered means. */
  method Bootstrap(values: seq<real>, seed: int, draw: Generator)
    returns (r: Result<Option<(real, real)>, ResearchError>)
    requires InRange(draw)
    ensures r == Interval(values, seed, draw)
  {
    if |values| < MIN_DAYS {
      return Success(None);
    }
    if |values| > MAX_DAYS {
      return Failure(ResearchSample);
    }
    var means: seq<real> := [];
    var drawn := 0;
    for k := 0 to RESAMPLES
      invariant means == Means(values, seed, draw, k) && drawn == k * Blocks(|values|)
    {
      var sample;
      sample, drawn := DrawSample(values, seed, draw, k, drawn);
      means := means + [Mean(sample)];
    }
    var ordered := Sorted(means);
    r := Success(Some((ordered[6], ordered[493])));
  }

  /** One resample: whole blocks until the sample is covered, cut to its length. */
  method DrawSample(values: seq<real>, seed: int, draw: Generator, k: nat, before: nat)
    returns (sample: seq<real>, drawn: nat)
    requires InRange(draw) && |values| >= BLOCK && before == k * Blocks(|values|)
    ensures sample == Resample(values, seed, draw, k) && drawn == (k + 1) * Blocks(|values|)
  {
    hide Source, Blocks, Repeats;
    ghost var blocks := 0;
    sample, drawn := [], before;
    NothingDrawn(values, seed, draw, k);
    while |sample| < |values|
      invariant |sample| == BLOCK * blocks && blocks <= Blocks(|values|) && drawn == before + blocks
      invariant Repeats(values, seed, draw, k, sample)
      decreases |values| - |sample|
    {
      var start := draw(seed, |values| - BLOCK + 1, drawn);
      BlocksCover(|values|, blocks);
      DrawnMore(values, seed, draw, k, sample, blocks);
      sample, drawn, blocks := sample + values[start..start + BLOCK], drawn + 1, blocks + 1;
    }
    BlocksCover(|values|, blocks);
    DrawnAll(values, seed, draw, k, sample);
    sample := sample[..|values|];
  }

  /** Every day of a part of the k-th resample repeats the day drawn for it. */
  ghost predicate Repeats(values: seq<real>, seed: int, draw: Generator, k: nat, sample: seq<real>)
    requires |values| >= BLOCK
  {
    forall i :: 0 <= i < |sample| ==>
      Source(|values|, seed, draw, k, i) < |values| && sample[i] == values[Source(|values|, seed, draw, k, i)]
  }

  lemma NothingDrawn(values: seq<real>, seed: int, draw: Generator, k: nat)
    requires |values| >= BLOCK
    ensures Repeats(values, seed, draw, k, [])
  {
  }

  lemma BlocksCover(n: nat, blocks: nat)
    ensures BLOCK * blocks < n <==> blocks < Blocks(n)
  {
  }

  lemma DrawnMore(values: seq<real>, seed: int, draw: Generator, k: nat, sample: seq<real>, blocks: nat)
    requires InRange(draw) && |values| >= BLOCK
    requires |sample| == BLOCK * blocks && Repeats(values, seed, draw, k, sample)
    ensures var start := draw(seed, |values| - BLOCK + 1, k * Blocks(|values|) + blocks);
      start + BLOCK <= |values| && Repeats(values, seed, draw, k, sample + values[start..start + BLOCK])
  {
    hide Source, Blocks;
    BlockAt(|values|, seed, draw, k, blocks);
  }

  lemma DrawnAll(values: seq<real>, seed: int, draw: Generator, k: nat, sample: seq<real>)
    requires InRange(draw) && |values| >= BLOCK && |sample| >= |values|
    requires Repeats(values, seed, draw, k, sample)
    ensures sample[..|values|] == Resample(values, seed, draw, k)
  {
    hide Source;
  }

  lemma BlockAt(n: nat, seed: int, draw: Generator, k: nat, block: nat)
    requires n >= BLOCK && InRange(draw)
    ensures var start := draw(seed, n - BLOCK + 1, k * Blocks(n) + block);
      && start + BLOCK <= n
      && forall i :: BLOCK * block <= i < BLOCK * (block + 1) ==>
           Source(n, seed, draw, k, i) == start + (i - BLOCK * block)
  {
    forall i | BLOCK * block <= i < BLOCK * (block + 1)
      ensures i / BLOCK == block && i % BLOCK == i - BLOCK * block
    {
    }
  }

  // ----- what the interval means -----

  lemma {:induction false} SumWithin(values: seq<real>, low: real, high: real)
    requires forall i :: 0 <= i < |values| ==> low <= values[i] <= high
    ensures low * |values| as real <= Sum(values) <= high * |values| as real
  {
    if values != [] {
      SumWithin(values[..|values| - 1], low, high);
    }
  }

  lemma MeanWithin(values: seq<real>, low: real, high: real)
    requires values != [] && forall i :: 0 <= i < |values| ==> low <= values[i] <= high
    ensures low <= Mean(values) <= high
  {
    SumWithin(values, low, high);
  }

  /** When there is an interval at all. */
  lemma IntervalWhen(values: seq<real>, seed: int, draw: Generator)
    requires InRange(draw)
    ensures Interval(values, seed, draw) == Success(None) <==> |values| < 20
    ensures Interval(values, seed, draw) == Failure(ResearchSample) <==> |values| > 366
    ensures Interval(values, seed, draw).Success? <==> |values| <= 366
  {
    hide Sorted, Means;
  }

  /** Five days that follow each other stay together: a resample is whole blocks of the sample, cut to its length. */
  lemma BlocksStayTogether(values: seq<real>, seed: int, draw: Generator, k: nat, b: nat, j: nat)
    requires InRange(draw) && |values| >= 5 && j < 5 && 5 * b + j < |values|
    ensures var start := draw(seed, |values| - 4, k * Blocks(|values|) + b);
      && start + 5 <= |values| && Resample(values, seed, draw, k)[5 * b + j] == values[start + j]
    ensures 5 * (Blocks(|values|) - 1) < |values| <= 5 * Blocks(|values|)
  {
    BlockAt(|values|, seed, draw, k, b);
  }

  /** Every resampled mean is between the bounds of the sample. */
  lemma MeansWithin(values: seq<real>, seed: int, draw: Generator, low: real, high: real, x: real)
    requires InRange(draw) && |values| >= BLOCK
    requires forall i :: 0 <= i < |values| ==> low <= values[i] <= high
    requires x in Sorted(Means(values, seed, draw, RESAMPLES))
    ensures low <= x <= high
  {
    hide Sorted, Mean, Source;
    var means := Means(values, seed, draw, RESAMPLES);
    SortedIsSorted(means);
    assert x in multiset(Sorted(means)) && x in multiset(means);
    var k :| 0 <= k < |means| && means[k] == x;
    MeanWithin(Resample(values, seed, draw, k), low, high);
  }

  /**
   * A reported interval is ordered and stays within the sample. Its ends are the seventh resampled
   * mean from either side: at most six of the 500 lie beyond, and at least seven beyond or on it.
   */
  lemma IntervalHoldsTheMeans(values: seq<real>, seed: int, draw: Generator, low: real, high: real)
    requires InRange(draw) && MIN_DAYS <= |values| <= MAX_DAYS
    requires forall i :: 0 <= i < |values| ==> low <= values[i] <= high
    ensures var (lower, upper) := Interval(values, seed, draw).value.value;
      var means := Means(values, seed, draw, RESAMPLES);
      && low <= lower <= upper <= high
      && Below(means, lower) <= 6 && 500 - Above(means, lower) >= 7
      && Above(means, upper) <= 6 && 500 - Below(means, upper) >= 7
  {
    hide Sorted, Means, Below, Above, InRange;
    var means := Means(values, seed, draw, RESAMPLES);
    var ordered := Sorted(means);
    SortedIsSorted(means);
    assert ordered[6] in ordered && ordered[493] in ordered;
    MeansWithin(values, seed, draw, low, high, ordered[6]);
    MeansWithin(values, seed, draw, low, high, ordered[493]);
    SortCounts(means, ordered[6]);
    SortCounts(means, ordered[493]);
    RankCounts(ordered, 6, ordered[6]);
    RankCounts(ordered, 493, ordered[493]);
  }
}
