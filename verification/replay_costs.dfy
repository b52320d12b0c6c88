/** What the report charges and counts, in the trades themselves: what was bought and sold, and at which price. */
module ReplayCosts {
  import opened Basics
  import opened Replay
  import opened ReplayTheorems

  /** What bar i is sold for: at its open when the rule lets go, at its close when nothing continues it. */
  function SoldAt(s: Study, i: nat): real
    requires i < |s.bars|
  {
    (if s.Contiguous(i) && s.Held(i - 1) == 1.0 && s.Held(i) == 0.0 then s.bars[i].open else 0.0)
      + (if s.Held(i) == 1.0 && !s.Contiguous(i + 1) then s.bars[i].close else 0.0)
  }

  /** What it is bought for: its open, when the rule takes the share up. */
  function BoughtAt(s: Study, i: nat): real
    requires i < |s.bars|
  {
    if s.Held(i) == 1.0 && !(s.Contiguous(i) && s.Held(i - 1) == 1.0) then s.bars[i].open else 0.0
  }

  /** Over the first n bars, what was sold and bought on date d, and how many bars it has. */
  function TradesOn(s: Study, d: int, n: nat): (real, real, nat)
    requires n <= |s.bars|
  {
    if n == 0 then (0.0, 0.0, 0)
    else
      var (sold, bought, bars) := TradesOn(s, d, n - 1);
      if s.day(s.bars[n - 1].at) == d
      then (sold + SoldAt(s, n - 1), bought + BoughtAt(s, n - 1), bars + 1)
      else (sold, bought, bars)
  }

  function BasisPoints(bps: int, value: real): real {
    bps as real * value
  }

  lemma BasisPointsAdd(bps: int, x: real, y: real)
    ensures BasisPoints(bps, x + y) == BasisPoints(bps, x) + BasisPoints(bps, y) && BasisPoints(bps, 0.0) == 0.0
  {
  }

  lemma TradedBar(s: Study, i: nat)
    requires i < |s.bars|
    ensures var row := s.Entry(i).Plus(s.Exit(i));
      && row.gross == SoldAt(s, i) - BoughtAt(s, i)
           + (if s.Contiguous(i + 1) && s.Held(i) == 1.0 then s.bars[i].close else 0.0)
           - (if s.Contiguous(i) && s.Held(i - 1) == 1.0 then s.bars[i - 1].close else 0.0)
      && row.turnover == SoldAt(s, i) + BoughtAt(s, i)
      && row.bars == 1.0
      && 10000.0 * row.cost == BasisPoints(s.costBps, row.turnover)
  {
    var held := s.Held(i);
    assert held == 0.0 || held == 1.0;
    if s.Contiguous(i) {
      assert s.Held(i - 1) == 0.0 || s.Held(i - 1) == 1.0;
    }
    hide Study.Held;
  }

  lemma {:induction false} TradedPrefix(s: Study, d: int, n: nat)
    requires n <= |s.bars|
    ensures var (sold, bought, bars) := TradesOn(s, d, n);
      && Prefix(s, d, n).gross ==
           sold - bought + (if Continues(s, d, n) && s.Held(n - 1) == 1.0 then s.bars[n - 1].close else 0.0)
      && Prefix(s, d, n).turnover == sold + bought
      && Prefix(s, d, n).bars == bars as real
      && 10000.0 * Prefix(s, d, n).cost == BasisPoints(s.costBps, Prefix(s, d, n).turnover)
  {
    hide Study.Held, Study.Entry, Study.Exit, SoldAt, BoughtAt, BasisPoints;
    if n == 0 {
      BasisPointsAdd(s.costBps, 0.0, 0.0);
    } else {
      hide Prefix;
      TradedPrefix(s, d, n - 1);
      TradedBar(s, n - 1);
      PrefixStep(s, d, n - 1);
      BasisPointsAdd(s.costBps, Prefix(s, d, n - 1).turnover, s.Entry(n - 1).Plus(s.Exit(n - 1)).turnover);
    }
  }

  lemma DayRowIsPrefix(s: Study, d: int)
    ensures s.DayRow(d) == Prefix(s, d, |s.bars|) && !Continues(s, d, |s.bars|)
  {
  }

  /**
   * A date's gross is what was sold less what was bought, its turnover is both together, its cost is
   * so many basis points of the turnover, and it counts every bar of the date.
   */
  lemma DayRowIsItsTrades(s: Study, d: int)
    ensures var (sold, bought, bars) := TradesOn(s, d, |s.bars|);
      && s.DayRow(d).gross == sold - bought && s.DayRow(d).turnover == sold + bought
      && 10000.0 * s.DayRow(d).cost == s.costBps as real * s.DayRow(d).turnover
      && s.DayRow(d).bars == bars as real
  {
    hide Study.DayRow, Prefix, TradesOn, Continues, Study.Held;
    DayRowIsPrefix(s, d);
    TradedPrefix(s, d, |s.bars|);
  }

  // ----- cost stress -----

  lemma HeldIgnoresCost(s: Study, costBps: int, i: nat)
    requires i < |s.bars|
    ensures s.(costBps := costBps).Held(i) == s.Held(i)
    ensures s.(costBps := costBps).Contiguous(i) == s.Contiguous(i)
  {
    assert forall j :: s.(costBps := costBps).Contiguous(j) == s.Contiguous(j);
  }

  lemma {:induction false} TradesIgnoreCost(s: Study, costBps: int, d: int, n: nat)
    requires n <= |s.bars|
    ensures TradesOn(s.(costBps := costBps), d, n) == TradesOn(s, d, n)
  {
    hide Study.Held, Study.Contiguous;
    if n > 0 {
      TradesIgnoreCost(s, costBps, d, n - 1);
      HeldIgnoresCost(s, costBps, n - 1);
      if n > 1 {
        HeldIgnoresCost(s, costBps, n - 2);
      }
      NextIgnoresCost(s, costBps, n);
    }
  }

  lemma NextIgnoresCost(s: Study, costBps: int, n: nat)
    requires 0 < n <= |s.bars|
    ensures s.(costBps := costBps).Contiguous(n) == s.Contiguous(n)
    ensures s.Contiguous(n - 1) ==> n > 1
  {
  }

  /** Trading at k times the cost changes nothing but the cost, which is k times as high. */
  lemma CostStress(s: Study, k: int, d: int)
    ensures var stressed := s.(costBps := s.costBps * k).DayRow(d);
      && stressed.gross == s.DayRow(d).gross && stressed.turnover == s.DayRow(d).turnover
      && stressed.cost == k as real * s.DayRow(d).cost
  {
    hide TradesOn, Study.DayRow;
    var costly := s.(costBps := s.costBps * k);
    DayRowIsItsTrades(s, d);
    DayRowIsItsTrades(costly, d);
    TradesIgnoreCost(s, s.costBps * k, d, |s.bars|);
    Factor(s.costBps, k, s.DayRow(d).turnover);
  }

  lemma Factor(bps: int, k: int, turnover: real)
    ensures (bps * k) as real * turnover == k as real * (bps as real * turnover)
  {
    assert (bps * k) as real == bps as real * k as real;
  }

  // ----- dates -----

  /** The report lists each date of its bars once, in the order in which they first appear. */
  lemma {:induction false} DatesAre(days: seq<int>, n: nat)
    requires n <= |days|
    ensures var dates := FirstSeen(days, n);
      && NoDuplicates(dates)
      && (forall d :: d in dates <==> d in days[..n])
      && ((forall i, j :: 0 <= i < j < n ==> days[i] <= days[j]) ==>
            forall i, j :: 0 <= i < j < |dates| ==> dates[i] < dates[j])
  {
    if n > 0 {
      DatesAre(days, n - 1);
      assert days[..n] == days[..n - 1] + [days[n - 1]];
      var prior := FirstSeen(days, n - 1);
      if forall i, j :: 0 <= i < j < n ==> days[i] <= days[j] {
        forall i | 0 <= i < |prior| ensures prior[i] <= days[n - 1] {
          assert prior[i] in days[..n - 1];
        }
      }
    }
  }
}
