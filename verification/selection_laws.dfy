/** What the report's figures and its choice of candidate mean. */
module SelectionLaws {
  import opened Basics
  import opened Replay
  import opened ReplayCosts
  import opened Intervals
  import opened ReplaySelection

  lemma MeanMeans(values: seq<real>)
    requires values != []
    ensures |values| as real * Mean(values) == Sum(values)
  {
  }

  lemma Crossed(a: real, m: real, b: real, r: real)
    requires m > 0.0 && r > 0.0
    ensures a / m >= b / r <==> r * a >= m * b
  {
    var x, y := a / m, b / r;
    assert x * m == a && y * r == b;
    assert r * a == x * (m * r) && m * b == y * (m * r);
    assert m * r > 0.0;
    Keeps(x, y, m * r);
  }

  lemma Keeps(x: real, y: real, k: real)
    requires k > 0.0
    ensures x >= y <==> x * k >= y * k
  {
    if x >= y {
      assert (x - y) * k >= 0.0;
    } else {
      assert (y - x) * k > 0.0;
    }
  }

  /**
   * The candidate with the higher average before the split is named, compared without division;
   * momentum on a tie; one without such dates only loses; and nobody if neither has any.
   */
  lemma WinnerMeans(momentum: seq<real>, reversion: seq<real>)
    ensures Winner(momentum, reversion) == None <==> momentum == [] == reversion
    ensures Winner(momentum, reversion) == Some(Momentum) <==>
      momentum != [] && (reversion == [] ||
        |reversion| as real * Sum(momentum) >= |momentum| as real * Sum(reversion))
    ensures Winner(momentum, reversion) == Some(MeanReversion) <==>
      reversion != [] && (momentum == [] ||
        |reversion| as real * Sum(momentum) < |momentum| as real * Sum(reversion))
  {
    if momentum != [] && reversion != [] {
      Crossed(Sum(momentum), |momentum| as real, Sum(reversion), |reversion| as real);
    }
  }

  /** The three records of a candidate differ in their costs alone: once, twice and three times the same. */
  lemma TrialsAreStress(bars: seq<Bar>, day: Calendar, plan: Plan, candidate: Candidate, multiplier: int, d: int)
    ensures var base, trial :=
        Trial(bars, day, plan, candidate, 1).DayRow(d), Trial(bars, day, plan, candidate, multiplier).DayRow(d);
      && trial.gross == base.gross && trial.turnover == base.turnover
      && trial.cost == multiplier as real * base.cost
      && 10000.0 * base.cost == plan.costBpsPerSide as real * base.turnover
      && trial.Net() == base.gross - multiplier as real * base.cost
  {
    hide Study.DayRow, TradesOn;
    var s := Trial(bars, day, plan, candidate, 1);
    assert s.(costBps := s.costBps * multiplier) == Trial(bars, day, plan, candidate, multiplier);
    CostStress(s, multiplier, d);
    DayRowIsItsTrades(s, d);
  }

  // ----- which dates count where -----

  /** The dates of one side of the split, in report order. */
  function Side(dates: seq<int>, split: int, before: bool): seq<int> {
    if dates == [] then []
    else
      var last := dates[|dates| - 1];
      Side(dates[..|dates| - 1], split, before) + (if (last < split) == before then [last] else [])
  }

  /** Each side holds exactly its dates: those before the split for training, the others for the test. */
  lemma {:induction false} SideMeans(dates: seq<int>, split: int, before: bool)
    ensures forall d :: d in Side(dates, split, before) <==> d in dates && (if before then d < split else split <= d)
    ensures NoDuplicates(dates) ==> NoDuplicates(Side(dates, split, before))
  {
    if dates != [] {
      var init, last := dates[..|dates| - 1], dates[|dates| - 1];
      assert dates == init + [last];
      SideMeans(init, split, before);
      assert last in init ==> !NoDuplicates(dates);
    }
  }

  lemma {:induction false} NetsAre(s: Study, dates: seq<int>, split: int, before: bool)
    ensures var side, nets := Side(dates, split, before), NetsOf(s, dates, split, before);
      |nets| == |side| && forall i :: 0 <= i < |side| ==> nets[i] == s.DayRow(side[i]).gross - s.DayRow(side[i]).cost
  {
    hide Study.DayRow;
    if dates != [] {
      NetsAre(s, dates[..|dates| - 1], split, before);
    }
  }

  lemma {:induction false} ExcessesAre(s: Study, dates: seq<int>, split: int)
    ensures var side, excess := Side(dates, split, false), ExcessOf(s, dates, split);
      && |excess| == |side|
      && forall i :: 0 <= i < |side| ==> excess[i] + s.DayRow(side[i]).baseline == s.DayRow(side[i]).Net()
  {
    hide Study.DayRow;
    if dates != [] {
      ExcessesAre(s, dates[..|dates| - 1], split);
    }
  }

  /**
   * Training, test and excess results are those of the report's dates before the split, from the split
   * on, and of the latter beyond buying and holding, one for each date.
   */
  lemma SplitMeans(s: Study, split: int)
    ensures var before, since := Side(s.Dates(), split, true), Side(s.Dates(), split, false);
      && NoDuplicates(before) && NoDuplicates(since)
      && (forall d :: d in before <==> d in s.Dates() && d < split)
      && (forall d :: d in since <==> d in s.Dates() && split <= d)
      && |Training(s, split)| == |before| && |Test(s, split)| == |since| == |Excess(s, split)|
      && (forall i :: 0 <= i < |before| ==> Training(s, split)[i] == s.DayRow(before[i]).Net())
      && (forall i :: 0 <= i < |since| ==>
            Test(s, split)[i] == s.DayRow(since[i]).Net() == Excess(s, split)[i] + s.DayRow(since[i]).baseline)
  {
    hide Study.DayRow;
    DatesAre(s.Days(), |s.bars|);
    SideMeans(s.Dates(), split, true);
    SideMeans(s.Dates(), split, false);
    NetsAre(s, s.Dates(), split, true);
    NetsAre(s, s.Dates(), split, false);
    ExcessesAre(s, s.Dates(), split);
  }
}
