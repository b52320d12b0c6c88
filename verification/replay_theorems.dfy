/** What the replay promises: causality, agreement with the live rule, cash, and an untouched test split. */
module ReplayTheorems {
  import opened Basics
  import opened Replay

  // ----- causality and the live rule -----

  /** A position depends only on earlier bars and on when the present bar begins. */
  lemma HeldIsCausal(s: Study, t: Study, i: nat)
    requires i < |s.bars| && i < |t.bars| && s.bars[..i] == t.bars[..i] && s.bars[i].at == t.bars[i].at
    requires s.day == t.day && s.plan == t.plan && s.candidate == t.candidate
    ensures s.Held(i) == t.Held(i)
    ensures s.Contiguous(i) == t.Contiguous(i)
  {
    assert forall j :: 0 <= j < i ==> s.bars[j] == s.bars[..i][j] == t.bars[..i][j] == t.bars[j];
    assert forall j :: 0 <= j <= i ==> s.Contiguous(j) == t.Contiguous(j);
    if s.plan.window <= i {
      assert Closes(s.bars, i - s.plan.window, i) == Closes(t.bars, i - s.plan.window, i);
    }
  }

  /** On a complete gap-free window the position held is the live rule's answer. */
  lemma WarmIsTarget(s: Study, i: nat)
    requires s.Valid() && i < |s.bars| && s.Warm(i)
    ensures Target(Closes(s.bars, i - s.plan.window, i), s.candidate, s.plan.thresholdBps) == Success(s.Held(i))
  {
    ClosesPositive(s.bars, i - s.plan.window, i);
  }

  // ----- mark to market is the cash of the trades -----

  /** Cash from trading at the open of bar i, and from liquidating at its close if nothing follows. */
  function CashFlow(s: Study, i: nat): real
    requires i < |s.bars|
  {
    var fee := Fee(s.costBps);
    Scale(s.Carried(i) - s.Held(i), s.bars[i].open)
      - Charge(Scale(Abs(s.Held(i) - s.Carried(i)), s.bars[i].open), fee)
      + (if s.Contiguous(i + 1) then 0.0
         else Scale(s.Held(i), s.bars[i].close) - Scale(s.Held(i), Charge(s.bars[i].close, fee)))
  }

  /** Cash from buying a share at each segment's first open and selling it at its last close. */
  function HoldFlow(s: Study, i: nat): real
    requires i < |s.bars|
  {
    var fee := Fee(s.costBps);
    (if s.Contiguous(i) then 0.0 else -s.bars[i].open - Charge(s.bars[i].open, fee))
      + (if s.Contiguous(i + 1) then 0.0 else s.bars[i].close - Charge(s.bars[i].close, fee))
  }

  function CashOn(s: Study, d: int, n: nat): real
    requires n <= |s.bars|
  {
    if n == 0 then 0.0
    else CashOn(s, d, n - 1) + (if s.day(s.bars[n - 1].at) == d then CashFlow(s, n - 1) else 0.0)
  }

  function HoldOn(s: Study, d: int, n: nat): real
    requires n <= |s.bars|
  {
    if n == 0 then 0.0
    else HoldOn(s, d, n - 1) + (if s.day(s.bars[n - 1].at) == d then HoldFlow(s, n - 1) else 0.0)
  }

  /** Marking one bar is its trade plus the change in the value of what is held. */
  lemma MarkedBar(s: Study, i: nat)
    requires i < |s.bars|
    ensures s.Entry(i).Plus(s.Exit(i)).Net() == CashFlow(s, i)
              + (if s.Contiguous(i + 1) then Scale(s.Held(i), s.bars[i].close) else 0.0)
              - (if s.Contiguous(i) then Scale(s.Held(i - 1), s.bars[i - 1].close) else 0.0)
    ensures s.Entry(i).Plus(s.Exit(i)).baseline == HoldFlow(s, i)
              + (if s.Contiguous(i + 1) then s.bars[i].close else 0.0)
              - (if s.Contiguous(i) then s.bars[i - 1].close else 0.0)
  {
    hide Study.Held, Charge;
  }

  /** On date d, bar n continues a share bought earlier. */
  predicate Continues(s: Study, d: int, n: nat)
    requires n <= |s.bars|
  {
    n > 0 && s.Contiguous(n) && s.day(s.bars[n - 1].at) == d
  }

  function Prefix(s: Study, d: int, n: nat): Row
    requires n <= |s.bars|
  {
    Credited(s.Days(), s.Entries(), d, n).Plus(Credited(s.Days(), s.Exits(), d, n))
  }

  lemma PrefixStep(s: Study, d: int, n: nat)
    requires n < |s.bars|
    ensures Prefix(s, d, n + 1) ==
      Prefix(s, d, n).Plus(if s.day(s.bars[n].at) == d then s.Entry(n).Plus(s.Exit(n)) else ZERO)
  {
    hide Study.Entry, Study.Exit;
    assert s.Entries()[n] == s.Entry(n) && s.Exits()[n] == s.Exit(n) && s.Days()[n] == s.day(s.bars[n].at);
  }

  /** The report so far is the cash so far and the value of a share still held into the next bar. */
  lemma {:induction false} MarkedPrefix(s: Study, d: int, n: nat)
    requires n <= |s.bars|
    ensures Prefix(s, d, n).Net() ==
      CashOn(s, d, n) + (if Continues(s, d, n) then Scale(s.Held(n - 1), s.bars[n - 1].close) else 0.0)
    ensures Prefix(s, d, n).baseline ==
      HoldOn(s, d, n) + (if Continues(s, d, n) then s.bars[n - 1].close else 0.0)
  {
    hide Study.Held, Study.Entry, Study.Exit, Scale, CashFlow, HoldFlow;
    if n > 0 {
      MarkedPrefix(s, d, n - 1);
      MarkedBar(s, n - 1);
      PrefixStep(s, d, n - 1);
      hide Prefix;
    }
  }

  /** Every date's net and baseline, marked bar by bar, are exactly the cash its trades leave. */
  lemma DayRowIsTradeCash(s: Study, d: int)
    ensures s.DayRow(d).Net() == CashOn(s, d, |s.bars|)
    ensures s.DayRow(d).baseline == HoldOn(s, d, |s.bars|)
  {
    MarkedPrefix(s, d, |s.bars|);
  }

  // ----- the law of one contiguous segment -----

  predicate Segment(s: Study, a: nat, b: nat) {
    && a < b <= |s.bars| && !s.Contiguous(a) && !s.Contiguous(b)
    && (forall i :: a < i < b ==> s.Contiguous(i))
  }

  function GrossOver(s: Study, a: nat, b: nat): real
    requires a <= b <= |s.bars|
  {
    if a == b then 0.0 else GrossOver(s, a, b - 1) + s.Entry(b - 1).gross
  }

  function BaselineOver(s: Study, a: nat, b: nat): real
    requires a <= b <= |s.bars|
  {
    if a == b then 0.0 else BaselineOver(s, a, b - 1) + s.Entry(b - 1).baseline + s.Exit(b - 1).baseline
  }

  /** The cost of every change of position at its open. */
  function Traded(s: Study, a: nat, b: nat): real
    requires a <= b <= |s.bars|
  {
    if a == b then 0.0 else Traded(s, a, b - 1) + Scale(s.Held(b - 1) - s.Carried(b - 1), s.bars[b - 1].open)
  }

  lemma SegmentBar(s: Study, i: nat)
    requires i < |s.bars|
    ensures s.Entry(i).gross == Scale(s.Held(i), s.bars[i].close) - Scale(s.Held(i) - s.Carried(i), s.bars[i].open)
              - (if s.Contiguous(i) then Scale(s.Held(i - 1), s.bars[i - 1].close) else 0.0)
    ensures s.Entry(i).baseline + s.Exit(i).baseline ==
      s.bars[i].close - (if s.Contiguous(i) then s.bars[i - 1].close
                         else s.bars[i].open + Charge(s.bars[i].open, Fee(s.costBps)))
        - (if s.Contiguous(i + 1) then 0.0 else Charge(s.bars[i].close, Fee(s.costBps)))
  {
    hide Study.Held, Charge;
  }

  lemma {:induction false} SegmentPrefix(s: Study, a: nat, b: nat)
    requires a < b <= |s.bars| && !s.Contiguous(a) && forall i :: a < i < b ==> s.Contiguous(i)
    ensures GrossOver(s, a, b) == Scale(s.Held(b - 1), s.bars[b - 1].close) - Traded(s, a, b)
    ensures BaselineOver(s, a, b) ==
      (if s.Contiguous(b) then s.bars[b - 1].close
       else s.bars[b - 1].close - Charge(s.bars[b - 1].close, Fee(s.costBps)))
      - s.bars[a].open - Charge(s.bars[a].open, Fee(s.costBps))
  {
    hide Study.Held, Charge;
    SegmentBar(s, b - 1);
    if b == a + 1 {
      assert GrossOver(s, a, a) == 0.0 && Traded(s, a, a) == 0.0 && BaselineOver(s, a, a) == 0.0;
    } else {
      assert s.Contiguous(b - 1);
      hide Study.Entry, Study.Exit, Study.Carried, Scale, Study.Contiguous;
      SegmentPrefix(s, a, b - 1);
    }
  }

  /** Over a contiguous segment gross is final value less trades, and the baseline is one round trip. */
  lemma SegmentLaw(s: Study, a: nat, b: nat)
    requires Segment(s, a, b)
    ensures GrossOver(s, a, b) == Scale(s.Held(b - 1), s.bars[b - 1].close) - Traded(s, a, b)
    ensures BaselineOver(s, a, b) ==
      s.bars[b - 1].close - s.bars[a].open - Fee(s.costBps) * (s.bars[a].open + s.bars[b - 1].close)
  {
    SegmentPrefix(s, a, b);
  }

  // ----- a date is the sum of its segments -----

  /** Where the segment of bar i begins. */
  function StartOf(s: Study, i: nat): (a: nat)
    requires i < |s.bars|
    ensures a <= i && !s.Contiguous(a) && (forall j :: a < j <= i ==> s.Contiguous(j))
  {
    if s.Contiguous(i) then StartOf(s, i - 1) else i
  }

  /** The segments are exactly the stretches up to a bar that nothing continues, each within one date. */
  lemma SegmentsEndWhereNothingContinues(s: Study, a: nat, b: nat)
    requires a < b <= |s.bars|
    ensures Segment(s, a, b) <==> !s.Contiguous(b) && a == StartOf(s, b - 1)
    ensures Segment(s, a, b) ==> forall i :: a <= i < b ==> s.day(s.bars[i].at) == s.day(s.bars[b - 1].at)
  {
    if Segment(s, a, b) {
      SameDate(s, a, b - 1);
    }
  }

  lemma {:induction false} SameDate(s: Study, a: nat, i: nat)
    requires a <= i < |s.bars| && forall j :: a < j <= i ==> s.Contiguous(j)
    ensures forall j :: a <= j <= i ==> s.day(s.bars[j].at) == s.day(s.bars[i].at)
  {
    if a < i {
      assert s.Contiguous(i);
      SameDate(s, a, i - 1);
    }
  }

  /** Gross and baseline of every segment of date d that ends within the first n bars. */
  function SegmentsOn(s: Study, d: int, n: nat): (real, real)
    requires n <= |s.bars|
  {
    if n == 0 then (0.0, 0.0)
    else
      var (gross, baseline) := SegmentsOn(s, d, n - 1);
      if s.Contiguous(n) || s.day(s.bars[n - 1].at) != d then (gross, baseline)
      else
        var a := StartOf(s, n - 1);
        (gross + GrossOver(s, a, n), baseline + BaselineOver(s, a, n))
  }

  /** The report so far is the segments so far and the part done of the one still open. */
  lemma {:induction false} SegmentsPrefix(s: Study, d: int, n: nat)
    requires n <= |s.bars|
    ensures var (gross, baseline) := SegmentsOn(s, d, n);
      && Prefix(s, d, n).gross ==
           gross + (if Continues(s, d, n) then GrossOver(s, StartOf(s, n - 1), n) else 0.0)
      && Prefix(s, d, n).baseline ==
           baseline + (if Continues(s, d, n) then BaselineOver(s, StartOf(s, n - 1), n) else 0.0)
  {
    if n > 0 {
      SegmentsPrefix(s, d, n - 1);
      PrefixStep(s, d, n - 1);
      hide Prefix, Study.Held, Study.Entry, Study.Exit;
      OverOne(s, n - 1);
    }
  }

  /** A bar extends its segment's sums by its own row. */
  lemma OverOne(s: Study, i: nat)
    requires i < |s.bars|
    ensures s.Exit(i).gross == 0.0
    ensures var a := StartOf(s, i);
      && GrossOver(s, a, i + 1) == s.Entry(i).gross
           + (if s.Contiguous(i) then GrossOver(s, StartOf(s, i - 1), i) else 0.0)
      && BaselineOver(s, a, i + 1) == s.Entry(i).baseline + s.Exit(i).baseline
           + (if s.Contiguous(i) then BaselineOver(s, StartOf(s, i - 1), i) else 0.0)
  {
    hide Study.Held, Scale, Charge;
  }

  /** Every date's gross and baseline are those of its segments, each of which obeys SegmentLaw. */
  lemma DayRowIsItsSegments(s: Study, d: int)
    ensures (s.DayRow(d).gross, s.DayRow(d).baseline) == SegmentsOn(s, d, |s.bars|)
  {
    SegmentsPrefix(s, d, |s.bars|);
  }
}
