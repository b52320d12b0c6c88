/** Candidate selection on the dates before the split, which the held-out bars cannot influence. */
module ReplaySelection {
  import opened Basics
  import opened Replay
  import opened ReplayTheorems
  import opened Intervals

  datatype Record = Record(
    candidate: Candidate, multiplier: nat, selectionDays: nat, testDays: nat, testMean: Option<real>,
    netInterval: Option<(real, real)>, excessInterval: Option<(real, real)>, dates: seq<int>, rows: map<int, Row>)

  datatype Report = Report(winner: Option<Candidate>, records: seq<Record>)

  predicate Ordered(bars: seq<Bar>) {
    forall i, j :: 0 <= i < j < |bars| ==> bars[i].at < bars[j].at
  }

  predicate Adjacent(bars: seq<Bar>) {
    forall i :: 0 < i < |bars| ==> bars[i - 1].at < bars[i].at
  }

  ghost predicate Monotone(day: Calendar) {
    forall a, b :: a <= b ==> day(a) <= day(b)
  }

  /** Net results of the dates selected by before, in report order. */
  function NetsOf(s: Study, dates: seq<int>, split: int, before: bool): seq<real> {
    if dates == [] then []
    else
      var d := dates[|dates| - 1];
      NetsOf(s, dates[..|dates| - 1], split, before) + (if (d < split) == before then [s.DayRow(d).Net()] else [])
  }

  function Training(s: Study, split: int): seq<real> {
    NetsOf(s, s.Dates(), split, true)
  }

  function Test(s: Study, split: int): seq<real> {
    NetsOf(s, s.Dates(), split, false)
  }

  /** What the held-out dates earned beyond buying and holding. */
  function ExcessOf(s: Study, dates: seq<int>, split: int): seq<real> {
    if dates == [] then []
    else
      var d := dates[|dates| - 1];
      ExcessOf(s, dates[..|dates| - 1], split)
        + (if d < split then [] else [s.DayRow(d).Net() - s.DayRow(d).baseline])
  }

  function Excess(s: Study, split: int): seq<real> {
    ExcessOf(s, s.Dates(), split)
  }

  lemma {:induction false} ExcessIsPerTestDay(s: Study, dates: seq<int>, split: int)
    ensures |ExcessOf(s, dates, split)| == |NetsOf(s, dates, split, false)|
  {
    if dates != [] {
      ExcessIsPerTestDay(s, dates[..|dates| - 1], split);
    }
  }

  function Trial(bars: seq<Bar>, day: Calendar, plan: Plan, candidate: Candidate, multiplier: int): Study {
    Study(bars, day, plan, candidate, plan.costBpsPerSide * multiplier)
  }

  /** The candidate with the better mean before the split; the first one wins ties; none without such dates. */
  function Winner(momentum: seq<real>, reversion: seq<real>): Option<Candidate> {
    if momentum == [] && reversion == [] then None
    else if momentum == [] then Some(MeanReversion)
    else if reversion == [] then Some(Momentum)
    else if Mean(momentum) >= Mean(reversion) then Some(Momentum)
    else Some(MeanReversion)
  }

  ghost predicate RecordIs(
    r: Record, s: Study, candidate: Candidate, multiplier: nat, split: int, draw: Generator)
    requires InRange(draw)
  {
    && r.candidate == candidate && r.multiplier == multiplier
    && r.selectionDays == |Training(s, split)| && r.testDays == |Test(s, split)|
    && r.testMean == (if Test(s, split) == [] then None else Some(Mean(Test(s, split))))
    && Interval(Test(s, split), s.plan.seed, draw) == Success(r.netInterval)
    && Interval(Excess(s, split), s.plan.seed, draw) == Success(r.excessInterval)
    && r.dates == s.Dates()
    && r.rows.Keys == (set d | d in r.dates)
    && (forall d :: d in r.dates ==> r.rows[d] == s.DayRow(d))
  }

  function CandidateAt(k: nat): Candidate {
    if k < 3 then Momentum else MeanReversion
  }

  /** Splits a replay's dates into selection and test results. */
  method Split(s: Study, dates: seq<int>, rows: map<int, Row>, split: int)
    returns (training: seq<real>, heldout: seq<real>, excess: seq<real>)
    requires dates == s.Dates() && rows.Keys == (set d | d in dates)
    requires forall d :: d in dates ==> rows[d] == s.DayRow(d)
    ensures training == Training(s, split) && heldout == Test(s, split) && excess == Excess(s, split)
  {
    training, heldout, excess := [], [], [];
    for i := 0 to |dates|
      invariant training == NetsOf(s, dates[..i], split, true)
      invariant heldout == NetsOf(s, dates[..i], split, false) && excess == ExcessOf(s, dates[..i], split)
    {
      assert dates[..i + 1][..i] == dates[..i];
      assert dates[i] in rows;
      var net, baseline := rows[dates[i]].Net(), rows[dates[i]].baseline;
      if dates[i] < split {
        training := training + [net];
      } else {
        heldout, excess := heldout + [net], excess + [net - baseline];
      }
    }
    assert dates[..|dates|] == dates;
  }

  /** One replay of the report: its record, and its results before the split. */
  method Assess(s: Study, multiplier: nat, split: int, draw: Generator)
    returns (r: Result<(Record, seq<real>), ResearchError>)
    requires s.Valid() && InRange(draw)
    ensures if |Test(s, split)| > MAX_DAYS then r == Failure(ResearchSample)
            else
              && r.Success? && RecordIs(r.value.0, s, s.candidate, multiplier, split, draw)
              && r.value.1 == Training(s, split)
  {
    hide Study.DayRow, Sorted, Means;
    var dates, rows := DailyPnl(s);
    var training, heldout, excess := Split(s, dates, rows, split);
    ExcessIsPerTestDay(s, s.Dates(), split);
    var mean := if heldout == [] then None else Some(Mean(heldout));
    var net :- Bootstrap(heldout, s.plan.seed, draw);
    var beyond := Bootstrap(excess, s.plan.seed, draw);
    r := Success((
      Record(s.candidate, multiplier, |training|, |heldout|, mean, net, beyond.value, dates, rows),
      training));
  }

  /** How many dates of the bars are held out. */
  function HeldOutDays(bars: seq<Bar>, day: Calendar, plan: Plan): nat {
    |Test(Trial(bars, day, plan, Momentum, 1), day(plan.selectionEnd))|
  }

  lemma {:induction false} SameLength(s: Study, t: Study, dates: seq<int>, split: int, before: bool)
    ensures |NetsOf(s, dates, split, before)| == |NetsOf(t, dates, split, before)|
  {
    if dates != [] {
      SameLength(s, t, dates[..|dates| - 1], split, before);
    }
  }

  /** The dates do not depend on candidate or cost, so neither does their number. */
  lemma EveryTrialHoldsOut(bars: seq<Bar>, day: Calendar, plan: Plan, candidate: Candidate, multiplier: int)
    ensures |Test(Trial(bars, day, plan, candidate, multiplier), day(plan.selectionEnd))| ==
      HeldOutDays(bars, day, plan)
  {
    var s, t := Trial(bars, day, plan, candidate, multiplier), Trial(bars, day, plan, Momentum, 1);
    assert s.Days() == t.Days();
    SameLength(s, t, s.Dates(), day(plan.selectionEnd), false);
  }

  ghost predicate Assessed(
    bars: seq<Bar>, day: Calendar, plan: Plan, split: int, draw: Generator, records: seq<Record>)
    requires InRange(draw)
  {
    forall k :: 0 <= k < |records| ==>
      RecordIs(records[k], Trial(bars, day, plan, CandidateAt(k), k % 3 + 1), CandidateAt(k), k % 3 + 1, split, draw)
  }

  predicate Inside(bars: seq<Bar>, plan: Plan) {
    forall i :: 0 <= i < |bars| ==> plan.start <= bars[i].at < plan.end
  }

  /** Replays both candidates at one, two and three times the cost; only dates before the split select. */
  method Evaluate(bars: seq<Bar>, day: Calendar, plan: Plan, draw: Generator)
    returns (r: Result<Report, ResearchError>)
    requires (forall b :: b in bars ==> b.Valid()) && plan.Valid() && InRange(draw)
    ensures r.Success? <==>
      0 < |bars| <= 20000 && Adjacent(bars) && Inside(bars, plan) && HeldOutDays(bars, day, plan) <= MAX_DAYS
    ensures r == Failure(ResearchOrder) <==> 0 < |bars| <= 20000 && !Adjacent(bars)
    ensures r == Failure(ResearchSplit) <==> 0 < |bars| <= 20000 && Adjacent(bars) && !Inside(bars, plan)
    ensures r.Failure? ==> r.error.ResearchSample? || r.error.ResearchOrder? || r.error.ResearchSplit?
    ensures r.Success? ==>
      var split := day(plan.selectionEnd);
      && r.value.winner == Winner(Training(Trial(bars, day, plan, Momentum, 1), split),
                                  Training(Trial(bars, day, plan, MeanReversion, 1), split))
      && |r.value.records| == 6 && Assessed(bars, day, plan, split, draw, r.value.records)
    ensures r.Success? ==> forall b :: b in bars ==> plan.start <= b.at < plan.end
  {
    hide RecordIs, Training, Test, Winner, HeldOutDays;
    if |bars| == 0 || |bars| > 20000 {
      return Failure(ResearchSample);
    }
    if !Adjacent(bars) {
      return Failure(ResearchOrder);
    }
    if !Inside(bars, plan) {
      return Failure(ResearchSplit);
    }
    var split := day(plan.selectionEnd);
    var records: seq<Record> := [];
    var selection: map<Candidate, seq<real>> := map[];
    for k := 0 to 6
      invariant |records| == k && Assessed(bars, day, plan, split, draw, records)
      invariant k > 0 ==> HeldOutDays(bars, day, plan) <= MAX_DAYS
      invariant k > 0 ==>
        Momentum in selection && selection[Momentum] == Training(Trial(bars, day, plan, Momentum, 1), split)
      invariant k > 3 ==>
        MeanReversion in selection
        && selection[MeanReversion] == Training(Trial(bars, day, plan, MeanReversion, 1), split)
    {
      var candidate, multiplier := CandidateAt(k), k % 3 + 1;
      EveryTrialHoldsOut(bars, day, plan, candidate, multiplier);
      var assessed :- Assess(Trial(bars, day, plan, candidate, multiplier), multiplier, split, draw);
      if multiplier == 1 {
        selection := selection[candidate := assessed.1];
      }
      records := records + [assessed.0];
    }
    r := Success(Report(Winner(selection[Momentum], selection[MeanReversion]), records));
  }

  // ----- the held-out bars do not matter -----

  /** The bars dated before the split. */
  function Pretest(bars: seq<Bar>, day: Calendar, split: int): seq<Bar> {
    if bars == [] then []
    else if day(bars[0].at) < split then [bars[0]] + Pretest(bars[1..], day, split)
    else Pretest(bars[1..], day, split)
  }

  lemma {:induction false} AdjacentOrdered(bars: seq<Bar>)
    requires Adjacent(bars)
    ensures Ordered(bars)
  {
    if |bars| > 1 {
      var n := |bars| - 1;
      AdjacentOrdered(bars[..n]);
      forall i, j | 0 <= i < j < |bars| ensures bars[i].at < bars[j].at {
        if j == n {
          assert bars[..n][i] == bars[i] && bars[..n][n - 1] == bars[n - 1];
        } else {
          assert bars[..n][i] == bars[i] && bars[..n][j] == bars[j];
        }
      }
    }
  }

  /** In ordered bars the pre-test ones form a prefix. */
  lemma {:induction false} PretestIsPrefix(bars: seq<Bar>, day: Calendar, split: int)
    requires Ordered(bars) && Monotone(day)
    ensures var n := |Pretest(bars, day, split)|;
      && n <= |bars| && Pretest(bars, day, split) == bars[..n]
      && (forall i :: 0 <= i < n ==> day(bars[i].at) < split)
      && (forall i :: n <= i < |bars| ==> day(bars[i].at) >= split)
  {
    if bars != [] {
      PretestIsPrefix(bars[1..], day, split);
      var m := |Pretest(bars[1..], day, split)|;
      if day(bars[0].at) < split {
        assert [bars[0]] + bars[1..][..m] == bars[..m + 1];
        assert forall i :: 0 < i < |bars| ==> bars[i] == bars[1..][i - 1];
      } else {
        assert forall i :: 0 < i < |bars| ==> day(bars[0].at) <= day(bars[i].at);
        assert bars[1..] == [] || day(bars[1..][0].at) >= split;
      }
    }
  }

  /** The first n bars of s are dated before the split, the rest are not. */
  ghost predicate SplitAt(s: Study, split: int, n: nat) {
    && n <= |s.bars|
    && (forall i :: 0 <= i < n ==> s.day(s.bars[i].at) < split)
    && (forall i :: n <= i < |s.bars| ==> s.day(s.bars[i].at) >= split)
  }

  function Cut(s: Study, n: nat): Study
    requires n <= |s.bars|
  {
    s.(bars := s.bars[..n])
  }

  lemma SameParts(s: Study, split: int, n: nat, i: nat)
    requires SplitAt(s, split, n) && i < n
    ensures s.Entry(i) == Cut(s, n).Entry(i) && s.Exit(i) == Cut(s, n).Exit(i)
  {
    hide EntryRow, ExitRow;
    HeldIsCausal(s, Cut(s, n), i);
    if i > 0 {
      HeldIsCausal(s, Cut(s, n), i - 1);
    }
    assert s.Contiguous(i + 1) == Cut(s, n).Contiguous(i + 1);
  }

  lemma {:induction false} SameCredit(
    days: seq<int>, days': seq<int>, parts: seq<Row>, parts': seq<Row>, d: int, n: nat)
    requires n <= |days| && n <= |days'| && n <= |parts| && n <= |parts'|
    requires forall i :: 0 <= i < n ==> days[i] == days'[i] && parts[i] == parts'[i]
    ensures Credited(days, parts, d, n) == Credited(days', parts', d, n)
  {
    if n > 0 {
      SameCredit(days, days', parts, parts', d, n - 1);
    }
  }

  lemma {:induction false} NoLaterCredit(days: seq<int>, parts: seq<Row>, d: int, n: nat, m: nat)
    requires n <= m <= |days| && m <= |parts| && forall i :: n <= i < m ==> days[i] != d
    ensures Credited(days, parts, d, m) == Credited(days, parts, d, n)
    decreases m
  {
    if n < m {
      NoLaterCredit(days, parts, d, n, m - 1);
    }
  }

  /** A training date's row is the same with the held-out bars cut away. */
  lemma TrainingRowIsLocal(s: Study, split: int, n: nat, d: int)
    requires SplitAt(s, split, n) && d < split
    ensures s.DayRow(d) == Cut(s, n).DayRow(d)
  {
    hide Study.Entry, Study.Exit;
    var c := Cut(s, n);
    forall i | 0 <= i < n
      ensures s.Entries()[i] == c.Entries()[i] && s.Exits()[i] == c.Exits()[i] && s.Days()[i] == c.Days()[i]
    {
      SameParts(s, split, n, i);
      assert s.Entries()[i] == s.Entry(i) && s.Exits()[i] == s.Exit(i);
      assert c.Entries()[i] == c.Entry(i) && c.Exits()[i] == c.Exit(i);
    }
    NoLaterCredit(s.Days(), s.Entries(), d, n, |s.bars|);
    NoLaterCredit(s.Days(), s.Exits(), d, n, |s.bars|);
    SameCredit(s.Days(), c.Days(), s.Entries(), c.Entries(), d, n);
    SameCredit(s.Days(), c.Days(), s.Exits(), c.Exits(), d, n);
  }

  lemma {:induction false} SameDates(days: seq<int>, days': seq<int>, n: nat)
    requires n <= |days| && n <= |days'| && forall i :: 0 <= i < n ==> days[i] == days'[i]
    ensures FirstSeen(days, n) == FirstSeen(days', n)
  {
    if n > 0 {
      SameDates(days, days', n - 1);
    }
  }

  lemma {:induction false} NetsExtend(s: Study, days: seq<int>, split: int, n: nat, m: nat)
    requires n <= m <= |days| && forall i :: n <= i < m ==> days[i] >= split
    ensures NetsOf(s, FirstSeen(days, m), split, true) == NetsOf(s, FirstSeen(days, n), split, true)
    decreases m
  {
    if n < m {
      NetsExtend(s, days, split, n, m - 1);
      var prior := FirstSeen(days, m - 1);
      assert (prior + [days[m - 1]])[..|prior|] == prior;
    }
  }

  lemma {:induction false} NetsAgree(s: Study, t: Study, dates: seq<int>, split: int)
    requires forall d :: d < split ==> s.DayRow(d) == t.DayRow(d)
    ensures NetsOf(s, dates, split, true) == NetsOf(t, dates, split, true)
  {
    hide Study.DayRow;
    if dates != [] {
      NetsAgree(s, t, dates[..|dates| - 1], split);
    }
  }

  /** The selection results are those of a replay that never saw the held-out bars. */
  lemma TrainingIgnoresHeldOut(s: Study, split: int, n: nat)
    requires SplitAt(s, split, n)
    ensures Training(s, split) == Training(Cut(s, n), split)
  {
    var c := Cut(s, n);
    NetsExtend(s, s.Days(), split, n, |s.bars|);
    SameDates(s.Days(), c.Days(), n);
    forall d | d < split ensures s.DayRow(d) == c.DayRow(d) {
      TrainingRowIsLocal(s, split, n, d);
    }
    NetsAgree(s, c, FirstSeen(c.Days(), n), split);
  }

  /** Two histories that agree before the split report the same rows there, whatever follows. */
  lemma SelectionIgnoresHeldOut(
    bars: seq<Bar>, other: seq<Bar>, day: Calendar, plan: Plan, candidate: Candidate, costBps: int, split: int)
    requires Adjacent(bars) && Adjacent(other) && Monotone(day)
    requires Pretest(bars, day, split) == Pretest(other, day, split)
    ensures var s, t := Study(bars, day, plan, candidate, costBps), Study(other, day, plan, candidate, costBps);
      && Training(s, split) == Training(t, split)
      && (forall d :: d < split ==> s.DayRow(d) == t.DayRow(d))
  {
    hide Study.DayRow, Training;
    AdjacentOrdered(bars);
    AdjacentOrdered(other);
    PretestIsPrefix(bars, day, split);
    PretestIsPrefix(other, day, split);
    var s, t := Study(bars, day, plan, candidate, costBps), Study(other, day, plan, candidate, costBps);
    var n := |Pretest(bars, day, split)|;
    TrainingIgnoresHeldOut(s, split, n);
    TrainingIgnoresHeldOut(t, split, n);
    assert Cut(s, n) == Cut(t, n);
    forall d | d < split ensures s.DayRow(d) == t.DayRow(d) {
      TrainingRowIsLocal(s, split, n, d);
      TrainingRowIsLocal(t, split, n, d);
    }
  }

  /** ... and so the report names the same candidate. */
  lemma WinnerIgnoresHeldOut(bars: seq<Bar>, other: seq<Bar>, day: Calendar, plan: Plan)
    requires Adjacent(bars) && Adjacent(other) && Monotone(day)
    requires Pretest(bars, day, day(plan.selectionEnd)) == Pretest(other, day, day(plan.selectionEnd))
    ensures var split := day(plan.selectionEnd);
      Winner(Training(Trial(bars, day, plan, Momentum, 1), split),
             Training(Trial(bars, day, plan, MeanReversion, 1), split)) ==
      Winner(Training(Trial(other, day, plan, Momentum, 1), split),
             Training(Trial(other, day, plan, MeanReversion, 1), split))
  {
    hide Winner, Training;
    var split := day(plan.selectionEnd);
    SelectionIgnoresHeldOut(bars, other, day, plan, Momentum, plan.costBpsPerSide * 1, split);
    SelectionIgnoresHeldOut(bars, other, day, plan, MeanReversion, plan.costBpsPerSide * 1, split);
  }
}
