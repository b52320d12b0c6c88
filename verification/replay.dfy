/**
 * Intraday replay (signal_foundry/trading/research.py) in exact arithmetic. The New York date of
 * an instant is the parameter day; instants are microseconds.
 */
module Replay {
  import opened Basics

  const MINUTE := 60_000_000

  datatype Bar = Bar(at: int, open: real, high: real, low: real, close: real, volume: real) {
    predicate Valid() {
      && open > 0.0 && high > 0.0 && low > 0.0 && close > 0.0 && volume >= 0.0
      && low <= open <= high && low <= close <= high
    }
  }

  datatype Candidate = Momentum | MeanReversion | Unknown

  datatype Plan = Plan(
    window: nat, thresholdBps: int, costBpsPerSide: int, start: int, selectionEnd: int, end: int, seed: int)
  {
    predicate Valid() {
      2 <= window <= 120 && 0 <= thresholdBps <= 100 && 1 <= costBpsPerSide <= 100
      && start < selectionEnd < end
    }
  }

  datatype ResearchError = StrategyContract | ResearchSample | ResearchOrder | ResearchSplit

  type Calendar = int -> int

  function Sum(prices: seq<real>): real {
    if prices == [] then 0.0 else Sum(prices[..|prices| - 1]) + prices[|prices| - 1]
  }

  predicate Decision(last: real, mean: real, candidate: Candidate, threshold: int)
    requires mean != 0.0
  {
    var distance := (last / mean - 1.0) * 10000.0;
    if candidate.Momentum? then distance > threshold as real else distance < -(threshold as real)
  }

  predicate AllPositive(prices: seq<real>) {
    forall i :: 0 <= i < |prices| ==> prices[i] > 0.0
  }

  lemma {:induction false} SumPositive(prices: seq<real>)
    requires AllPositive(prices)
    ensures Sum(prices) >= 0.0 && (prices != [] ==> Sum(prices) > 0.0)
  {
    if prices != [] {
      SumPositive(prices[..|prices| - 1]);
    }
  }

  /** The live rule: one whole share or none, from a complete window of closes. */
  function Target(prices: seq<real>, candidate: Candidate, threshold: int): (r: Result<real, ResearchError>)
    ensures r.Success? ==> r.value == 0.0 || r.value == 1.0
    ensures r.Success? <==> !candidate.Unknown? && |prices| >= 2 && AllPositive(prices)
  {
    if candidate.Unknown? || |prices| < 2 || !AllPositive(prices) then Failure(StrategyContract)
    else
      SumPositive(prices);
      var mean := Sum(prices) / |prices| as real;
      assert mean > 0.0;
      Success(if Decision(prices[|prices| - 1], mean, candidate, threshold) then 1.0 else 0.0)
  }

  function Closes(bars: seq<Bar>, lo: nat, hi: nat): (s: seq<real>)
    requires lo <= hi <= |bars|
    ensures |s| == hi - lo && forall k :: 0 <= k < hi - lo ==> s[k] == bars[lo + k].close
  {
    seq(hi - lo, k requires 0 <= k < hi - lo => bars[lo + k].close)
  }

  function Fee(costBps: int): real {
    costBps as real / 10000.0
  }

  datatype Row = Row(gross: real, cost: real, turnover: real, bars: real, baseline: real) {
    function Net(): real {
      gross - cost
    }

    function Plus(r: Row): Row {
      Row(gross + r.gross, cost + r.cost, turnover + r.turnover, bars + r.bars, baseline + r.baseline)
    }
  }

  const ZERO := Row(0.0, 0.0, 0.0, 0.0, 0.0)

  function Scale(position: real, value: real): real {
    position * value
  }

  function Charge(value: real, fee: real): real {
    value * fee
  }

  /** Marking a bar to market and trading at its open; reference is the close it continues, if any. */
  function EntryRow(bar: Bar, reference: Option<real>, carried: real, held: real, fee: real): Row {
    var traded := Scale(Abs(held - carried), bar.open);
    match reference
    case Some(close) =>
      Row(Scale(carried, bar.open - close) + Scale(held, bar.close - bar.open), Charge(traded, fee), traded, 1.0,
        bar.close - bar.open + (bar.open - close))
    case None =>
      Row(Scale(held, bar.close - bar.open), Charge(traded, fee), traded, 1.0,
        bar.close - bar.open - Charge(bar.open, fee))
  }

  /** Liquidating at a close that nothing contiguous follows. */
  function ExitRow(close: real, held: real, fee: real): Row {
    Row(0.0, Scale(held, Charge(close, fee)), Scale(held, close), 0.0, -Charge(close, fee))
  }

  /** What the parts credited to date d among the first n add up to. */
  function Credited(days: seq<int>, parts: seq<Row>, d: int, n: nat): Row
    requires n <= |days| && n <= |parts|
  {
    if n == 0 then ZERO
    else Credited(days, parts, d, n - 1).Plus(if days[n - 1] == d then parts[n - 1] else ZERO)
  }

  /** Dates in order of first appearance among the first n. */
  function FirstSeen(days: seq<int>, n: nat): (ds: seq<int>)
    requires n <= |days|
  {
    if n == 0 then []
    else
      var prior := FirstSeen(days, n - 1);
      if days[n - 1] in prior then prior else prior + [days[n - 1]]
  }

  /** One replay: the bars, their calendar, the frozen plan, a candidate and its cost per side. */
  datatype Study = Study(bars: seq<Bar>, day: Calendar, plan: Plan, candidate: Candidate, costBps: int) {

    ghost predicate Valid() {
      (forall b :: b in bars ==> b.Valid()) && plan.Valid() && !candidate.Unknown?
    }

    function Days(): (ds: seq<int>)
      ensures |ds| == |bars| && forall i :: 0 <= i < |bars| ==> ds[i] == day(bars[i].at)
    {
      seq(|bars|, i requires 0 <= i < |bars| => day(bars[i].at))
    }

    /** Bar i continues bar i - 1: one minute later, on the same date. */
    predicate Contiguous(i: int) {
      0 < i < |bars| && bars[i].at - bars[i - 1].at == MINUTE && day(bars[i].at) == day(bars[i - 1].at)
    }

    /** The last window bars before i lead up to i without a gap. */
    predicate Warm(i: int) {
      plan.window <= i && forall j :: i - plan.window < j <= i ==> Contiguous(j)
    }

    /** The position held from the open of bar i: the live rule on the window just completed. */
    function Held(i: nat): (p: real)
      requires i < |bars|
      ensures p == 0.0 || p == 1.0
    {
      if Warm(i) then
        match Target(Closes(bars, i - plan.window, i), candidate, plan.thresholdBps)
        case Success(p) => p
        case Failure(_) => 0.0
      else 0.0
    }

    /** The position carried into bar i; a gap or a new date has liquidated it. */
    function Carried(i: nat): (p: real)
      requires i < |bars|
      ensures p == 0.0 || p == 1.0
    {
      if Contiguous(i) then Held(i - 1) else 0.0
    }

    function Entry(i: nat): Row
      requires i < |bars|
    {
      EntryRow(bars[i], if Contiguous(i) then Some(bars[i - 1].close) else None, Carried(i), Held(i), Fee(costBps))
    }

    function Exit(i: nat): Row
      requires i < |bars|
    {
      if Contiguous(i + 1) then ZERO else ExitRow(bars[i].close, Held(i), Fee(costBps))
    }

    function Entries(): (rs: seq<Row>)
      ensures |rs| == |bars| && forall i :: 0 <= i < |bars| ==> rs[i] == Entry(i)
    {
      seq(|bars|, i requires 0 <= i < |bars| => Entry(i))
    }

    function Exits(): (rs: seq<Row>)
      ensures |rs| == |bars| && forall i :: 0 <= i < |bars| ==> rs[i] == Exit(i)
    {
      seq(|bars|, i requires 0 <= i < |bars| => Exit(i))
    }

    /** The report's dates, and its row for one of them. */
    function Dates(): seq<int> {
      FirstSeen(Days(), |bars|)
    }

    function DayRow(d: int): Row {
      Credited(Days(), Entries(), d, |bars|).Plus(Credited(Days(), Exits(), d, |bars|))
    }

    /** How the bounded window stands before bar n: the closes since the last gap, as far as they fit. */
    ghost predicate WindowAt(window: seq<real>, n: nat)
      requires n <= |bars|
    {
      && |window| <= plan.window && |window| <= n
      && window == Closes(bars, n - |window|, n)
      && (forall j :: n - |window| < j < n ==> Contiguous(j))
      && (|window| < plan.window && |window| < n ==> !Contiguous(n - |window|))
    }
  }

  function Push(window: seq<real>, close: real, w: nat): seq<real>
    requires w > 0
  {
    (if |window| == w then window[1..] else window) + [close]
  }

  lemma PushKeepsWindow(s: Study, window: seq<real>, n: nat)
    requires n < |s.bars| && s.plan.window > 0 && s.WindowAt(window, n)
    requires window != [] ==> s.Contiguous(n)
    ensures s.WindowAt(Push(window, s.bars[n].close, s.plan.window), n + 1)
  {
    var pushed := Push(window, s.bars[n].close, s.plan.window);
    assert pushed == Closes(s.bars, n + 1 - |pushed|, n + 1);
  }

  lemma {:induction false} SumDropFirst(prices: seq<real>)
    requires prices != []
    ensures Sum(prices) == prices[0] + Sum(prices[1..])
  {
    var n := |prices| - 1;
    if n > 0 {
      assert prices[..n][1..] == prices[1..][..n - 1];
      SumDropFirst(prices[..n]);
    }
  }

  lemma PushSum(window: seq<real>, close: real, w: nat)
    requires w > 0
    ensures Sum(Push(window, close, w)) == Sum(window) - (if |window| == w then window[0] else 0.0) + close
  {
    var kept := if |window| == w then window[1..] else window;
    assert (kept + [close])[..|kept|] == kept;
    if |window| == w {
      SumDropFirst(window);
    }
  }

  lemma ClosesPositive(bars: seq<Bar>, lo: nat, hi: nat)
    requires (forall b :: b in bars ==> b.Valid()) && lo <= hi <= |bars|
    ensures AllPositive(Closes(bars, lo, hi))
    ensures lo < hi ==> Sum(Closes(bars, lo, hi)) > 0.0
  {
    forall k | 0 <= k < hi - lo ensures Closes(bars, lo, hi)[k] > 0.0 {
      assert bars[lo + k] in bars;
    }
    SumPositive(Closes(bars, lo, hi));
  }

  /** What the replay proposes from its deque and rolling sum. */
  function Proposed(window: seq<real>, rollingSum: real, plan: Plan, candidate: Candidate): real
    requires |window| == plan.window && plan.window > 0 ==> rollingSum > 0.0
  {
    if |window| == plan.window && plan.window > 0
       && Decision(window[|window| - 1], rollingSum / plan.window as real, candidate, plan.thresholdBps)
    then 1.0 else 0.0
  }

  /** A full window with its rolling sum decides as the live rule does. */
  lemma FullWindowIsLive(s: Study, window: seq<real>, n: nat)
    requires s.Valid() && n < |s.bars| && s.WindowAt(window, n)
    requires if s.Contiguous(n) then window != [] else window == []
    ensures |window| == s.plan.window ==> Sum(window) > 0.0
    ensures Proposed(window, Sum(window), s.plan, s.candidate) == s.Held(n)
  {
    hide Decision, Sum;
    ClosesPositive(s.bars, n - |window|, n);
    if |window| == s.plan.window {
      assert s.Warm(n);
    } else {
      assert !s.Contiguous(n - |window|) || |window| == n;
    }
  }

  function Add(rows: map<int, Row>, d: int, r: Row): map<int, Row>
    requires d in rows
  {
    rows[d := rows[d].Plus(r)]
  }

  /** One bar exits on date p and another enters on date d. */
  ghost predicate Stepped(before: map<int, Row>, after: map<int, Row>, p: int, exit: Row, d: int, entry: Row) {
    && after.Keys == before.Keys
    && (forall x :: x in before ==>
          after[x] == before[x].Plus(if x == p then exit else ZERO).Plus(if x == d then entry else ZERO))
  }

  /** A flat position has nothing to liquidate, a whole share exits at the close. */
  lemma ExitParts(close: real, position: real, fee: real)
    requires position == 0.0 || position == 1.0
    ensures ExitRow(close, position, fee) ==
      if position != 0.0 then Row(0.0, Charge(close, fee), close, 0.0, -Charge(close, fee))
      else Row(0.0, 0.0, 0.0, 0.0, -Charge(close, fee))
  {
  }

  /**
   * Books bar on date d: first the gap liquidation of the previous bar on its own date p, unless
   * the bar continues it, then the marks and the trade at the open.
   */
  method PostBar(
    before: map<int, Row>, p: int, prior: Option<Bar>, contiguous: bool, position: real,
    d: int, bar: Bar, proposed: real, fee: real)
    returns (rows: map<int, Row>)
    requires d in before && p in before && (contiguous ==> prior.Some?)
    requires position == 0.0 || (position == 1.0 && prior.Some?)
    ensures Stepped(before, rows,
              p, if prior.Some? && !contiguous then ExitRow(prior.value.close, position, fee) else ZERO,
              d, EntryRow(bar, if contiguous then Some(prior.value.close) else None,
                          if contiguous then position else 0.0, proposed, fee))
  {
    hide Scale, Charge;
    if prior.Some? {
      ExitParts(prior.value.close, position, fee);
    }
    rows := before;
    var carried := position;
    if !contiguous {
      if prior.Some? && position != 0.0 {
        rows := Add(rows, p, Row(0.0, Charge(prior.value.close, fee), prior.value.close, 0.0, 0.0));
      }
      carried := 0.0;
    } else {
      rows := Add(rows, d, Row(Scale(carried, bar.open - prior.value.close), 0.0, 0.0, 0.0, 0.0));
    }
    var turnover := Scale(Abs(proposed - carried), bar.open);
    rows := Add(rows, d, Row(
      Scale(proposed, bar.close - bar.open), Charge(turnover, fee), turnover, 0.0,
      (bar.close - bar.open) + (if contiguous then bar.open - prior.value.close else -Charge(bar.open, fee))));
    if prior.Some? && !contiguous {
      rows := Add(rows, p, Row(0.0, 0.0, 0.0, 0.0, -Charge(prior.value.close, fee)));
    }
    rows := Add(rows, d, Row(0.0, 0.0, 0.0, 1.0, 0.0));
  }

  /** The rows once n bars have entered and m of them have exited. */
  ghost predicate RowsAt(days: seq<int>, entries: seq<Row>, exits: seq<Row>, rows: map<int, Row>, n: nat, m: nat)
    requires n <= |days| == |entries| == |exits| && m <= n
  {
    forall d :: d in rows ==> rows[d] == Credited(days, entries, d, n).Plus(Credited(days, exits, d, m))
  }

  lemma {:induction false} NothingYet(days: seq<int>, parts: seq<Row>, d: int, n: nat)
    requires n <= |days| && n <= |parts| && d !in FirstSeen(days, n)
    ensures Credited(days, parts, d, n) == ZERO
  {
    if n > 0 {
      NothingYet(days, parts, d, n - 1);
    }
  }

  lemma StepRows(
    days: seq<int>, entries: seq<Row>, exits: seq<Row>, before: map<int, Row>, after: map<int, Row>, n: nat)
    requires n < |days| == |entries| == |exits|
    requires RowsAt(days, entries, exits, before, n, if n == 0 then 0 else n - 1)
    requires Stepped(before, after,
               if n > 0 then days[n - 1] else days[n], if n > 0 then exits[n - 1] else ZERO, days[n], entries[n])
    ensures RowsAt(days, entries, exits, after, n + 1, n)
  {
  }

  /** Proposes a position for bar n from the window before it, then slides the window over its close. */
  method Advance(s: Study, n: nat, contiguous: bool, before: seq<real>, sumBefore: real)
    returns (proposed: real, window: seq<real>, rollingSum: real)
    requires s.Valid() && n < |s.bars| && contiguous == s.Contiguous(n)
    requires s.WindowAt(before, n) && (n > 0 ==> before != []) && sumBefore == Sum(before)
    ensures proposed == s.Held(n)
    ensures s.WindowAt(window, n + 1) && window != [] && rollingSum == Sum(window)
  {
    window, rollingSum := before, sumBefore;
    if !contiguous {
      window, rollingSum := [], 0.0;
    }
    FullWindowIsLive(s, window, n);
    proposed := Proposed(window, rollingSum, s.plan, s.candidate);
    PushKeepsWindow(s, window, n);
    PushSum(window, s.bars[n].close, s.plan.window);
    if |window| == s.plan.window {
      rollingSum := rollingSum - window[0];
    }
    rollingSum := rollingSum + s.bars[n].close;
    window := Push(window, s.bars[n].close, s.plan.window);
  }

  /** The last bar exits at the end of the data. */
  lemma LastExit(days: seq<int>, entries: seq<Row>, exits: seq<Row>, before: map<int, Row>, n: nat)
    requires n < |days| == |entries| == |exits| && days[n] in before
    requires RowsAt(days, entries, exits, before, n + 1, n)
    ensures RowsAt(days, entries, exits, Add(before, days[n], exits[n]), n + 1, n + 1)
  {
  }

  lemma FinalExit(s: Study)
    requires s.bars != []
    ensures var i := |s.bars| - 1;
      s.Exit(i) == ExitRow(s.bars[i].close, s.Held(i), Fee(s.costBps))
  {
  }

  /** What PostBar books are the entry of bar n and the exit of the bar before it. */
  lemma BookedBars(s: Study, n: nat, contiguous: bool, position: real, proposed: real)
    requires n < |s.bars| && contiguous == s.Contiguous(n) && proposed == s.Held(n)
    requires position == if n == 0 then 0.0 else s.Held(n - 1)
    ensures s.Entries()[n] ==
      EntryRow(s.bars[n], if contiguous then Some(s.bars[n - 1].close) else None,
        if contiguous then position else 0.0, proposed, Fee(s.costBps))
    ensures n > 0 ==>
      (s.Exits()[n - 1] == if contiguous then ZERO else ExitRow(s.bars[n - 1].close, position, Fee(s.costBps)))
  {
    hide EntryRow, ExitRow, Study.Held;
    assert s.Entries()[n] == s.Entry(n);
    assert n > 0 ==> s.Exits()[n - 1] == s.Exit(n - 1);
  }

  /** The report so far: n bars have entered, all but the last of them have exited. */
  ghost predicate Booked(s: Study, dates: seq<int>, rows: map<int, Row>, n: nat)
    requires n <= |s.bars|
  {
    && dates == FirstSeen(s.Days(), n) && rows.Keys == (set d | d in dates)
    && RowsAt(s.Days(), s.Entries(), s.Exits(), rows, n, if n == 0 then 0 else n - 1)
  }

  /** Books bar n, opening its date when it is the first there. */
  method BookBar(
    s: Study, n: nat, contiguous: bool, position: real, proposed: real,
    datesBefore: seq<int>, rowsBefore: map<int, Row>)
    returns (dates: seq<int>, rows: map<int, Row>)
    requires n < |s.bars| && contiguous == s.Contiguous(n) && proposed == s.Held(n)
    requires position == if n == 0 then 0.0 else s.Held(n - 1)
    requires Booked(s, datesBefore, rowsBefore, n)
    ensures Booked(s, dates, rows, n + 1)
  {
    hide EntryRow, ExitRow, Study.Entry, Study.Exit, Study.Held;
    dates, rows := datesBefore, rowsBefore;
    ghost var days, entries, exits := s.Days(), s.Entries(), s.Exits();
    var d := s.day(s.bars[n].at);
    if d !in rows {
      NothingYet(days, entries, d, n);
      NothingYet(days, exits, d, n);
      assert (set x | x in dates + [d]) == (set x | x in dates) + {d};
      dates, rows := dates + [d], rows[d := ZERO];
    }
    ghost var before := rows;
    rows := PostBar(
      rows, if n > 0 then s.day(s.bars[n - 1].at) else d, if n > 0 then Some(s.bars[n - 1]) else None,
      contiguous, position, d, s.bars[n], proposed, Fee(s.costBps));
    BookedBars(s, n, contiguous, position, proposed);
    StepRows(days, entries, exits, before, rows, n);
  }

  /**
   * Replays one-share positions. The bounded deque and its rolling sum decide exactly as the live
   * rule does, and every date's row is the sum of what its bars entered and exited.
   */
  method DailyPnl(s: Study) returns (dates: seq<int>, rows: map<int, Row>)
    requires s.Valid()
    ensures dates == s.Dates() && rows.Keys == set d | d in dates
    ensures forall d :: d in dates ==> rows[d] == s.DayRow(d)
  {
    hide EntryRow, ExitRow, Study.Entry, Study.Exit, Study.Held;
    dates, rows := [], map[];
    var window: seq<real> := [];
    var rollingSum := 0.0;
    var position := 0.0;
    for n := 0 to |s.bars|
      invariant Booked(s, dates, rows, n)
      invariant position == if n == 0 then 0.0 else s.Held(n - 1)
      invariant s.WindowAt(window, n) && (n > 0 ==> window != []) && rollingSum == Sum(window)
    {
      var contiguous := n > 0 && s.bars[n].at - s.bars[n - 1].at == MINUTE
                        && s.day(s.bars[n].at) == s.day(s.bars[n - 1].at);
      var proposed;
      proposed, window, rollingSum := Advance(s, n, contiguous, window, rollingSum);
      dates, rows := BookBar(s, n, contiguous, position, proposed, dates, rows);
      position := proposed;
    }
    if |s.bars| > 0 {
      var last := s.bars[|s.bars| - 1];
      FinalExit(s);
      LastExit(s.Days(), s.Entries(), s.Exits(), rows, |s.bars| - 1);
      rows := Add(rows, s.day(last.at), ExitRow(last.close, position, Fee(s.costBps)));
    }
  }
}
