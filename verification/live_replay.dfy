/** The live decision of the paper engine against a later replay of the same minutes. */
module LiveReplay {
  import opened Basics
  import opened PaperModels
  import opened PaperInputs
  import Replay
  import ReplayTheorems
  import CycleLaws

  /** The study replays the engine's own rule. */
  predicate SameRule(c: Config, s: Replay.Study) {
    && s.plan.window == c.window && s.plan.thresholdBps == c.thresholdBps
    && s.candidate == if c.momentum then Replay.Momentum else Replay.MeanReversion
  }

  /** Bar i of the study starts the decided minute, and the bars before it are the ones the engine was given. */
  predicate SameBars(m: Market, s: Replay.Study, i: nat)
    requires m.bars.Answer?
  {
    var bars := m.bars.value;
    && |bars| <= i < |s.bars| && s.bars[i].at == m.Minute()
    && forall k :: 0 <= k < |bars| ==>
         s.bars[i - |bars| + k].at == bars[k].at && s.bars[i - |bars| + k].close == bars[k].close
  }

  /** Dates only change between minutes. */
  ghost predicate WholeMinutes(day: int -> int) {
    forall t: int :: day(t) == day(t - t % Replay.MINUTE)
  }

  /** Passing the market checks, the engine's bars are a complete gap-free window of one session. */
  lemma FaultlessIsWarm(c: Config, m: Market, s: Replay.Study, i: nat)
    requires MarketFault(c, m, s.day).None?
    requires SameRule(c, s) && SameBars(m, s, i) && WholeMinutes(s.day)
    ensures |m.bars.value| == c.window && i < |s.bars| && s.Warm(i)
    ensures Replay.Closes(s.bars, i - c.window, i) == m.Closes()
  {
    var w, bars := c.window, m.bars.value;
    assert s.day(m.Minute()) == s.day(m.now);
    forall j | i - w < j <= i ensures s.Contiguous(j) {
      var k := j - (i - w);
      assert bars[k - 1] in bars;
      assert s.bars[j - 1].at == bars[k - 1].at;
      if j < i {
        assert bars[k] in bars;
        assert s.bars[j].at == bars[k].at;
      }
    }
  }

  /**
   * What the engine decides is what the replay holds from the open of that minute, except that the
   * engine goes flat in the last ten minutes of the session, which the replay does not know about.
   */
  lemma LiveDecisionIsReplayed(c: Config, m: Market, s: Replay.Study, i: nat)
    requires s.Valid() && MarketFault(c, m, s.day).None?
    requires SameRule(c, s) && SameBars(m, s, i) && WholeMinutes(s.day)
    ensures LiveTarget(c, m) == Some(s.Held(i) == 1.0 && m.clock.value.nextClose - m.now > 600 * SECOND)
    ensures LiveTarget(c, m) != Some(s.Held(i) == 1.0) <==>
      s.Held(i) == 1.0 && m.clock.value.nextClose - m.now <= 600 * SECOND
  {
    hide MarketFault, SameBars;
    FaultlessIsWarm(c, m, s, i);
    ReplayTheorems.WarmIsTarget(s, i);
    hide Replay.Target;
  }

  /** The replayed share in the configured quantity, and nothing near the close. */
  function Expected(c: Config, m: Market, s: Replay.Study, i: nat): real
    requires m.clock.Answer? && i < |s.bars|
  {
    if m.clock.value.nextClose - m.now > 600 * SECOND then c.quantity * s.Held(i) else 0.0
  }

  lemma ExpectedIsTheGoal(c: Config, m: Market, s: Replay.Study, i: nat)
    requires s.Valid() && MarketFault(c, m, s.day).None? && LiveTarget(c, m).Some?
    requires SameRule(c, s) && SameBars(m, s, i) && WholeMinutes(s.day)
    ensures Expected(c, m, s, i) == CycleLaws.Goal(c, m)
  {
    hide MarketFault, LiveTarget, WholeMinutes, Replay.Study.Held;
    LiveDecisionIsReplayed(c, m, s, i);
    assert s.Held(i) == 0.0 || s.Held(i) == 1.0;
  }

  /** A fully filled order of the engine holds exactly that, and no order is sent exactly when it is held already. */
  lemma PositionIsReplayed(
    c: Config, book: Book, symbol: Symbol, clientId: (Symbol, int) -> Id, x: Inputs, s: Replay.Study, i: nat)
    requires s.Valid() && x.day == s.day && Decides(c, book, symbol, x)
    requires SameRule(c, s) && SameBars(x.market, s, i) && WholeMinutes(s.day)
    ensures var held := x.before.second.value.Held(symbol);
      && (Holds(c, book, symbol, x) <==> held == Expected(c, x.market, s, i))
      && (!Holds(c, book, symbol, x) ==>
            held + CycleLaws.Added(Chosen(c, symbol, clientId, x)) == Expected(c, x.market, s, i))
  {
    hide MarketFault, LiveTarget, Chosen, Holds, WholeMinutes, Expected, CycleLaws.Goal, CycleLaws.Added, SameRule,
      SameBars, Reconciles;
    DecidesOnMarket(c, book, symbol, x);
    ExpectedIsTheGoal(c, x.market, s, i);
    CycleLaws.HoldsMeans(c, book, symbol, x);
    if !Holds(c, book, symbol, x) {
      CycleLaws.ChosenReachesTheGoal(c, symbol, clientId, x);
    }
  }

  lemma DecidesOnMarket(c: Config, book: Book, symbol: Symbol, x: Inputs)
    requires Decides(c, book, symbol, x)
    ensures x.before.second.Answer? && MarketFault(c, x.market, x.day).None? && LiveTarget(c, x.market).Some?
  {
    hide MarketFault, LiveTarget, Reconciles;
  }
}
