/** What the conditions and choices of a cycle mean, said in the market's and the account's own terms. */
module CycleLaws {
  import opened Basics
  import opened PaperModels
  import opened PaperProtocol
  import opened PaperInputs
  import PaperTheorems
  import Replay
  import RuleLaws

  // ----- the market -----

  /** The decided minute is the whole minute that now lies in. */
  lemma MinuteMeans(m: Market)
    ensures m.Minute() <= m.now < m.Minute() + 60_000_000 && m.Minute() % 60_000_000 == 0
  {
  }

  /** Clock, quote and spread are acceptable. */
  predicate Quotable(c: Config, m: Market)
    requires m.Complete()
  {
    var clock, quote := m.clock.value, m.quote.value;
    && clock.isOpen && -5_000_000 <= m.now - clock.at <= 5_000_000
    && quote.at <= m.now <= quote.at + c.quoteAge * 1_000_000
    && 10000.0 * (quote.ask - quote.bid) <= c.maximumSpreadBps * quote.bid
  }

  /** The bars are the last window whole minutes before the decided one, in one session of one date. */
  predicate Windowed(c: Config, m: Market, day: int -> int)
    requires m.Complete()
  {
    var bars, session := m.bars.value, m.session.value;
    && |bars| == c.window && bars != [] && m.now < session.closing
    && forall i :: 0 <= i < |bars| ==>
         && bars[i].at == m.Minute() - (|bars| - i) * 60_000_000
         && session.opening <= bars[i].at && day(bars[i].at) == day(m.now)
  }

  lemma SpreadMeans(quote: Quote, limit: real)
    requires quote.Valid()
    ensures (quote.ask - quote.bid) / quote.bid * 10000.0 > limit <==>
      10000.0 * (quote.ask - quote.bid) > limit * quote.bid
  {
    var ratio := (quote.ask - quote.bid) / quote.bid;
    assert ratio * quote.bid == quote.ask - quote.bid;
    RuleLaws.Ordered(ratio * 10000.0, limit, quote.bid);
    assert ratio * 10000.0 * quote.bid == 10000.0 * (ratio * quote.bid);
  }

  /** Bars a minute apart, the last of them a minute before the decided one, are where Windowed has them. */
  lemma {:induction false} MinutesApart(bars: seq<Tick>, minute: int, i: nat)
    requires i < |bars| && bars[|bars| - 1].at + Replay.MINUTE == minute
    requires forall k :: 0 < k < |bars| ==> bars[k].at - bars[k - 1].at == Replay.MINUTE
    ensures bars[i].at == minute - (|bars| - i) * 60_000_000
    decreases |bars| - i
  {
    if i < |bars| - 1 {
      MinutesApart(bars, minute, i + 1);
      assert bars[i + 1].at - bars[i].at == Replay.MINUTE;
    }
  }

  lemma WindowMeans(c: Config, m: Market, day: int -> int)
    requires m.Complete()
    ensures WindowFault(c, m, m.bars.value, m.session.value, day).None? <==> Windowed(c, m, day)
  {
    hide Market.Minute;
    var bars, session := m.bars.value, m.session.value;
    if WindowFault(c, m, bars, session, day).None? {
      forall i | 0 <= i < |bars|
        ensures bars[i].at == m.Minute() - (|bars| - i) * 60_000_000
        ensures session.opening <= bars[i].at && day(bars[i].at) == day(m.now)
      {
        MinutesApart(bars, m.Minute(), i);
        assert bars[i] in bars;
      }
    }
    if Windowed(c, m, day) {
      forall i | 0 < i < |bars| ensures bars[i].at - bars[i - 1].at == Replay.MINUTE {
        assert bars[i].at == m.Minute() - (|bars| - i) * 60_000_000;
        assert bars[i - 1].at == m.Minute() - (|bars| - (i - 1)) * 60_000_000;
      }
    }
  }

  /** A market has no fault exactly when every read answers, the quote is fresh and tight, and the window complete. */
  lemma FaultlessMeans(c: Config, m: Market, day: int -> int)
    ensures MarketFault(c, m, day).None? <==> m.Complete() && Quotable(c, m) && Windowed(c, m, day)
  {
    hide WindowFault, Windowed, Market.Minute;
    if m.Complete() {
      WindowMeans(c, m, day);
      SpreadMeans(m.quote.value, c.maximumSpreadBps);
    }
  }

  /** A fault names the check that failed. */
  lemma FaultNamesTheCheck(c: Config, m: Market, day: int -> int)
    ensures match MarketFault(c, m, day)
      case None => m.Complete()
      case Some(MarketSession) =>
        m.clock.Answer? && !(m.clock.value.isOpen && -5_000_000 <= m.now - m.clock.value.at <= 5_000_000)
      case Some(StaleQuote) =>
        m.quote.Answer? && !(m.quote.value.at <= m.now <= m.quote.value.at + c.quoteAge * 1_000_000)
      case Some(SpreadLimit) =>
        m.quote.Answer? && 10000.0 * (m.quote.value.ask - m.quote.value.bid) > c.maximumSpreadBps * m.quote.value.bid
      case Some(FeatureSession) =>
        m.session.Answer? && m.bars.Answer?
        && (m.now >= m.session.value.closing || exists b :: b in m.bars.value && b.at < m.session.value.opening)
      case Some(FeatureFreshness) => m.bars.Answer? && (|m.bars.value| == c.window ==>
          m.bars.value == [] || m.bars.value[|m.bars.value| - 1].at != m.Minute() - 60_000_000
          || exists b :: b in m.bars.value && day(b.at) != day(m.now))
      case Some(FeatureGap) => m.bars.Answer? && exists i :: 0 < i < |m.bars.value|
                                                          && m.bars.value[i].at - m.bars.value[i - 1].at != 60_000_000
      case Some(e) => e.PaperContract? && !m.Complete()
  {
    if m.quote.Answer? && m.quote.value.Valid() {
      SpreadMeans(m.quote.value, c.maximumSpreadBps);
    }
  }

  /** The engine wants the share exactly when its own candidate's rule does, more than ten minutes before the close. */
  lemma LiveTargetMeans(c: Config, m: Market)
    requires m.Complete()
    ensures LiveTarget(c, m).Some? <==> |m.bars.value| >= 2 && Replay.AllPositive(m.Closes())
    ensures LiveTarget(c, m).Some? ==>
      (LiveTarget(c, m).value <==>
        && m.now + 10 * 60_000_000 < m.clock.value.nextClose
        && if c.momentum then RuleLaws.RisesBeyond(m.Closes(), c.thresholdBps)
           else RuleLaws.FallsBeyond(m.Closes(), c.thresholdBps))
  {
    hide RuleLaws.RisesBeyond, RuleLaws.FallsBeyond, Replay.AllPositive;
    if |m.Closes()| >= 2 && Replay.AllPositive(m.Closes()) {
      RuleLaws.TargetMeans(m.Closes(), c.thresholdBps);
    }
    hide Replay.Target;
  }

  // ----- the order -----

  /** Shares of the symbol that the decision calls for. */
  function Goal(c: Config, m: Market): real
    requires m.Complete() && LiveTarget(c, m).Some?
  {
    if LiveTarget(c, m).value then c.quantity else 0.0
  }

  lemma GapMeans(c: Config, account: Account, symbol: Symbol, m: Market)
    requires m.Complete() && LiveTarget(c, m).Some?
    ensures account.Held(symbol) + Delta(c, account, symbol, LiveTarget(c, m).value) == Goal(c, m)
  {
    hide LiveTarget;
  }

  /** Shares that a full fill adds. */
  function Added(intent: Intent): real {
    match intent.side
    case Buy => intent.quantity
    case Sell => -intent.quantity
  }

  predicate WholeCents(price: real) {
    price * 100.0 == (price * 100.0).Floor as real
  }

  /**
   * A chosen order, fully filled, takes the position held exactly to what the rule calls for. It buys
   * at no more than the ask, or sells at the bid, in whole cents and less than one away.
   */
  lemma ChosenReachesTheGoal(c: Config, symbol: Symbol, clientId: (Symbol, int) -> Id, x: Inputs)
    requires x.before.second.Answer? && x.market.Complete() && LiveTarget(c, x.market).Some?
    requires x.before.second.value.Held(symbol) != Goal(c, x.market)
    ensures var intent := Chosen(c, symbol, clientId, x);
      && intent.symbol == symbol && intent.id == clientId(symbol, x.market.Minute()) && intent.quantity > 0.0
      && x.before.second.value.Held(symbol) + Added(intent) == Goal(c, x.market)
      && WholeCents(intent.limitPrice)
      && var reference := if intent.side.Buy? then x.market.quote.value.ask else x.market.quote.value.bid;
         intent.limitPrice <= reference < intent.limitPrice + 0.01
  {
    hide LiveTarget;
    var delta := Delta(c, x.before.second.value, symbol, LiveTarget(c, x.market).value);
    var quote := x.market.quote.value;
    var price := if delta > 0.0 then quote.ask else quote.bid;
    assert Limit(quote, delta) == (price * 100.0).Floor as real / 100.0;
  }

  /** A cycle finds nothing to do exactly when the position that the rule calls for is held. */
  lemma HoldsMeans(c: Config, book: Book, symbol: Symbol, x: Inputs)
    requires Decides(c, book, symbol, x)
    ensures Holds(c, book, symbol, x) <==> x.before.second.value.Held(symbol) == Goal(c, x.market)
  {
    hide Decides, LiveTarget;
  }

  /** Every limit, in terms of what a full fill would do and of how old quote and account are. */
  lemma TradableMeans(
    c: Config, rows: map<Id, Row>, symbol: Symbol, clientId: (Symbol, int) -> Id, x: Inputs)
    requires x.before.second.Answer? && x.market.Complete() && LiveTarget(c, x.market).Some?
    requires x.before.second.value.Held(symbol) != Goal(c, x.market)
    ensures var account, intent := x.before.second.value, Chosen(c, symbol, clientId, x);
      var notional := intent.quantity * intent.limitPrice;
      Tradable(c, rows, account, Delta(c, account, symbol, LiveTarget(c, x.market).value), intent, x) <==>
        && intent.limitPrice > 0.0 && notional <= c.maximumOrderNotional
        && (match intent.side
            case Buy =>
              && account.cash - notional >= 0.0 && account.buyingPower - notional >= 0.0
              && account.MarketValue() + notional <= c.maximumPositionNotional
            case Sell =>
              && account.Held(symbol) - intent.quantity >= 0.0
              && account.MarketValue() <= c.maximumPositionNotional)
        && |rows| + 1 <= c.maxOrders && intent.id !in rows
        && x.boundAgain && c.enabled && !x.landed2
        && x.market.quote.value.at <= x.dispatchAt <= x.market.quote.value.at + c.quoteAge * 1_000_000
        && account.observedAt <= x.dispatchAt <= account.observedAt + 15 * 1_000_000
        && x.dispatchAt < x.market.session.value.closing
  {
    hide LiveTarget, Limit;
  }

  // ----- cancellation -----

  /** Whatever still works at the broker belongs to a row not known to be finished, and honest answers show it. */
  lemma WorkingIsShown(c: Config, script: seq<Action>, lookup: Id -> Reply<Option<Order>>)
    requires c.Valid() && Legal(c, Init(), script)
    requires var w := Run(c, Init(), script); AllHonest(w.orders, w.book.rows, lookup)
    ensures var w := Run(c, Init(), script);
      forall id :: id in w.orders && !w.orders[id].state.Terminal() ==>
        && id in w.book.rows && w.book.rows[id].Open()
        && (lookup(id).Answer? && lookup(id).value.Some? ==> !lookup(id).value.value.state.Terminal())
  {
    hide Legal, Run, Honest;
    PaperTheorems.Reachable(c, script);
    var w := Run(c, Init(), script);
    forall id | id in w.orders && !w.orders[id].state.Terminal()
      ensures id in w.book.rows && w.book.rows[id].Open()
      ensures lookup(id).Answer? && lookup(id).value.Some? ==> !lookup(id).value.value.state.Terminal()
    {
      PaperTheorems.WorkingIsSeen(c, w, id, Heard(lookup(id)));
    }
  }
}
