/** Safety of every run of the paper order protocol, stated over the broker's own books. */
module PaperTheorems {
  import opened Basics
  import opened PaperModels
  import opened PaperProtocol
  import opened PaperSafety

  /** The broker's orders, as if each had just been observed. */
  ghost function Actual(orders: map<Id, Order>): (rows: map<Id, Row>)
    ensures rows.Keys == orders.Keys
  {
    map id | id in orders :: Row(orders[id].intent, Some(orders[id]))
  }

  /** The broker's true net position in a symbol, from its own cumulative fills. */
  ghost function TruePosition(orders: map<Id, Order>, s: Symbol): real {
    Net(Actual(orders), orders.Keys, s)
  }

  /** The baseline less everything the broker has really filled. */
  ghost function TrueCash(baseline: Account, orders: map<Id, Order>): real {
    baseline.cash - Spent(Actual(orders), orders.Keys)
  }

  lemma ActualMore(orders: map<Id, Order>, id: Id, order: Order)
    ensures Actual(orders[id := order]) == Actual(orders)[id := Row(order.intent, Some(order))]
    ensures orders[id := order].Keys == orders.Keys + {id}
  {
  }

  lemma BooksExtend(baseline: Account, orders: map<Id, Order>, id: Id, order: Order, s: Symbol)
    requires id !in orders
    ensures var row := Row(order.intent, Some(order));
      && TruePosition(orders[id := order], s) == TruePosition(orders, s) + RowNet(row, s)
      && TrueCash(baseline, orders[id := order]) == TrueCash(baseline, orders) - RowSpent(row)
  {
    hide Net, Spent, RowNet, RowSpent;
    ActualMore(orders, id, order);
    var row := Row(order.intent, Some(order));
    NetExtend(Actual(orders), orders.Keys, id, row, s);
    SpentExtend(Actual(orders), orders.Keys, id, row);
    hide Actual;
  }

  lemma ObservedRow(order: Order, s: Symbol)
    requires order.Valid()
    ensures var row, shares :=
        Row(order.intent, Some(order)), if order.intent.side.Buy? then order.filled else -order.filled;
      && RowNet(row, s) == (if order.intent.symbol == s then shares else 0.0)
      && RowSpent(row) == (if order.filled == 0.0 then 0.0 else shares * order.average.value)
  {
  }

  lemma NoOrders(baseline: Account, s: Symbol)
    ensures TruePosition(map[], s) == 0.0 && TrueCash(baseline, map[]) == baseline.cash
  {
  }

  /** The broker's books, order by order: each fill moves shares one way and its exact notional the other. */
  lemma OneOrderMoves(baseline: Account, orders: map<Id, Order>, id: Id, order: Order, s: Symbol)
    requires id !in orders && order.Valid()
    ensures TruePosition(map[], s) == 0.0 && TrueCash(baseline, map[]) == baseline.cash
    ensures var shares := if order.intent.side.Buy? then order.filled else -order.filled;
      && TruePosition(orders[id := order], s) ==
           TruePosition(orders, s) + (if order.intent.symbol == s then shares else 0.0)
      && TrueCash(baseline, orders[id := order]) ==
           TrueCash(baseline, orders) - (if order.filled == 0.0 then 0.0 else shares * order.average.value)
  {
    hide TruePosition, TrueCash, RowNet, RowSpent;
    NoOrders(baseline, s);
    BooksExtend(baseline, orders, id, order, s);
    ObservedRow(order, s);
  }

  /** An order that may still fill: working at the broker, or still on its way there. */
  ghost predicate Working(w: World, id: Id) {
    (id in w.orders && !w.orders[id].state.Terminal()) || id in w.inflight
  }

  lemma Reachable(c: Config, script: seq<Action>)
    requires c.Valid() && Legal(c, Init(), script)
    ensures Invariant(c, Run(c, Init(), script))
  {
    InitInvariant(c);
    RunKeeps(c, Init(), script);
  }

  /** All orders of the broker are finished in the journal, except perhaps x. */
  ghost predicate AllButOne(rows: map<Id, Row>, orders: map<Id, Order>, x: Id) {
    && RowsLinked(rows, orders)
    && (forall id :: id in orders && id !in Closed(rows) ==> id == x)
  }

  /** The broker's totals are those of the finished rows plus those of at most one other order. */
  lemma TrueTotals(baseline: Account, rows: map<Id, Row>, orders: map<Id, Order>, x: Id, s: Symbol)
    requires AllButOne(rows, orders, x)
    ensures var extra := x in orders && x !in Closed(rows);
      && TruePosition(orders, s) == ClosedNet(rows, s) + (if extra then RowNet(Actual(orders)[x], s) else 0.0)
      && TrueCash(baseline, orders) ==
           ClosedCash(baseline, rows) - (if extra then RowSpent(Actual(orders)[x]) else 0.0)
  {
    var actual, closed := Actual(orders), Closed(rows);
    SumAgree(closed, NetOf(rows, s), NetOf(actual, s));
    SumAgree(closed, SpentOf(rows), SpentOf(actual));
    if x in orders && x !in closed {
      SumSplit(orders.Keys, NetOf(actual, s), x);
      SumSplit(orders.Keys, SpentOf(actual), x);
      assert orders.Keys - {x} == closed;
    } else {
      assert orders.Keys == closed;
    }
  }

  lemma OneUnfinished(rows: map<Id, Row>, orders: map<Id, Order>) returns (x: Id)
    requires RowsLinked(rows, orders) && OneOpen(rows) && orders.Keys <= rows.Keys
    ensures AllButOne(rows, orders, x)
  {
    x := if exists id :: id in orders && id !in Closed(rows)
         then var id :| id in orders && id !in Closed(rows); id
         else 0;
  }

  lemma TruthBounded(c: Config, baseline: Account, rows: map<Id, Row>, orders: map<Id, Order>, s: Symbol)
    requires RowsLinked(rows, orders) && OneOpen(rows) && Bounded(c, Some(baseline), rows)
    requires forall id :: id in orders ==>
      id in rows && orders[id].intent == rows[id].intent && Executable(orders[id])
    ensures 0.0 <= TruePosition(orders, s) <= c.quantity
    ensures Floor(baseline) <= TrueCash(baseline, orders)
  {
    var x := OneUnfinished(rows, orders);
    TrueTotals(baseline, rows, orders, x, s);
    assert 0.0 <= ClosedNet(rows, s) <= c.quantity;
    if x in orders && x !in Closed(rows) {
      assert rows[x].Open() && Affordable(c, baseline, rows, rows[x].intent);
      assert 0.0 <= ClosedNet(rows, rows[x].intent.symbol) <= c.quantity;
      FillWithin(c, baseline, rows, rows[x].intent, orders[x]);
      assert Actual(orders)[x] == Row(rows[x].intent, Some(orders[x]));
      if s != rows[x].intent.symbol {
        assert RowNet(Actual(orders)[x], s) == 0.0;
      }
    }
  }

  /** No run shorts a symbol or takes it beyond the configured quantity, at the broker itself. */
  lemma PositionStaysWithinTarget(c: Config, script: seq<Action>, s: Symbol)
    requires c.Valid() && Legal(c, Init(), script)
    ensures 0.0 <= TruePosition(Run(c, Init(), script).orders, s) <= c.quantity
  {
    Reachable(c, script);
    var w := Run(c, Init(), script);
    if w.book.baseline.Some? {
      TruthBounded(c, w.book.baseline.value, w.book.rows, w.orders, s);
    } else {
      assert w.orders.Keys == {};
    }
  }

  /** Cash after every fill the broker made stays above min(baseline cash, -0.01). */
  lemma CashStaysAboveFloor(c: Config, script: seq<Action>)
    requires c.Valid() && Legal(c, Init(), script)
    ensures var w := Run(c, Init(), script);
      w.book.baseline.Some? ==>
        var cash := TrueCash(w.book.baseline.value, w.orders);
        cash >= w.book.baseline.value.cash || cash >= -CENT
  {
    Reachable(c, script);
    var w := Run(c, Init(), script);
    if w.book.baseline.Some? {
      TruthBounded(c, w.book.baseline.value, w.book.rows, w.orders, 0);
    }
  }

  /** At most one order can still fill, and the journal knows it as its only open row. */
  lemma OneWorkingOrder(c: Config, script: seq<Action>, a: Id, b: Id)
    requires c.Valid() && Legal(c, Init(), script)
    ensures var w := Run(c, Init(), script);
      && (Working(w, a) && Working(w, b) ==> a == b)
      && (Working(w, a) ==> a in w.book.rows && w.book.rows[a].Open())
  {
    Reachable(c, script);
  }

  lemma PostsAreRows(c: Config, w: World)
    requires c.Valid() && Invariant(c, w)
    ensures NoDuplicates(w.posts) && |w.book.rows| <= c.maxOrders <= 1000
    ensures forall id :: id in w.posts ==> id in w.book.rows && w.book.rows[id].intent.id == id
  {
    hide OneOpen, Bounded, StopKept;
  }

  lemma NextPostIsNew(c: Config, w: World)
    requires Invariant(c, w) && Enabled(c, w, Send)
    ensures w.pc.intent.id !in w.posts && w.book.rows.Keys >= {w.pc.intent.id}
    ensures w.book.rows[w.pc.intent.id] == Row(w.pc.intent, None)
  {
    hide OneOpen, Bounded, StopKept, RowsLinked;
  }

  /** Every POST carries a journaled id, no id is posted twice, and the row budget holds. */
  lemma AtMostOnePostPerIntent(c: Config, script: seq<Action>)
    requires c.Valid() && Legal(c, Init(), script)
    ensures var w := Run(c, Init(), script);
      && NoDuplicates(w.posts)
      && (forall id :: id in w.posts ==> id in w.book.rows && w.book.rows[id].intent.id == id)
      && (Enabled(c, w, Send) ==>
            w.pc.intent.id !in w.posts && w.book.rows.Keys >= {w.pc.intent.id}
            && w.book.rows[w.pc.intent.id] == Row(w.pc.intent, None))
      && |w.book.rows| <= c.maxOrders <= 1000
  {
    hide Invariant, NoDuplicates, Legal, Run, Enabled;
    Reachable(c, script);
    var w := Run(c, Init(), script);
    PostsAreRows(c, w);
    if Enabled(c, w, Send) {
      NextPostIsNew(c, w);
    }
  }

  /** While an order is being sized nothing can fill, and the account in hand is the truth. */
  ghost predicate SizedOnTruth(w: World, s: Symbol) {
    w.pc.Deciding? ==>
      && (forall id: Id :: !Working(w, id))
      && w.pc.account.Held(s) == TruePosition(w.orders, s)
      && w.book.baseline.Some?
      && Abs(w.pc.account.cash - TrueCash(w.book.baseline.value, w.orders)) <= CENT
  }

  /** A decision is only ever sized on the broker's true, settled position and cash. */
  lemma SizingSeesTheTruth(c: Config, script: seq<Action>, s: Symbol)
    requires c.Valid() && Legal(c, Init(), script)
    ensures SizedOnTruth(Run(c, Init(), script), s)
  {
    Reachable(c, script);
    DecidingOnTruth(c, Run(c, Init(), script), s);
  }

  lemma DecidingOnTruth(c: Config, w: World, s: Symbol)
    requires Invariant(c, w)
    ensures SizedOnTruth(w, s)
  {
    hide Counted, OneOpen, Bounded, Totals, StopKept;
    if w.pc.Deciding? {
      SettledIsTrue(w.book.baseline, w.book.rows, w.orders, w.pc.account, s);
      forall id: Id ensures !Working(w, id) {
        SettledIsQuiet(w, id);
      }
    }
  }

  lemma SettledIsQuiet(w: World, id: Id)
    requires RowsLinked(w.book.rows, w.orders) && BrokerLinked(w.book.rows, w.orders, w.inflight, w.posts)
    requires Settled(w.book.rows)
    ensures !Working(w, id)
  {
  }

  lemma SettledIsTrue(
    baseline: Option<Account>, rows: map<Id, Row>, orders: map<Id, Order>, account: Account, s: Symbol)
    requires RowsLinked(rows, orders) && orders.Keys <= rows.Keys
    requires Reconciled(baseline, rows, account) && Settled(rows)
    ensures account.Held(s) == TruePosition(orders, s)
    ensures Abs(account.cash - TrueCash(baseline.value, orders)) <= CENT
  {
    assert Closed(rows) == rows.Keys;
    TrueTotals(baseline.value, rows, orders, 0, s);
  }

  /** However often a book is reconciled, each row's cumulative fill is counted once, from the baseline. */
  lemma ReconciliationCountsEachFillOnce(c: Config, script: seq<Action>)
    requires c.Valid() && Legal(c, Init(), script)
    ensures var w := Run(c, Init(), script);
      w.pc.Reconciling? && w.pc.todo == {} ==>
        && w.book.baseline.Some?
        && w.pc.cash == w.book.baseline.value.cash - Spent(w.book.rows, w.book.rows.Keys)
        && (forall s: Symbol :: Quantity(w.pc.quantities, s) == Net(w.book.rows, w.book.rows.Keys, s))
  {
    Reachable(c, script);
    var w := Run(c, Init(), script);
    assert w.book.rows.Keys - {} == w.book.rows.Keys;
  }

  // ----- the emergency stop -----

  lemma StepAfterStop(c: Config, w: World, a: Action)
    requires w.book.stopped && Enabled(c, w, a)
    ensures var after := Apply(c, w, a);
      && after.book.stopped
      && (after.pc.Cleared? ==> after.pc == w.pc && after.posts == w.posts)
      && (after.posts == w.posts
          || (w.pc.Cleared? && after.posts == w.posts + [w.pc.intent.id] && !after.pc.Cleared?))
  {
    hide WithinLimits, Honest, Acceptable, Snapshot, Executable, Evolves;
  }

  /**
   * A stop never reverts. Once it has committed, at most one more POST leaves, and only if the
   * operator had already passed the transport's last check.
   */
  lemma {:induction false} StopIsFinal(c: Config, w: World, script: seq<Action>)
    requires w.book.stopped && Legal(c, w, script)
    ensures var after := Run(c, w, script);
      && after.book.stopped
      && (after.posts == w.posts || (w.pc.Cleared? && after.posts == w.posts + [w.pc.intent.id]))
      && (after.pc.Cleared? ==> after.pc == w.pc && after.posts == w.posts)
    decreases |script|
  {
    if script != [] {
      StepAfterStop(c, w, script[0]);
      StopIsFinal(c, Apply(c, w, script[0]), script[1..]);
    }
  }

  /** Over a whole run, at most one POST leaves after the stop. */
  lemma AtMostOneLatePost(c: Config, script: seq<Action>)
    requires c.Valid() && Legal(c, Init(), script)
    ensures Run(c, Init(), script).late <= 1
  {
    Reachable(c, script);
  }

  // ----- rows -----

  /** A row keeps its intent, its fills never shrink, and once finished it is frozen. */
  predicate RowEvolves(before: Row, after: Row) {
    && after.intent == before.intent
    && (before.order.Some? ==> after.order.Some? && before.order.value.filled <= after.order.value.filled)
    && (!before.Open() ==> after == before)
  }

  lemma ObserveEvolves(c: Config, w: World, x: Id, reply: Option<Order>, id: Id)
    requires Enabled(c, w, Observe(x, reply)) && id in w.book.rows
    ensures var after := Apply(c, w, Observe(x, reply)).book.rows; id in after && RowEvolves(w.book.rows[id], after[id])
  {
  }

  lemma WrittenEvolves(c: Config, w: World, a: Action, id: Id)
    requires Enabled(c, w, a) && (a.Respond? || a.Commit?) && id in w.book.rows
    requires Located(c, w.book.baseline, w.book.rows, w.posts, w.pc)
    ensures var after := Apply(c, w, a).book.rows; id in after && RowEvolves(w.book.rows[id], after[id])
  {
    hide Totals, Reconciled, Settled, Affordable;
  }

  lemma RowsStay(c: Config, w: World, a: Action)
    requires Enabled(c, w, a) && !a.Observe? && !a.Respond? && !a.Commit?
    ensures Apply(c, w, a).book.rows == w.book.rows
  {
  }

  lemma StepEvolves(c: Config, w: World, a: Action, id: Id)
    requires Invariant(c, w) && Enabled(c, w, a) && id in w.book.rows
    ensures var after := Apply(c, w, a).book.rows; id in after && RowEvolves(w.book.rows[id], after[id])
  {
    hide Enabled, Apply, RowsLinked, BrokerLinked, Counted, OneOpen, Bounded, Located, StopKept;
    if a.Observe? {
      ObserveEvolves(c, w, a.id, a.reply, id);
    } else if a.Respond? || a.Commit? {
      WrittenEvolves(c, w, a, id);
    } else {
      RowsStay(c, w, a);
    }
  }

  lemma {:induction false} RowEvolvesAlong(c: Config, w: World, script: seq<Action>, id: Id)
    requires c.Valid() && Invariant(c, w) && Legal(c, w, script) && id in w.book.rows
    ensures var after := Run(c, w, script);
      id in after.book.rows && RowEvolves(w.book.rows[id], after.book.rows[id])
    decreases |script|
  {
    if script != [] {
      var next := Apply(c, w, script[0]);
      StepEvolves(c, w, script[0], id);
      StepKeeps(c, w, script[0]);
      RowEvolvesAlong(c, next, script[1..], id);
    }
  }

  /** In every run a row that exists stays, and only ever evolves. */
  lemma RowsOnlyEvolve(c: Config, script: seq<Action>, more: seq<Action>, id: Id)
    requires c.Valid() && Legal(c, Init(), script) && Legal(c, Run(c, Init(), script), more)
    requires id in Run(c, Init(), script).book.rows
    ensures var before, after := Run(c, Init(), script), Run(c, Run(c, Init(), script), more);
      id in after.book.rows && RowEvolves(before.book.rows[id], after.book.rows[id])
  {
    Reachable(c, script);
    RowEvolvesAlong(c, Run(c, Init(), script), more, id);
  }

  // ----- an intent the broker never got -----

  /** A journaled intent that is not at the broker, not on its way, and no longer about to be sent. */
  predicate Stranded(w: World, id: Id) {
    && id in w.book.rows && w.book.rows[id].order.None?
    && id !in w.orders && id !in w.inflight
    && !((w.pc.Committed? || w.pc.Marked? || w.pc.Prechecked? || w.pc.Cleared?) && w.pc.intent.id == id)
  }

  lemma StrandedRow(c: Config, w: World, id: Id)
    requires Invariant(c, w) && Stranded(w, id)
    ensures w.book.rows[id].Open() && !Settled(w.book.rows) && !w.pc.Deciding? && !w.pc.Admissible?
    ensures !w.pc.Cleared? && !w.pc.Prechecked? && !w.pc.Marked? && !w.pc.Committed?
  {
    hide Counted, Bounded, Totals, Reconciled, Affordable, StopKept;
  }

  lemma StepStranded(c: Config, w: World, a: Action, id: Id)
    requires Invariant(c, w) && Enabled(c, w, a) && Stranded(w, id)
    ensures Stranded(Apply(c, w, a), id) && Apply(c, w, a).posts == w.posts
  {
    hide Invariant;
    StrandedRow(c, w, id);
  }

  lemma {:induction false} StrandedAlong(c: Config, w: World, script: seq<Action>, id: Id)
    requires c.Valid() && Invariant(c, w) && Legal(c, w, script) && Stranded(w, id)
    ensures Run(c, w, script).posts == w.posts && Stranded(Run(c, w, script), id)
    decreases |script|
  {
    if script != [] {
      StepStranded(c, w, script[0], id);
      StepKeeps(c, w, script[0]);
      StrandedAlong(c, Apply(c, w, script[0]), script[1..], id);
    }
  }

  /** An intent whose order cannot be found blocks every later dispatch, and is never sent again. */
  lemma StrandedIntentBlocksDispatch(c: Config, script: seq<Action>, more: seq<Action>, id: Id)
    requires c.Valid() && Legal(c, Init(), script) && Legal(c, Run(c, Init(), script), more)
    requires Stranded(Run(c, Init(), script), id)
    ensures var before, after := Run(c, Init(), script), Run(c, Run(c, Init(), script), more);
      after.posts == before.posts && Stranded(after, id)
  {
    Reachable(c, script);
    StrandedAlong(c, Run(c, Init(), script), more, id);
  }

  // ----- what the state key says -----

  /** While the state is ready no POST is unobserved, and from the mark until the POST is answered it is not. */
  ghost predicate PhaseTells(book: Book, posts: seq<Id>, pc: Pc) {
    && (book.phase.Ready? ==> forall id :: id in posts && id in book.rows ==> book.rows[id].order.Some?)
    && (pc.Marked? || pc.Prechecked? || pc.Cleared? || pc.Sent? ==> !book.phase.Ready?)
  }

  /** A row just committed was never POSTed; one just observed, or answered, has its order. */
  lemma RowPhase(c: Config, w: World, a: Action)
    requires Invariant(c, w) && Enabled(c, w, a) && PhaseTells(w.book, w.posts, w.pc)
    requires a.Observe? || a.Respond? || a.Commit?
    ensures var after := Apply(c, w, a); PhaseTells(after.book, after.posts, after.pc)
  {
    hide RowsLinked, Counted, OneOpen, Bounded, Totals, Reconciled, Affordable, StopKept, Honest, Snapshot;
    assert forall id :: id in w.posts ==> id in w.book.rows;
  }

  /** Every row is observed before the state becomes ready. */
  lemma ReadyPhase(c: Config, w: World, a: Action)
    requires Invariant(c, w) && Enabled(c, w, a) && PhaseTells(w.book, w.posts, w.pc)
    requires a.MarkReady? || a.Send? || a.MarkRequired? || a.BeginReconcile?
    ensures var after := Apply(c, w, a); PhaseTells(after.book, after.posts, after.pc)
  {
    hide RowsLinked, Counted, OneOpen, Bounded, Totals, Affordable, StopKept;
  }

  lemma OtherPhase(c: Config, w: World, a: Action)
    requires Enabled(c, w, a) && PhaseTells(w.book, w.posts, w.pc)
    requires !a.Observe? && !a.Respond? && !a.Commit?
    requires !a.MarkReady? && !a.Send? && !a.MarkRequired? && !a.BeginReconcile?
    ensures var after := Apply(c, w, a); PhaseTells(after.book, after.posts, after.pc)
  {
    hide WithinLimits, Honest, Acceptable, Snapshot, Executable, Evolves;
  }

  lemma StepPhase(c: Config, w: World, a: Action)
    requires Invariant(c, w) && Enabled(c, w, a) && PhaseTells(w.book, w.posts, w.pc)
    ensures var after := Apply(c, w, a); PhaseTells(after.book, after.posts, after.pc)
  {
    hide *;
    if a.Observe? || a.Respond? || a.Commit? {
      RowPhase(c, w, a);
    } else if a.MarkReady? || a.Send? || a.MarkRequired? || a.BeginReconcile? {
      ReadyPhase(c, w, a);
    } else {
      OtherPhase(c, w, a);
    }
  }

  lemma {:induction false} PhaseAlong(c: Config, w: World, script: seq<Action>)
    requires c.Valid() && Invariant(c, w) && Legal(c, w, script) && PhaseTells(w.book, w.posts, w.pc)
    ensures var after := Run(c, w, script); PhaseTells(after.book, after.posts, after.pc)
    decreases |script|
  {
    hide Invariant, PhaseTells, Enabled, Apply;
    if script != [] {
      StepPhase(c, w, script[0]);
      StepKeeps(c, w, script[0]);
      PhaseAlong(c, Apply(c, w, script[0]), script[1..]);
    }
  }

  lemma UnobservedIsUnsent(c: Config, w: World, id: Id)
    requires Invariant(c, w) && PhaseTells(w.book, w.posts, w.pc) && w.book.phase.Ready? && id in w.book.rows
    ensures w.book.rows[id].order.Some? <==> id in w.posts
    ensures w.book.rows[id].order.None? ==> w.pc == Committed(w.book.rows[id].intent) || Stranded(w, id)
  {
    hide Counted, Bounded, Totals, Reconciled, Affordable, StopKept;
  }

  /**
   * A ready book has observed exactly the orders that were ever POSTed. A row it has not observed is
   * the intent just journaled, or one that a crash left behind before it could be sent.
   */
  lemma ReadyMeansPostsAreObserved(c: Config, script: seq<Action>)
    requires c.Valid() && Legal(c, Init(), script)
    ensures var w := Run(c, Init(), script);
      w.book.phase.Ready? ==>
        && (forall id :: id in w.posts ==> id in w.book.rows)
        && (forall id :: id in w.book.rows ==> (w.book.rows[id].order.Some? <==> id in w.posts))
        && (forall id :: id in w.book.rows && w.book.rows[id].order.None? ==>
              w.pc == Committed(w.book.rows[id].intent) || Stranded(w, id))
  {
    hide Invariant, PhaseTells, Stranded;
    var w := Run(c, Init(), script);
    Reachable(c, script);
    InitInvariant(c);
    assert PhaseTells(Init().book, Init().posts, Init().pc) by {
      InitPhase();
    }
    PhaseAlong(c, Init(), script);
    PostsAreRows(c, w);
    if w.book.phase.Ready? {
      forall id | id in w.book.rows
        ensures w.book.rows[id].order.Some? <==> id in w.posts
        ensures w.book.rows[id].order.None? ==> w.pc == Committed(w.book.rows[id].intent) || Stranded(w, id)
      {
        UnobservedIsUnsent(c, w, id);
      }
    }
  }

  lemma InitPhase()
    ensures PhaseTells(Init().book, Init().posts, Init().pc)
  {
  }

  // ----- what is sent -----

  /** Shares that a decision calls for. */
  function Wanted(c: Config, long: bool): real {
    if long then c.quantity else 0.0
  }

  /**
   * What a decision still has to trade takes the broker's true position to exactly what it calls for;
   * when there is nothing to trade the position is that already.
   */
  lemma DecisionAimsAtTheTarget(c: Config, script: seq<Action>, minute: int, long: bool)
    requires c.Valid() && Legal(c, Init(), script) && Enabled(c, Run(c, Init(), script), Decide(minute, long))
    ensures var w := Run(c, Init(), script);
      var after := Apply(c, w, Decide(minute, long));
      var position := TruePosition(w.orders, w.pc.symbol);
      if after.pc.Deciding? then
        && after.pc.symbol == w.pc.symbol && position + after.pc.delta == Wanted(c, long) != position
      else after.pc.Idle? && position == Wanted(c, long)
  {
    hide Legal, Run, Counted, OneOpen, Bounded, Totals, StopKept;
    Reachable(c, script);
    var w := Run(c, Init(), script);
    SettledIsTrue(w.book.baseline, w.book.rows, w.orders, w.pc.account, w.pc.symbol);
  }

  /** The order priced for a decision trades exactly what it has to. */
  lemma SizedTradesTheGap(clientId: Id, symbol: Symbol, delta: real, price: real)
    requires delta != 0.0
    ensures var intent := Sized(clientId, symbol, delta, price);
      && intent.symbol == symbol && intent.limitPrice == price && intent.quantity > 0.0
      && delta == match intent.side
                  case Buy => intent.quantity
                  case Sell => -intent.quantity
  {
  }

  /** Every journaled order is worth at most the limit for one order. */
  ghost predicate Small(c: Config, rows: map<Id, Row>, pc: Pc) {
    && (forall id :: id in rows ==> rows[id].intent.quantity * rows[id].intent.limitPrice <= c.maximumOrderNotional)
    && (pc.Admissible? || pc.Committed? || pc.Marked? || pc.Prechecked? || pc.Cleared? || pc.Sent? ==>
          pc.intent.quantity * pc.intent.limitPrice <= c.maximumOrderNotional)
  }

  lemma SmallRows(c: Config, w: World, a: Action)
    requires Enabled(c, w, a) && Small(c, w.book.rows, w.pc)
    requires a.Observe? || a.Respond? || a.Commit?
    ensures Small(c, Apply(c, w, a).book.rows, Apply(c, w, a).pc)
  {
    hide Honest, Acceptable, Snapshot, Latest, Tally, RowSpent;
  }

  lemma SmallIntent(c: Config, w: World, a: Action)
    requires Enabled(c, w, a) && Small(c, w.book.rows, w.pc)
    requires !a.Observe? && !a.Respond? && !a.Commit?
    ensures Small(c, Apply(c, w, a).book.rows, Apply(c, w, a).pc)
  {
    hide Honest, Acceptable, Snapshot, Executable, Evolves, NonZero, Desired, Account.MarketValue, Account.Held;
    RowsStay(c, w, a);
  }

  lemma StepSmall(c: Config, w: World, a: Action)
    requires Enabled(c, w, a) && Small(c, w.book.rows, w.pc)
    ensures Small(c, Apply(c, w, a).book.rows, Apply(c, w, a).pc)
  {
    hide *;
    if a.Observe? || a.Respond? || a.Commit? {
      SmallRows(c, w, a);
    } else {
      SmallIntent(c, w, a);
    }
  }

  lemma {:induction false} SmallAlong(c: Config, w: World, script: seq<Action>)
    requires Legal(c, w, script) && Small(c, w.book.rows, w.pc)
    ensures Small(c, Run(c, w, script).book.rows, Run(c, w, script).pc)
    decreases |script|
  {
    hide Small, Enabled, Apply;
    if script != [] {
      StepSmall(c, w, script[0]);
      SmallAlong(c, Apply(c, w, script[0]), script[1..]);
    }
  }

  /** In every run, no order is journaled beyond the limit, and no buy ever costs more than it. */
  lemma NotionalIsLimited(c: Config, script: seq<Action>, id: Id)
    requires c.Valid() && Legal(c, Init(), script)
    ensures var w := Run(c, Init(), script);
      && (id in w.book.rows ==>
            w.book.rows[id].intent.quantity * w.book.rows[id].intent.limitPrice <= c.maximumOrderNotional)
      && (id in w.orders && w.orders[id].intent.side.Buy? ==> w.orders[id].Notional() <= c.maximumOrderNotional)
  {
    hide Legal, Run, Counted, OneOpen, Bounded, Located, StopKept;
    var w := Run(c, Init(), script);
    Reachable(c, script);
    SmallAlong(c, Init(), script);
    if id in w.orders && w.orders[id].intent.side.Buy? {
      var order := w.orders[id];
      if order.average.Some? {
        ProductBound(order.filled, order.average.value, order.intent.quantity, order.intent.limitPrice);
      }
    }
  }

  // ----- cancellation -----

  /** Whatever still works at the broker is a row not known to be finished, and honest answers show it. */
  lemma WorkingIsSeen(c: Config, w: World, id: Id, reply: Option<Order>)
    requires Invariant(c, w) && id in w.orders && !w.orders[id].state.Terminal()
    ensures id in w.book.rows && w.book.rows[id].Open()
    ensures Honest(w.orders, id, reply) && reply.Some? ==> !reply.value.state.Terminal()
  {
    hide Counted, OneOpen, Bounded, Located, StopKept;
  }
}
