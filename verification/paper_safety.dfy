/** What every run of the paper order protocol keeps, and the safety it gives. */
module PaperSafety {
  import opened Basics
  import opened PaperModels
  import opened PaperProtocol

  /** Cash never falls below this: the baseline itself, or one cent of accepted discrepancy. */
  function Floor(baseline: Account): real {
    if baseline.cash < -CENT then baseline.cash else -CENT
  }

  /** Journal rows agree with the broker's orders. */
  ghost predicate RowsLinked(rows: map<Id, Row>, orders: map<Id, Order>) {
    forall id :: id in rows ==>
      var row := rows[id];
      && row.intent.id == id && row.intent.Valid()
      && (row.order.Some? ==>
            && row.order.value.intent == row.intent
            && id in orders && Snapshot(row.order.value, orders[id]))
  }

  /** Orders and messages in transit come from committed rows, and each id is posted at most once. */
  ghost predicate BrokerLinked(
    rows: map<Id, Row>, orders: map<Id, Order>, inflight: map<Id, Intent>, posts: seq<Id>)
  {
    && (forall id :: id in orders ==>
          && id in rows && orders[id].intent == rows[id].intent
          && Executable(orders[id]) && id !in inflight && id in posts)
    && (forall id :: id in inflight ==> id in rows && inflight[id] == rows[id].intent && id in posts)
    && (forall id :: id in posts ==> id in rows)
    && NoDuplicates(posts)
  }

  ghost predicate Counted(c: Config, baseline: Option<Account>, rows: map<Id, Row>) {
    |rows| <= c.maxOrders && (baseline.None? ==> rows == map[])
  }

  ghost predicate OneOpen(rows: map<Id, Row>) {
    forall a, b :: a in rows && b in rows && rows[a].Open() && rows[b].Open() ==> a == b
  }

  ghost predicate Settled(rows: map<Id, Row>) {
    forall id :: id in rows ==> !rows[id].Open()
  }

  ghost function ClosedNet(rows: map<Id, Row>, s: Symbol): real {
    Net(rows, Closed(rows), s)
  }

  /** Cash once every finished order is paid for. */
  ghost function ClosedCash(baseline: Account, rows: map<Id, Row>): real {
    baseline.cash - Spent(rows, Closed(rows))
  }

  /** Whatever part of the intent fills, the position stays within [0, quantity] and cash above its floor. */
  ghost predicate Affordable(c: Config, baseline: Account, rows: map<Id, Row>, intent: Intent) {
    && 0.0 <= ClosedNet(rows, intent.symbol) + intent.side.Sign() * intent.quantity <= c.quantity
    && (intent.side.Buy? ==>
          Floor(baseline) <= ClosedCash(baseline, rows) - intent.quantity * intent.limitPrice)
  }

  ghost predicate Bounded(c: Config, baseline: Option<Account>, rows: map<Id, Row>) {
    baseline.Some? ==>
      && (forall s: Symbol :: 0.0 <= ClosedNet(rows, s) <= c.quantity)
      && Floor(baseline.value) <= ClosedCash(baseline.value, rows)
      && (forall id :: id in rows && rows[id].Open() ==> Affordable(c, baseline.value, rows, rows[id].intent))
  }

  /** The reconciled account agrees with the cumulative fills of all rows. */
  ghost predicate Reconciled(baseline: Option<Account>, rows: map<Id, Row>, account: Account) {
    && baseline.Some?
    && (forall id :: id in rows ==> rows[id].order.Some?)
    && (forall s: Symbol :: account.Held(s) == Net(rows, rows.Keys, s))
    && Abs(account.cash - (baseline.value.cash - Spent(rows, rows.Keys))) <= CENT
  }

  /** The totals of a reconciliation are those of the rows done so far, counted from the baseline. */
  ghost predicate Totals(
    baseline: Option<Account>, rows: map<Id, Row>, todo: set<Id>, cash: real, quantities: map<Symbol, real>)
  {
    && baseline.Some? && todo <= rows.Keys
    && (forall id :: id in rows.Keys - todo ==> rows[id].order.Some?)
    && (forall s: Symbol :: Quantity(quantities, s) == Net(rows, rows.Keys - todo, s))
    && cash == baseline.value.cash - Spent(rows, rows.Keys - todo)
  }

  ghost predicate Unsent(rows: map<Id, Row>, posts: seq<Id>, intent: Intent) {
    intent.id in rows && rows[intent.id] == Row(intent, None) && intent.id !in posts
  }

  ghost predicate Target(c: Config, account: Account, symbol: Symbol, delta: real) {
    delta != 0.0 && (delta == c.quantity - account.Held(symbol) || delta == -account.Held(symbol))
  }

  ghost predicate Located(c: Config, baseline: Option<Account>, rows: map<Id, Row>, posts: seq<Id>, pc: Pc) {
    && (pc.Reconciling? ==> Totals(baseline, rows, pc.todo, pc.cash, pc.quantities))
    && (pc.Matched? || pc.Recorded? || pc.Sizing? || pc.Deciding? ==> Reconciled(baseline, rows, pc.account))
    && (pc.Deciding? ==> Settled(rows) && Target(c, pc.account, pc.symbol, pc.delta))
    && (pc.Admissible? ==>
          && Settled(rows) && pc.intent.Valid() && |rows| < c.maxOrders
          && baseline.Some? && Affordable(c, baseline.value, rows, pc.intent))
    && (pc.Committed? || pc.Marked? || pc.Prechecked? || pc.Cleared? ==> Unsent(rows, posts, pc.intent))
    && (pc.Sent? ==> pc.intent.id in rows && rows[pc.intent.id] == Row(pc.intent, None))
  }

  ghost predicate StopKept(w: World) {
    w.late <= 1 && (w.late == 1 ==> w.book.stopped && !w.pc.Cleared?)
  }

  ghost predicate Invariant(c: Config, w: World) {
    && RowsLinked(w.book.rows, w.orders)
    && BrokerLinked(w.book.rows, w.orders, w.inflight, w.posts)
    && Counted(c, w.book.baseline, w.book.rows)
    && OneOpen(w.book.rows)
    && Bounded(c, w.book.baseline, w.book.rows)
    && Located(c, w.book.baseline, w.book.rows, w.posts, w.pc)
    && StopKept(w)
  }

  // ----- sums over rows -----

  lemma NetExtend(rows: map<Id, Row>, ids: set<Id>, id: Id, row: Row, s: Symbol)
    requires ids <= rows.Keys && id !in ids
    ensures Net(rows[id := row], ids, s) == Net(rows, ids, s)
    ensures Net(rows[id := row], ids + {id}, s) == Net(rows, ids, s) + RowNet(row, s)
  {
    var after := NetOf(rows[id := row], s);
    SumAgree(ids, NetOf(rows, s), after);
    SumSplit(ids + {id}, after, id);
    assert ids + {id} - {id} == ids;
  }

  lemma SpentExtend(rows: map<Id, Row>, ids: set<Id>, id: Id, row: Row)
    requires ids <= rows.Keys && id !in ids
    ensures Spent(rows[id := row], ids) == Spent(rows, ids)
    ensures Spent(rows[id := row], ids + {id}) == Spent(rows, ids) + RowSpent(row)
  {
    var after := SpentOf(rows[id := row]);
    SumAgree(ids, SpentOf(rows), after);
    SumSplit(ids + {id}, after, id);
    assert ids + {id} - {id} == ids;
  }

  /** How the totals of the finished rows move when an unfinished row is replaced. */
  lemma CloseRow(rows: map<Id, Row>, id: Id, row: Row)
    requires id in rows ==> rows[id].Open()
    ensures forall s: Symbol :: ClosedNet(rows[id := row], s) ==
              ClosedNet(rows, s) + (if row.Open() then 0.0 else RowNet(row, s))
    ensures forall b: Account :: ClosedCash(b, rows[id := row]) ==
              ClosedCash(b, rows) - (if row.Open() then 0.0 else RowSpent(row))
  {
    var after := rows[id := row];
    assert Closed(after) == if row.Open() then Closed(rows) else Closed(rows) + {id};
    forall s: Symbol
      ensures ClosedNet(after, s) == ClosedNet(rows, s) + (if row.Open() then 0.0 else RowNet(row, s))
    {
      NetExtend(rows, Closed(rows), id, row, s);
    }
    SpentExtend(rows, Closed(rows), id, row);
  }

  /** A finished order moves position and cash no further than its intent allowed. */
  lemma FillWithin(c: Config, baseline: Account, rows: map<Id, Row>, intent: Intent, order: Order)
    requires intent.Valid() && Executable(order) && order.intent == intent
    requires 0.0 <= ClosedNet(rows, intent.symbol) <= c.quantity
    requires Floor(baseline) <= ClosedCash(baseline, rows)
    requires Affordable(c, baseline, rows, intent)
    ensures 0.0 <= ClosedNet(rows, intent.symbol) + RowNet(Row(intent, Some(order)), intent.symbol) <= c.quantity
    ensures Floor(baseline) <= ClosedCash(baseline, rows) - RowSpent(Row(intent, Some(order)))
  {
    var price := if order.average.Some? then order.average.value else 0.0;
    if intent.side.Buy? {
      ProductBound(order.filled, price, intent.quantity, intent.limitPrice);
    } else {
      ProductBound(order.filled, price, order.filled, price);
    }
  }

  // ----- preservation, one group of actions at a time -----

  lemma ObserveBounded(c: Config, baseline: Option<Account>, rows: map<Id, Row>, id: Id, row: Row)
    requires baseline.Some? && Bounded(c, baseline, rows) && OneOpen(rows)
    requires id in rows && rows[id].Open() && rows[id].intent.Valid()
    requires row.intent == rows[id].intent && row.order.Some? && row.order.value.intent == row.intent
    requires !row.Open() ==> Executable(row.order.value)
    ensures Bounded(c, baseline, rows[id := row]) && OneOpen(rows[id := row])
  {
    var after := rows[id := row];
    CloseRow(rows, id, row);
    if !row.Open() {
      FillWithin(c, baseline.value, rows, row.intent, row.order.value);
    }
    forall s: Symbol ensures 0.0 <= ClosedNet(after, s) <= c.quantity {
      if s != row.intent.symbol {
        assert RowNet(row, s) == 0.0;
      }
    }
    forall x | x in after && after[x].Open() ensures Affordable(c, baseline.value, after, after[x].intent) {
      assert x in rows && rows[x].Open();
      assert x == id;
    }
  }

  /** Recording an honest answer keeps the books linked. */
  lemma ObserveLinked(
    c: Config, baseline: Option<Account>, rows: map<Id, Row>, orders: map<Id, Order>, inflight: map<Id, Intent>,
    posts: seq<Id>, id: Id, row: Row)
    requires RowsLinked(rows, orders) && BrokerLinked(rows, orders, inflight, posts) && Counted(c, baseline, rows)
    requires id in rows && row.intent == rows[id].intent && row.order.Some?
    requires row.order.value.intent == row.intent && id in orders && Snapshot(row.order.value, orders[id])
    ensures RowsLinked(rows[id := row], orders) && BrokerLinked(rows[id := row], orders, inflight, posts)
    ensures Counted(c, baseline, rows[id := row])
  {
    assert rows[id := row].Keys == rows.Keys;
    assert |rows[id := row]| == |rows[id := row].Keys| == |rows|;
  }

  lemma ObserveTotals(
    baseline: Option<Account>, rows: map<Id, Row>, todo: set<Id>, cash: real, quantities: map<Symbol, real>,
    id: Id, row: Row)
    requires Totals(baseline, rows, todo, cash, quantities)
    requires id in todo && row.order.Some?
    ensures Totals(baseline, rows[id := row], todo - {id}, cash - RowSpent(row), Tally(quantities, row))
  {
    var done := rows.Keys - todo;
    var after := Tally(quantities, row);
    assert rows[id := row].Keys - (todo - {id}) == done + {id};
    forall s: Symbol ensures Quantity(after, s) == Net(rows[id := row], done + {id}, s) {
      NetExtend(rows, done, id, row, s);
    }
    SpentExtend(rows, done, id, row);
  }

  lemma ObserveRow(
    c: Config, baseline: Option<Account>, rows: map<Id, Row>, orders: map<Id, Order>, inflight: map<Id, Intent>,
    posts: seq<Id>, id: Id, row: Row)
    requires RowsLinked(rows, orders) && BrokerLinked(rows, orders, inflight, posts) && Counted(c, baseline, rows)
    requires OneOpen(rows) && Bounded(c, baseline, rows)
    requires id in rows && row.intent == rows[id].intent && (!rows[id].Open() ==> row == rows[id])
    requires row.order.Some? && row.order.value.intent == row.intent
    requires id in orders && Snapshot(row.order.value, orders[id])
    ensures var after := rows[id := row];
      && RowsLinked(after, orders) && BrokerLinked(after, orders, inflight, posts) && Counted(c, baseline, after)
      && OneOpen(after) && Bounded(c, baseline, after)
  {
    ObserveLinked(c, baseline, rows, orders, inflight, posts, id, row);
    if rows[id].Open() {
      assert !row.Open() ==> Executable(row.order.value);
      ObserveBounded(c, baseline, rows, id, row);
    } else {
      assert rows[id := row] == rows;
    }
  }

  lemma StepObserve(c: Config, w: World, id: Id, reply: Option<Order>)
    requires Invariant(c, w) && Enabled(c, w, Observe(id, reply))
    ensures Invariant(c, Apply(c, w, Observe(id, reply)))
  {
    var seen := Row(w.book.rows[id].intent, Latest(w.book.rows[id], reply));
    ObserveRow(c, w.book.baseline, w.book.rows, w.orders, w.inflight, w.posts, id, seen);
    ObserveTotals(w.book.baseline, w.book.rows, w.pc.todo, w.pc.cash, w.pc.quantities, id, seen);
    var after := Apply(c, w, Observe(id, reply));
    assert after.book.rows == w.book.rows[id := seen] && after.book.baseline == w.book.baseline;
    assert Totals(after.book.baseline, after.book.rows, after.pc.todo, after.pc.cash, after.pc.quantities);
  }

  lemma StepRespond(c: Config, w: World, order: Order)
    requires Invariant(c, w) && Enabled(c, w, Respond(order))
    ensures Invariant(c, Apply(c, w, Respond(order)))
  {
    var row := Row(w.pc.intent, Some(order));
    ObserveRow(c, w.book.baseline, w.book.rows, w.orders, w.inflight, w.posts, w.pc.intent.id, row);
  }

  lemma StepMatch(c: Config, w: World, account: Account)
    requires Invariant(c, w) && Enabled(c, w, Match(account))
    ensures Invariant(c, Apply(c, w, Match(account)))
  {
    hide RowsLinked, BrokerLinked, Counted, OneOpen, Bounded;
    MatchedHoldings(w.pc.quantities, account);
    assert w.book.rows.Keys - w.pc.todo == w.book.rows.Keys;
  }

  lemma StepBegin(c: Config, w: World)
    requires Invariant(c, w) && Enabled(c, w, BeginReconcile)
    ensures Invariant(c, Apply(c, w, BeginReconcile))
  {
    hide RowsLinked, BrokerLinked, Counted, OneOpen, Bounded;
    var rows := w.book.rows;
    assert rows.Keys - rows.Keys == {};
  }

  lemma StepBaseline(c: Config, w: World, account: Account)
    requires c.Valid() && Invariant(c, w) && Enabled(c, w, SetBaseline(account))
    ensures Invariant(c, Apply(c, w, SetBaseline(account)))
  {
    assert Closed(w.book.rows) == {} && w.book.rows.Keys == {};
  }

  /** On a settled, reconciled book the new order closes exactly the gap to the target. */
  lemma SizedAffordable(
    c: Config, baseline: Option<Account>, rows: map<Id, Row>, account: Account, intent: Intent, delta: real)
    requires Bounded(c, baseline, rows) && Reconciled(baseline, rows, account) && Settled(rows)
    requires Target(c, account, intent.symbol, delta)
    requires intent == Sized(intent.id, intent.symbol, delta, intent.limitPrice) && intent.limitPrice > 0.0
    requires WithinLimits(c, account, intent, delta)
    ensures intent.Valid() && Affordable(c, baseline.value, rows, intent)
  {
    assert Closed(rows) == rows.Keys;
    assert ClosedNet(rows, intent.symbol) == account.Held(intent.symbol);
    assert intent.side.Sign() * intent.quantity == delta;
  }

  lemma StepPrice(c: Config, w: World, clientId: Id, price: real)
    requires Invariant(c, w) && Enabled(c, w, Price(clientId, price))
    ensures Invariant(c, Apply(c, w, Price(clientId, price)))
  {
    var intent := Sized(clientId, w.pc.symbol, w.pc.delta, price);
    SizedAffordable(c, w.book.baseline, w.book.rows, w.pc.account, intent, w.pc.delta);
  }

  lemma CommitRow(
    c: Config, baseline: Option<Account>, rows: map<Id, Row>, orders: map<Id, Order>, inflight: map<Id, Intent>,
    posts: seq<Id>, intent: Intent)
    requires RowsLinked(rows, orders) && BrokerLinked(rows, orders, inflight, posts) && Counted(c, baseline, rows)
    requires baseline.Some? && intent.Valid() && |rows| < c.maxOrders && intent.id !in rows
    ensures var after := rows[intent.id := Row(intent, None)];
      && RowsLinked(after, orders) && BrokerLinked(after, orders, inflight, posts) && Counted(c, baseline, after)
      && Unsent(after, posts, intent)
  {
    var after := rows[intent.id := Row(intent, None)];
    assert after.Keys == rows.Keys + {intent.id};
    assert |after| == |after.Keys| == |rows.Keys| + 1;
  }

  lemma CommitBounded(c: Config, baseline: Option<Account>, rows: map<Id, Row>, intent: Intent)
    requires baseline.Some? && Bounded(c, baseline, rows) && Settled(rows) && intent.id !in rows
    requires Affordable(c, baseline.value, rows, intent)
    ensures OneOpen(rows[intent.id := Row(intent, None)])
    ensures Bounded(c, baseline, rows[intent.id := Row(intent, None)])
  {
    hide ClosedNet, ClosedCash, Floor, Abs;
    var after := rows[intent.id := Row(intent, None)];
    CloseRow(rows, intent.id, Row(intent, None));
    assert ClosedCash(baseline.value, after) == ClosedCash(baseline.value, rows) - 0.0;
    forall s: Symbol ensures 0.0 <= ClosedNet(after, s) <= c.quantity {
      assert ClosedNet(after, s) == ClosedNet(rows, s) + 0.0;
    }
    assert Affordable(c, baseline.value, after, intent);
    assert forall id :: id in rows ==> after[id] == rows[id] && !rows[id].Open();
    assert forall id :: id in after && after[id].Open() ==> id == intent.id && after[id].intent == intent;
  }

  lemma StepCommit(c: Config, w: World)
    requires Invariant(c, w) && Enabled(c, w, Commit)
    ensures Invariant(c, Apply(c, w, Commit))
  {
    CommitRow(c, w.book.baseline, w.book.rows, w.orders, w.inflight, w.posts, w.pc.intent);
    CommitBounded(c, w.book.baseline, w.book.rows, w.pc.intent);
  }

  /** The first POST of a journaled intent. */
  lemma SendLinked(
    rows: map<Id, Row>, orders: map<Id, Order>, inflight: map<Id, Intent>, posts: seq<Id>, intent: Intent)
    requires BrokerLinked(rows, orders, inflight, posts) && Unsent(rows, posts, intent)
    ensures BrokerLinked(rows, orders, inflight[intent.id := intent], posts + [intent.id])
  {
    assert forall id :: id in posts + [intent.id] <==> id in posts || id == intent.id;
  }

  lemma StepSend(c: Config, w: World)
    requires Invariant(c, w) && Enabled(c, w, Send)
    ensures Invariant(c, Apply(c, w, Send))
  {
    hide RowsLinked, BrokerLinked, Counted, OneOpen, Bounded, Totals, Reconciled;
    SendLinked(w.book.rows, w.orders, w.inflight, w.posts, w.pc.intent);
  }

  lemma BrokerSteps(
    rows: map<Id, Row>, orders: map<Id, Order>, inflight: map<Id, Intent>, posts: seq<Id>, id: Id, order: Order)
    requires RowsLinked(rows, orders) && BrokerLinked(rows, orders, inflight, posts)
    requires Executable(order)
    requires if id in orders then Evolves(orders[id], order) else id in inflight && order.intent == inflight[id]
    ensures RowsLinked(rows, orders[id := order])
    ensures BrokerLinked(rows, orders[id := order], inflight - {id}, posts)
  {
  }

  lemma StepBroker(c: Config, w: World, a: Action)
    requires Invariant(c, w) && Enabled(c, w, a)
    requires a.Arrive? || a.Lose? || a.Progress? || a.StopElsewhere?
    ensures Invariant(c, Apply(c, w, a))
  {
    match a
    case Arrive(id, order) => BrokerSteps(w.book.rows, w.orders, w.inflight, w.posts, id, order);
    case Progress(id, order) =>
      BrokerSteps(w.book.rows, w.orders, w.inflight, w.posts, id, order);
      assert w.inflight - {id} == w.inflight;
    case _ =>
  }

  lemma StepQuiet(c: Config, w: World, a: Action)
    requires Invariant(c, w) && Enabled(c, w, a)
    requires a.Admit? || a.LossStop? || a.Record? || a.MarkReady? || a.Decide? || a.MarkRequired?
          || a.Precheck? || a.Clear? || a.Abort?
    ensures Invariant(c, Apply(c, w, a))
  {
    hide RowsLinked, BrokerLinked, Counted, OneOpen, Bounded, Totals, Reconciled, Unsent;
  }

  /** Every step of the operator, the broker or an emergency stop keeps the invariant. */
  lemma StepKeeps(c: Config, w: World, a: Action)
    requires c.Valid() && Invariant(c, w) && Enabled(c, w, a)
    ensures Invariant(c, Apply(c, w, a))
  {
    hide *;
    match a
    case Observe(id, reply) => StepObserve(c, w, id, reply);
    case Respond(order) => StepRespond(c, w, order);
    case Match(account) => StepMatch(c, w, account);
    case BeginReconcile => StepBegin(c, w);
    case SetBaseline(account) => StepBaseline(c, w, account);
    case Price(clientId, price) => StepPrice(c, w, clientId, price);
    case Commit => StepCommit(c, w);
    case Send => StepSend(c, w);
    case Arrive(_, _) => StepBroker(c, w, a);
    case Lose(_) => StepBroker(c, w, a);
    case Progress(_, _) => StepBroker(c, w, a);
    case StopElsewhere => StepBroker(c, w, a);
    case _ => StepQuiet(c, w, a);
  }

  lemma {:induction false} RunKeeps(c: Config, w: World, script: seq<Action>)
    requires c.Valid() && Invariant(c, w) && Legal(c, w, script)
    ensures Invariant(c, Run(c, w, script))
    decreases |script|
  {
    if script != [] {
      StepKeeps(c, w, script[0]);
      RunKeeps(c, Apply(c, w, script[0]), script[1..]);
    }
  }

  lemma InitInvariant(c: Config)
    ensures Invariant(c, Init())
  {
  }
}
