/**
 * The paper order protocol as a step relation. One operator holds the process lock; its program
 * counter moves by one SQL transaction or one network exchange at a time. The broker, a lost or
 * late POST, and an emergency stop from another process may act between any two steps, and the
 * operator may be refused or die at any point (Abort), leaving the journal as it stands.
 *
 * The broker is only trusted this far: it executes the order it was sent, fills are cumulative
 * and never exceed the quantity, a buy fills at or below its limit, a terminal order is frozen,
 * and a terminal answer to a query is the order as it is. Other answers may be stale or missing,
 * and account snapshots are arbitrary.
 */
module PaperProtocol {
  import opened Basics
  import opened PaperModels

  datatype Goal = Alone | ForCycle(symbol: Symbol)

  datatype Pc =
    | Idle
    | Admitted(symbol: Symbol)
    | Reconciling(goal: Goal, todo: set<Id>, cash: real, quantities: map<Symbol, real>)
    | Matched(goal: Goal, account: Account)
    | Recorded(goal: Goal, account: Account)
    | Sizing(symbol: Symbol, account: Account)
    | Deciding(symbol: Symbol, account: Account, delta: real)
    | Admissible(intent: Intent)
    | Committed(intent: Intent)
    | Marked(intent: Intent)
    | Prechecked(intent: Intent)
    | Cleared(intent: Intent)
    | Sent(intent: Intent)
    | Answered

  /** posts and late are history: the ids POSTed so far, and how many left after the stop committed. */
  datatype World = World(
    book: Book, orders: map<Id, Order>, inflight: map<Id, Intent>, pc: Pc, posts: seq<Id>, late: nat)

  datatype Action =
    | Admit(symbol: Symbol)
    | SetBaseline(account: Account)
    | BeginReconcile
    | Observe(id: Id, reply: Option<Order>)
    | Match(account: Account)
    | LossStop(account: Account)
    | Record
    | MarkReady
    | Decide(minute: int, long: bool)
    | Price(clientId: Id, price: real)
    | Commit
    | MarkRequired
    | Precheck
    | Clear
    | Send
    | Respond(order: Order)
    | Abort
    | Arrive(posted: Id, accepted: Order)
    | Lose(lost: Id)
    | Progress(working: Id, next: Order)
    | StopElsewhere

  const CENT := 0.01

  function Init(): World {
    World(Book(None, None, Uninitialized, false, map[], map[]), map[], map[], Idle, [], 0)
  }

  /** What the broker may do to an order it received. */
  predicate Executable(order: Order) {
    && order.Valid()
    && (order.intent.side.Buy? && order.average.Some? ==> order.average.value <= order.intent.limitPrice)
  }

  predicate Evolves(before: Order, after: Order) {
    && !before.state.Terminal()
    && after.intent == before.intent && after.brokerId == before.brokerId
    && before.filled <= after.filled
    && Executable(after)
  }

  /** An honest, possibly stale, answer about an order. */
  predicate Snapshot(seen: Order, actual: Order) {
    && seen.Valid()
    && seen.intent == actual.intent && seen.brokerId == actual.brokerId
    && seen.filled <= actual.filled
    && (seen.state.Terminal() ==> seen == actual)
  }

  predicate Honest(orders: map<Id, Order>, id: Id, reply: Option<Order>) {
    reply.Some? ==> id in orders && Snapshot(reply.value, orders[id])
  }

  /** The order a reconciliation uses for a row: the cached one once terminal, else the reply. */
  function Latest(row: Row, reply: Option<Order>): Option<Order> {
    if row.Open() then reply else row.order
  }

  predicate Acceptable(row: Row, latest: Option<Order>) {
    && latest.Some?
    && latest.value.intent == row.intent
    && (row.order.Some? ==> row.order.value.filled <= latest.value.filled)
  }

  function Desired(c: Config, long: bool): real {
    c.quantity * (if long then 1.0 else 0.0)
  }

  function Sized(clientId: Id, symbol: Symbol, delta: real, price: real): Intent {
    Intent(clientId, symbol, if delta > 0.0 then Buy else Sell, Abs(delta), price)
  }

  /** The exposure, cash and short-sale limits, in the order they are tried. */
  predicate WithinLimits(c: Config, account: Account, intent: Intent, delta: real) {
    var notional := intent.quantity * intent.limitPrice;
    && notional <= c.maximumOrderNotional
    && account.MarketValue() + (if delta > 0.0 then delta else 0.0) * intent.limitPrice
       <= c.maximumPositionNotional
    && (delta > 0.0 ==> notional <= account.cash && notional <= account.buyingPower)
    && (intent.side.Sell? ==> intent.quantity <= account.Held(intent.symbol))
  }

  predicate Enabled(c: Config, w: World, a: Action) {
    match a
    case Admit(symbol) => w.pc.Idle? && c.enabled && !w.book.stopped && symbol in c.symbols
    case SetBaseline(account) =>
      w.pc.Idle? && c.enabled && w.book.baseline.None? && account.Valid() && account.positions == []
    case BeginReconcile => (w.pc.Idle? || w.pc.Admitted? || w.pc.Answered?) && w.book.baseline.Some?
    case Observe(id, reply) =>
      && w.pc.Reconciling? && id in w.pc.todo && id in w.book.rows
      && Honest(w.orders, id, reply)
      && Acceptable(w.book.rows[id], Latest(w.book.rows[id], reply))
    case Match(account) =>
      && w.pc.Reconciling? && w.pc.todo == {} && w.book.baseline.Some? && account.Valid()
      && NonZero(w.pc.quantities) == account.Holdings()
      && Abs(account.cash - w.pc.cash) <= CENT
      && w.book.baseline.value.equity - account.equity < c.maximumSessionLoss
    case LossStop(account) =>
      && w.pc.Reconciling? && w.pc.todo == {} && w.book.baseline.Some? && account.Valid()
      && NonZero(w.pc.quantities) == account.Holdings()
      && Abs(account.cash - w.pc.cash) <= CENT
      && w.book.baseline.value.equity - account.equity >= c.maximumSessionLoss
    case Record => w.pc.Matched?
    case MarkReady => w.pc.Recorded?
    case Decide(minute, long) =>
      && w.pc.Sizing?
      && !(w.pc.symbol in w.book.decisions && w.book.decisions[w.pc.symbol] == minute)
      && (forall id :: id in w.book.rows ==> !w.book.rows[id].Open())
    case Price(clientId, price) =>
      && w.pc.Deciding? && price > 0.0
      && WithinLimits(c, w.pc.account, Sized(clientId, w.pc.symbol, w.pc.delta, price), w.pc.delta)
      && |w.book.rows| < c.maxOrders
      && !w.book.stopped
    case Commit => w.pc.Admissible? && w.pc.intent.id !in w.book.rows
    case MarkRequired => w.pc.Committed?
    case Precheck => w.pc.Marked? && !w.book.stopped
    case Clear => w.pc.Prechecked? && !w.book.stopped
    case Send => w.pc.Cleared?
    case Respond(order) =>
      && w.pc.Sent? && w.pc.intent.id in w.orders && w.pc.intent.id in w.book.rows
      && Snapshot(order, w.orders[w.pc.intent.id])
      && order.intent == w.pc.intent
    case Abort => !w.pc.Idle?
    case Arrive(posted, accepted) =>
      && posted in w.inflight && posted !in w.orders
      && accepted.intent == w.inflight[posted] && Executable(accepted)
    case Lose(lost) => lost in w.inflight
    case Progress(working, next) => working in w.orders && Evolves(w.orders[working], next)
    case StopElsewhere => true
  }

  function WithBook(w: World, book: Book, pc: Pc): World {
    w.(book := book, pc := pc)
  }

  function Apply(c: Config, w: World, a: Action): World
    requires Enabled(c, w, a)
  {
    match a
    case Admit(symbol) => w.(pc := Admitted(symbol))
    case SetBaseline(account) =>
      WithBook(w, w.book.(baseline := Some(account)), Matched(Alone, account))
    case BeginReconcile =>
      WithBook(w, w.book.(phase := ReconciliationRequired),
        Reconciling(if w.pc.Admitted? then ForCycle(w.pc.symbol) else Alone,
          w.book.rows.Keys, w.book.baseline.value.cash, map[]))
    case Observe(id, reply) =>
      var row := w.book.rows[id];
      var seen := Row(row.intent, Latest(row, reply));
      WithBook(w, w.book.(rows := w.book.rows[id := seen]),
        w.pc.(todo := w.pc.todo - {id}, cash := w.pc.cash - RowSpent(seen), quantities := Tally(w.pc.quantities, seen)))
    case Match(account) => w.(pc := Matched(w.pc.goal, account))
    case LossStop(account) => WithBook(w, w.book.(stopped := true), Idle)
    case Record =>
      WithBook(w, w.book.(account := Some(w.pc.account)), Recorded(w.pc.goal, w.pc.account))
    case MarkReady =>
      WithBook(w, w.book.(phase := Ready),
        if w.pc.goal.ForCycle? then Sizing(w.pc.goal.symbol, w.pc.account) else Idle)
    case Decide(minute, long) =>
      var delta := Desired(c, long) - w.pc.account.Held(w.pc.symbol);
      WithBook(w, w.book.(decisions := w.book.decisions[w.pc.symbol := minute]),
        if delta == 0.0 then Idle else Deciding(w.pc.symbol, w.pc.account, delta))
    case Price(clientId, price) => w.(pc := Admissible(Sized(clientId, w.pc.symbol, w.pc.delta, price)))
    case Commit =>
      WithBook(w, w.book.(rows := w.book.rows[w.pc.intent.id := Row(w.pc.intent, None)]), Committed(w.pc.intent))
    case MarkRequired => WithBook(w, w.book.(phase := ReconciliationRequired), Marked(w.pc.intent))
    case Precheck => w.(pc := Prechecked(w.pc.intent))
    case Clear => w.(pc := Cleared(w.pc.intent))
    case Send =>
      w.(inflight := w.inflight[w.pc.intent.id := w.pc.intent], pc := Sent(w.pc.intent),
         posts := w.posts + [w.pc.intent.id], late := w.late + (if w.book.stopped then 1 else 0))
    case Respond(order) =>
      WithBook(w, w.book.(rows := w.book.rows[w.pc.intent.id := Row(w.pc.intent, Some(order))]), Answered)
    case Abort => w.(pc := Idle)
    case Arrive(posted, accepted) =>
      w.(orders := w.orders[posted := accepted], inflight := w.inflight - {posted})
    case Lose(lost) => w.(inflight := w.inflight - {lost})
    case Progress(working, next) => w.(orders := w.orders[working := next])
    case StopElsewhere => w.(book := w.book.(stopped := true))
  }

  /** Every action of the script is enabled when its turn comes. */
  predicate Legal(c: Config, w: World, script: seq<Action>)
    decreases |script|
  {
    script != [] ==> Enabled(c, w, script[0]) && Legal(c, Apply(c, w, script[0]), script[1..])
  }

  /** The world a legal script leads to. */
  function Run(c: Config, w: World, script: seq<Action>): World
    requires Legal(c, w, script)
    decreases |script|
  {
    if script == [] then w else Run(c, Apply(c, w, script[0]), script[1..])
  }

  lemma {:induction false} RunAppend(c: Config, w: World, script: seq<Action>, a: Action)
    requires Legal(c, w, script) && Enabled(c, Run(c, w, script), a)
    ensures Legal(c, w, script + [a])
    ensures Run(c, w, script + [a]) == Apply(c, Run(c, w, script), a)
    decreases |script|
  {
    if script == [] {
      assert [a][1..] == [];
    } else {
      assert (script + [a])[1..] == script[1..] + [a];
      RunAppend(c, Apply(c, w, script[0]), script[1..], a);
    }
  }
}
