/** What the paper operator is told and what its writes come to, and the conditions it decides on. */
module PaperInputs {
  import opened Basics
  import opened PaperModels
  import opened PaperProtocol
  import opened PaperSafety
  import Replay

  datatype EngineError =
    | PaperContract | PaperStore | PaperIdentity | PaperDisabled | PaperSymbol | PaperBaseline | AccountIdentity
    | SubmissionUnknown | OrderDivergence | ExternalOrder | AccountDivergence | LossLimit
    | Qualification | MarketSession | StaleQuote | SpreadLimit | FeatureSession | FeatureFreshness | FeatureGap
    | WorkingOrder | StrategyContract | PriceTick | NotionalLimit | ShortSale | OrderLimit | AdmissionExpired
    | DuplicateIntent

  /** One read of the broker: it raises, or it answers. */
  datatype Reply<+T> = Raised | Answer(value: T)

  /** Whether each journal transaction of a reconciliation commits; one that does not raises PaperStore. */
  datatype Writes = Writes(begins: bool, observes: Id -> bool, stops: bool, account: bool, ready: bool)

  /** What a reconciliation is told, in the order it asks. */
  datatype Snapshots = Snapshots(
    first: Reply<Account>, lookup: Id -> Reply<Option<Order>>, open: Reply<seq<Order>>, second: Reply<Account>,
    writes: Writes)

  // ----- reconciliation -----

  /** The configured account, unrestricted. */
  predicate Own(c: Config, reply: Reply<Account>) {
    reply.Answer? && reply.value.Valid() && reply.value.digest == c.accountDigest && !reply.value.blocked
  }

  function Heard(reply: Reply<Option<Order>>): Option<Order> {
    if reply.Answer? then reply.value else None
  }

  /** A row that is not finished is asked about; what it is taken to be must fit what is journaled. */
  predicate Observable(row: Row, reply: Reply<Option<Order>>) {
    Acceptable(row, Latest(row, Heard(reply)))
  }

  /** ... and what changed has to be written. */
  predicate Recordable(row: Row, reply: Reply<Option<Order>>, commits: bool) {
    Observable(row, reply) && (commits || Latest(row, Heard(reply)) == row.order)
  }

  /** The checks that a row is put through, in their order. */
  lemma RecordableIs(row: Row, reply: Reply<Option<Order>>, commits: bool)
    ensures var latest := Latest(row, Heard(reply));
      && (row.Open() && reply.Raised? ==> latest.None?)
      && (!row.Open() ==> latest == row.order)
      && (Observable(row, reply) <==>
            && latest.Some? && latest.value.intent == row.intent
            && (row.order.Some? ==> row.order.value.filled <= latest.value.filled))
      && (Observable(row, reply) ==> Acceptable(row, latest))
      && (Observable(row, reply) && row.Open() ==> reply == Answer(latest))
      && (Recordable(row, reply, commits) <==> Observable(row, reply) && (commits || latest == row.order))
      && (row.Open() && reply.Raised? ==> RowErrorMeans(row, reply, commits, PaperContract))
      && (latest.None? && !(row.Open() && reply.Raised?) ==> RowErrorMeans(row, reply, commits, SubmissionUnknown))
      && (latest.Some? && !Observable(row, reply) ==> RowErrorMeans(row, reply, commits, OrderDivergence))
      && (Observable(row, reply) && latest != row.order && !commits ==> RowErrorMeans(row, reply, commits, PaperStore))
  {
  }

  /** A row that is refused says why: the read, the missing order, the changed intent or fill, or the write. */
  predicate RowErrorMeans(row: Row, reply: Reply<Option<Order>>, commits: bool, error: EngineError) {
    match error
    case PaperContract => row.Open() && reply.Raised?
    case SubmissionUnknown => row.Open() && reply == Answer(None)
    case OrderDivergence =>
      if row.Open() then
        && reply.Answer? && reply.value.Some?
        && (reply.value.value.intent != row.intent
            || (row.order.Some? && reply.value.value.filled < row.order.value.filled))
      else row.order.value.intent != row.intent
    case PaperStore => row.Open() && reply.Answer? && reply.value.Some? && reply.value != row.order && !commits
    case _ => false
  }

  predicate AllRecordable(rows: map<Id, Row>, io: Snapshots) {
    forall id :: id in rows ==> Recordable(rows[id], io.lookup(id), io.writes.observes(id))
  }

  /** The rows once those in done have been observed. */
  function Refreshed(rows: map<Id, Row>, done: set<Id>, lookup: Id -> Reply<Option<Order>>): (after: map<Id, Row>)
    ensures after.Keys == rows.Keys
  {
    map id | id in rows ::
      if id in done then Row(rows[id].intent, Latest(rows[id], Heard(lookup(id)))) else rows[id]
  }

  /** The account holds exactly the baseline plus every cumulative fill, counted once, to the cent in cash. */
  ghost predicate Balanced(baseline: Account, rows: map<Id, Row>, account: Account) {
    && (forall s: Symbol :: account.Held(s) == Net(rows, rows.Keys, s))
    && Abs(account.cash - (baseline.cash - Spent(rows, rows.Keys))) <= CENT
  }

  /** The last reads went through and name no order that is not ours. */
  predicate Foreseen(c: Config, book: Book, io: Snapshots) {
    io.open.Answer? && (forall o :: o in io.open.value ==> o.intent.id in book.rows) && Own(c, io.second)
  }

  /** Reconciliation gets as far as its rows. */
  predicate Begins(c: Config, book: Book, io: Snapshots) {
    book.baseline.Some? && Own(c, io.first) && io.writes.begins
  }

  /** Every row is accounted for by the broker, and the account by every fill. */
  ghost predicate Agrees(c: Config, book: Book, io: Snapshots) {
    && Begins(c, book, io) && AllRecordable(book.rows, io) && Foreseen(c, book, io)
    && Balanced(book.baseline.value, Refreshed(book.rows, book.rows.Keys, io.lookup), io.second.value)
  }

  predicate LossReached(c: Config, book: Book, io: Snapshots) {
    && book.baseline.Some? && io.second.Answer?
    && book.baseline.value.equity - io.second.value.equity >= c.maximumSessionLoss
  }

  ghost predicate Reconciles(c: Config, book: Book, io: Snapshots) {
    Agrees(c, book, io) && !LossReached(c, book, io) && io.writes.account && io.writes.ready
  }

  /** Some of the rows have been observed, and nothing else was written. */
  ghost predicate PartlyRefreshed(before: Book, after: Book, lookup: Id -> Reply<Option<Order>>) {
    exists done :: done <= before.rows.Keys && after == before.(rows := Refreshed(before.rows, done, lookup))
  }

  /** How the checks after the rows end, on a book whose rows are all observed. */
  ghost predicate SettlesTo(c: Config, before: Book, after: Book, io: Snapshots, r: Result<Account, EngineError>)
    requires before.baseline.Some?
  {
    var balanced := Foreseen(c, before, io) && Balanced(before.baseline.value, before.rows, io.second.value);
    var loss := LossReached(c, before, io);
    && (r.Success? <==> balanced && !loss && io.writes.account && io.writes.ready)
    && (r.Success? ==> r.value == io.second.value)
    && (r == Failure(LossLimit) <==> balanced && loss && io.writes.stops)
    && after == before.(
         phase := if r.Success? then Ready else before.phase,
         account := if balanced && !loss && io.writes.account then Some(io.second.value) else before.account,
         stopped := before.stopped || r == Failure(LossLimit))
  }

  /** A reconciliation that raised: which rows were observed, and what else it may have written. */
  ghost predicate Unsettled(c: Config, before: Book, after: Book, io: Snapshots, error: EngineError) {
    && (error == LossLimit <==> Agrees(c, before, io) && LossReached(c, before, io) && io.writes.stops)
    && (exists done :: done <= before.rows.Keys && after.rows == Refreshed(before.rows, done, io.lookup))
    && after.baseline == before.baseline && after.decisions == before.decisions
    && after.phase == (if Begins(c, before, io) then ReconciliationRequired else before.phase)
    && after.stopped == (before.stopped || error == LossLimit)
    && after.account == (if Agrees(c, before, io) && !LossReached(c, before, io) && io.writes.account
                         then Some(io.second.value) else before.account)
  }

  lemma SomeRefreshed(before: Book, after: Book, done: set<Id>, lookup: Id -> Reply<Option<Order>>)
    requires done <= before.rows.Keys && after == before.(rows := Refreshed(before.rows, done, lookup))
    ensures PartlyRefreshed(before, after, lookup)
  {
  }

  lemma OwnIsValid(c: Config, reply: Reply<Account>)
    requires Own(c, reply)
    ensures reply.Answer? && reply.value.Valid()
  {
  }

  /** Why an account read was refused. */
  predicate AccountErrorMeans(c: Config, reply: Reply<Account>, error: EngineError) {
    match error
    case PaperContract => reply.Raised? || !reply.value.Valid()
    case AccountIdentity => reply.Answer? && (reply.value.digest != c.accountDigest || reply.value.blocked)
    case _ => false
  }

  /** Why the checks after the rows failed. */
  ghost predicate SettleErrorMeans(
    c: Config, baseline: Account, rows: map<Id, Row>, io: Snapshots, error: EngineError)
  {
    match error
    case PaperContract => io.open.Raised? || AccountErrorMeans(c, io.second, PaperContract)
    case AccountIdentity => AccountErrorMeans(c, io.second, AccountIdentity)
    case ExternalOrder => io.open.Answer? && exists o :: o in io.open.value && o.intent.id !in rows
    case AccountDivergence => io.second.Answer? && !Balanced(baseline, rows, io.second.value)
    case LossLimit => io.second.Answer? && baseline.equity - io.second.value.equity >= c.maximumSessionLoss
    case PaperStore => !io.writes.stops || !io.writes.account || !io.writes.ready
    case _ => false
  }

  /** Why a reconciliation failed: at its start, at one of its rows, or after them. */
  ghost predicate ReconcileErrorMeans(c: Config, book: Book, io: Snapshots, error: EngineError) {
    || (error.PaperBaseline? && book.baseline.None?)
    || AccountErrorMeans(c, io.first, error)
    || (error.PaperStore? && !io.writes.begins)
    || (exists id :: id in book.rows && RowErrorMeans(book.rows[id], io.lookup(id), io.writes.observes(id), error))
    || (book.baseline.Some?
        && SettleErrorMeans(c, book.baseline.value, Refreshed(book.rows, book.rows.Keys, io.lookup), io, error))
  }

  lemma SettleErrors(c: Config, baseline: Account, rows: map<Id, Row>, io: Snapshots)
    ensures io.open.Raised? ==> SettleErrorMeans(c, baseline, rows, io, PaperContract)
    ensures io.open.Answer? && (exists o :: o in io.open.value && o.intent.id !in rows) ==>
      SettleErrorMeans(c, baseline, rows, io, ExternalOrder)
    ensures forall error :: AccountErrorMeans(c, io.second, error) ==> SettleErrorMeans(c, baseline, rows, io, error)
    ensures io.second.Answer? && !Balanced(baseline, rows, io.second.value) ==>
      SettleErrorMeans(c, baseline, rows, io, AccountDivergence)
    ensures io.second.Answer? && baseline.equity - io.second.value.equity >= c.maximumSessionLoss ==>
      SettleErrorMeans(c, baseline, rows, io, LossLimit)
    ensures !io.writes.stops || !io.writes.account || !io.writes.ready ==>
      SettleErrorMeans(c, baseline, rows, io, PaperStore)
  {
    hide Balanced;
  }

  lemma ReconcileErrors(c: Config, book: Book, io: Snapshots)
    ensures book.baseline.None? ==> ReconcileErrorMeans(c, book, io, PaperBaseline)
    ensures !io.writes.begins ==> ReconcileErrorMeans(c, book, io, PaperStore)
    ensures forall error :: AccountErrorMeans(c, io.first, error) ==> ReconcileErrorMeans(c, book, io, error)
    ensures forall id, error ::
      id in book.rows && RowErrorMeans(book.rows[id], io.lookup(id), io.writes.observes(id), error) ==>
        ReconcileErrorMeans(c, book, io, error)
    ensures book.baseline.Some? ==> forall error ::
      SettleErrorMeans(c, book.baseline.value, Refreshed(book.rows, book.rows.Keys, io.lookup), io, error) ==>
        ReconcileErrorMeans(c, book, io, error)
  {
    hide AccountErrorMeans, RowErrorMeans, SettleErrorMeans, Refreshed;
  }

  /** However a reconciliation ends, it leaves baseline, decisions and the set of rows alone, and never unstops. */
  lemma KeepsBaseline(c: Config, before: Book, io: Snapshots)
    ensures forall after, error :: Unsettled(c, before, after, io, error) ==>
      && after.baseline == before.baseline && after.decisions == before.decisions
      && after.rows.Keys == before.rows.Keys && (before.stopped ==> after.stopped)
      && (forall id :: id in before.rows ==> after.rows[id].intent == before.rows[id].intent)
  {
    forall after, error | Unsettled(c, before, after, io, error)
      ensures after.rows.Keys == before.rows.Keys
      ensures forall id :: id in before.rows ==> after.rows[id].intent == before.rows[id].intent
    {
      var done :| done <= before.rows.Keys && after.rows == Refreshed(before.rows, done, io.lookup);
    }
  }

  /** Before its first write a reconciliation that raises has written nothing. */
  lemma BeginFails(c: Config, book: Book, io: Snapshots)
    requires Refreshed(book.rows, {}, io.lookup) == book.rows
    ensures Begins(c, book, io) <==> book.baseline.Some? && Own(c, io.first) && io.writes.begins
    ensures !Begins(c, book, io) ==> !Agrees(c, book, io) && !Reconciles(c, book, io)
    ensures forall error :: !Begins(c, book, io) && error != LossLimit ==> Unsettled(c, book, book, io, error)
  {
    forall error | !Begins(c, book, io) && error != LossLimit ensures Unsettled(c, book, book, io, error) {
      assert {} <= book.rows.Keys && book.rows == Refreshed(book.rows, {}, io.lookup);
    }
  }

  lemma RowsFail(c: Config, before: Book, after: Book, io: Snapshots, error: EngineError)
    requires Begins(c, before, io) && !AllRecordable(before.rows, io) && error != LossLimit
    requires PartlyRefreshed(before.(phase := ReconciliationRequired), after, io.lookup)
    ensures !Agrees(c, before, io) && !Reconciles(c, before, io) && Unsettled(c, before, after, io, error)
  {
  }

  /** The rows are observed, so the last checks decide. */
  lemma SettleDecides(
    c: Config, before: Book, middle: Book, after: Book, io: Snapshots, r: Result<Account, EngineError>)
    requires Begins(c, before, io) && AllRecordable(before.rows, io)
    requires middle == before.(phase := ReconciliationRequired,
                               rows := Refreshed(before.rows, before.rows.Keys, io.lookup))
    requires SettlesTo(c, middle, after, io, r)
    ensures r.Success? <==> Reconciles(c, before, io)
    ensures r.Success? ==> r.value.Valid() && r.value.digest == c.accountDigest && !r.value.blocked
    ensures r.Success? ==>
      r.value == io.second.value && after == before.(phase := Ready, account := Some(r.value), rows := middle.rows)
    ensures r.Failure? ==> Unsettled(c, before, after, io, r.error)
  {
    assert Foreseen(c, middle, io) == Foreseen(c, before, io);
    assert before.rows.Keys <= before.rows.Keys;
  }

  /** The converse of MatchedHoldings: equal quantities make equal tables. */
  lemma HoldingsMatch(quantities: map<Symbol, real>, account: Account)
    requires forall s: Symbol :: Quantity(quantities, s) == account.Held(s)
    ensures NonZero(quantities) == account.Holdings()
  {
    forall s: Symbol ensures s in NonZero(quantities) <==> s in account.Holdings() {
      assert Quantity(quantities, s) == account.Held(s);
      if s !in Symbols(account.positions) {
        UnlistedIsZero(account.positions, s);
      }
    }
    forall s | s in NonZero(quantities) ensures NonZero(quantities)[s] == account.Holdings()[s] {
      assert Quantity(quantities, s) == account.Held(s);
    }
  }

  /** Totals over the rows read so far, whoever sent them. */
  lemma TotalsStart(book: Book)
    requires book.baseline.Some?
    ensures Totals(book.baseline, book.rows, book.rows.Keys, book.baseline.value.cash, map[])
  {
    assert book.rows.Keys - book.rows.Keys == {};
  }

  lemma TotalsEnd(book: Book, cash: real, quantities: map<Symbol, real>, account: Account)
    requires Totals(book.baseline, book.rows, {}, cash, quantities)
    ensures (NonZero(quantities) == account.Holdings() && Abs(account.cash - cash) <= CENT) <==>
      Balanced(book.baseline.value, book.rows, account)
  {
    assert book.rows.Keys - {} == book.rows.Keys;
    if NonZero(quantities) == account.Holdings() {
      MatchedHoldings(quantities, account);
    }
    if forall s: Symbol :: Quantity(quantities, s) == account.Held(s) {
      HoldingsMatch(quantities, account);
    }
  }

  lemma RefreshedMore(rows: map<Id, Row>, done: set<Id>, lookup: Id -> Reply<Option<Order>>, id: Id)
    requires id in rows && id !in done
    ensures Refreshed(rows, done, lookup)[id] == rows[id]
    ensures Refreshed(rows, done, lookup)[id := Row(rows[id].intent, Latest(rows[id], Heard(lookup(id))))] ==
      Refreshed(rows, done + {id}, lookup)
  {
  }

  /** Once all are observed, a row that was open holds the broker's answer, and any other is as it was. */
  lemma RefreshedMeans(rows: map<Id, Row>, io: Snapshots)
    requires AllRecordable(rows, io)
    ensures forall id :: id in rows ==>
      var after := Refreshed(rows, rows.Keys, io.lookup)[id];
      && after.intent == rows[id].intent && after.order.Some? && after.order.value.intent == after.intent
      && (if rows[id].Open() then io.lookup(id) == Answer(after.order) else after == rows[id])
  {
    hide Observable, Recordable;
    forall id | id in rows
      ensures var after := Refreshed(rows, rows.Keys, io.lookup)[id];
        && after.intent == rows[id].intent && after.order.Some? && after.order.value.intent == after.intent
        && (if rows[id].Open() then io.lookup(id) == Answer(after.order) else after == rows[id])
    {
      RecordableIs(rows[id], io.lookup(id), io.writes.observes(id));
    }
  }

  lemma RefreshedNone(rows: map<Id, Row>, lookup: Id -> Reply<Option<Order>>)
    ensures Refreshed(rows, {}, lookup) == rows
  {
  }

  /** Part of the way through the rows: those no longer to do are acceptable, refreshed and counted. */
  ghost predicate Visited(
    start: Book, book: Book, io: Snapshots, todo: set<Id>, cash: real, quantities: map<Symbol, real>)
  {
    && todo <= start.rows.Keys
    && book == start.(rows := Refreshed(start.rows, start.rows.Keys - todo, io.lookup))
    && (forall id :: id in start.rows.Keys - todo ==>
          Recordable(start.rows[id], io.lookup(id), io.writes.observes(id)))
    && Totals(book.baseline, book.rows, todo, cash, quantities)
  }

  lemma VisitedNone(start: Book, io: Snapshots)
    requires start.baseline.Some?
    ensures Visited(start, start, io, start.rows.Keys, start.baseline.value.cash, map[])
  {
    TotalsStart(start);
    assert Refreshed(start.rows, start.rows.Keys - start.rows.Keys, io.lookup) == start.rows;
  }

  lemma NotVisitedYet(
    start: Book, book: Book, io: Snapshots, todo: set<Id>, cash: real, quantities: map<Symbol, real>, id: Id)
    requires Visited(start, book, io, todo, cash, quantities) && id in todo
    ensures id in start.rows && id in book.rows && book.rows[id] == start.rows[id]
  {
  }

  lemma VisitedMore(
    start: Book, book: Book, io: Snapshots, todo: set<Id>, cash: real, quantities: map<Symbol, real>, id: Id,
    row: Row)
    requires Visited(start, book, io, todo, cash, quantities) && id in todo
    requires id in start.rows && Recordable(start.rows[id], io.lookup(id), io.writes.observes(id))
    requires row == Row(start.rows[id].intent, Latest(start.rows[id], Heard(io.lookup(id)))) && row.order.Some?
    ensures Visited(start, book.(rows := book.rows[id := row]), io, todo - {id},
                    cash - RowSpent(row), Tally(quantities, row))
  {
    hide Recordable, Latest, Totals, Tally, RowSpent;
    RefreshedMore(start.rows, start.rows.Keys - todo, io.lookup, id);
    assert start.rows.Keys - todo + {id} == start.rows.Keys - (todo - {id});
    ObserveTotals(book.baseline, book.rows, todo, cash, quantities, id, row);
  }

  lemma VisitedAll(start: Book, book: Book, io: Snapshots, cash: real, quantities: map<Symbol, real>)
    requires Visited(start, book, io, {}, cash, quantities)
    ensures AllRecordable(start.rows, io)
    ensures book == start.(rows := Refreshed(start.rows, start.rows.Keys, io.lookup))
    ensures Totals(book.baseline, book.rows, {}, cash, quantities)
  {
    assert start.rows.Keys - {} == start.rows.Keys;
  }

  lemma VisitFails(
    start: Book, book: Book, io: Snapshots, todo: set<Id>, cash: real, quantities: map<Symbol, real>, id: Id)
    requires Visited(start, book, io, todo, cash, quantities)
    requires id in start.rows && !Recordable(start.rows[id], io.lookup(id), io.writes.observes(id))
    ensures !AllRecordable(start.rows, io) && PartlyRefreshed(start, book, io.lookup)
  {
    SomeRefreshed(start, book, start.rows.Keys - todo, io.lookup);
  }

  // ----- what the broker does meanwhile -----

  /** Orders only appear, fill further, or finish for good. */
  predicate OrdersGrow(before: map<Id, Order>, after: map<Id, Order>) {
    forall id :: id in before ==>
      && id in after && after[id].intent == before[id].intent && after[id].brokerId == before[id].brokerId
      && before[id].filled <= after[id].filled
      && (before[id].state.Terminal() ==> after[id] == before[id])
  }

  lemma GrowthAddsUp(a: map<Id, Order>, b: map<Id, Order>, c: map<Id, Order>)
    requires OrdersGrow(a, b) && OrdersGrow(b, c)
    ensures OrdersGrow(a, c)
  {
  }

  /** Every answer about a working row is honest. */
  predicate AllHonest(orders: map<Id, Order>, rows: map<Id, Row>, lookup: Id -> Reply<Option<Order>>) {
    forall id :: id in rows && rows[id].Open() && lookup(id).Answer? ==> Honest(orders, id, lookup(id).value)
  }

  /** An answer that was honest once stays an honest, if stale, answer. */
  lemma HonestLater(
    before: map<Id, Order>, after: map<Id, Order>, rows: map<Id, Row>, lookup: Id -> Reply<Option<Order>>)
    requires OrdersGrow(before, after) && AllHonest(before, rows, lookup)
    ensures AllHonest(after, rows, lookup)
  {
  }

  lemma OneIsHonest(orders: map<Id, Order>, rows: map<Id, Row>, lookup: Id -> Reply<Option<Order>>, id: Id)
    requires AllHonest(orders, rows, lookup) && id in rows && rows[id].Open() && Observable(rows[id], lookup(id))
    ensures Honest(orders, id, Latest(rows[id], Heard(lookup(id))))
  {
  }

  lemma NoGrowth(orders: map<Id, Order>)
    ensures OrdersGrow(orders, orders)
  {
  }

  /** An acceptable answer to an honest question was honest when it was given. */
  lemma StillTrusted(
    before: map<Id, Order>, now: map<Id, Order>, rows: map<Id, Row>, io: Snapshots, id: Id)
    requires OrdersGrow(before, now) && id in rows
    ensures AllHonest(before, rows, io.lookup) && rows[id].Open() && Observable(rows[id], io.lookup(id)) ==>
      Honest(now, id, Latest(rows[id], Heard(io.lookup(id))))
  {
    if AllHonest(before, rows, io.lookup) && rows[id].Open() && Observable(rows[id], io.lookup(id)) {
      HonestLater(before, now, rows, io.lookup);
      OneIsHonest(now, rows, io.lookup, id);
    }
  }

  /** The broker's side of the world: the orders it has, and the POSTs on their way to it. */
  datatype Venue = Venue(orders: map<Id, Order>, inflight: map<Id, Intent>)

  function VenueOf(w: World): Venue {
    Venue(w.orders, w.inflight)
  }

  /** One move of the broker, if it can be made. */
  function Moved(b: Venue, a: Action): Venue {
    match a
    case Arrive(posted, accepted) =>
      if posted in b.inflight && posted !in b.orders && accepted.intent == b.inflight[posted] && Executable(accepted)
      then Venue(b.orders[posted := accepted], b.inflight - {posted})
      else b
    case Lose(lost) => Venue(b.orders, b.inflight - {lost})
    case Progress(working, next) =>
      if working in b.orders && Evolves(b.orders[working], next) then Venue(b.orders[working := next], b.inflight)
      else b
    case _ => b
  }

  function After(b: Venue, weather: seq<Action>): Venue
    decreases |weather|
  {
    if weather == [] then b else After(Moved(b, weather[0]), weather[1..])
  }

  /** What the broker has done once a reconciliation has read the rows in todo, in key order. */
  function AfterRows(b: Venue, todo: set<Id>, weather: Id -> seq<Action>): Venue
    decreases |todo|
  {
    if todo == {} then b
    else
      var id := Least(todo);
      AfterRows(After(b, weather(id)), todo - {id}, weather)
  }

  lemma AfterRowsMore(b: Venue, todo: set<Id>, weather: Id -> seq<Action>)
    ensures AfterRows(b, {}, weather) == b
    ensures todo != {} ==>
      AfterRows(b, todo, weather) == AfterRows(After(b, weather(Least(todo))), todo - {Least(todo)}, weather)
  {
  }

  predicate FromBroker(a: Action) {
    a.Arrive? || a.Lose? || a.Progress?
  }

  /** What the broker does leaves the operator and the journal alone. */
  lemma BrokerOnly(c: Config, w: World, a: Action)
    requires FromBroker(a) && Enabled(c, w, a)
    ensures var after := Apply(c, w, a);
      && after.book == w.book && after.pc == w.pc && after.posts == w.posts && after.late == w.late
      && OrdersGrow(w.orders, after.orders) && VenueOf(after) == Moved(VenueOf(w), a)
  {
    hide WithinLimits, Honest, Acceptable, Snapshot, Executable, NonZero, Tally, RowSpent, Latest, Abs;
    match a
    case Arrive(posted, accepted) => assert Apply(c, w, a).orders == w.orders[posted := accepted];
    case Lose(lost) => assert Apply(c, w, a).orders == w.orders;
    case Progress(working, next) => assert Apply(c, w, a).orders == w.orders[working := next];
  }

  lemma CannotMove(c: Config, w: World, a: Action)
    requires !FromBroker(a) || !Enabled(c, w, a)
    ensures Moved(VenueOf(w), a) == VenueOf(w)
  {
    hide WithinLimits, Honest, Acceptable, Snapshot, NonZero, Tally, RowSpent, Latest, Abs;
    if a.Lose? {
      assert w.inflight - {a.lost} == w.inflight;
    }
  }

  /** Keys are read in ascending order. */
  function LeastFrom(ids: set<Id>, k: nat, ghost y: Id): (id: Id)
    requires y in ids && k <= y && forall x :: x in ids ==> k <= x
    ensures id in ids && forall x :: x in ids ==> id <= x
    decreases y - k
  {
    if k in ids then k else LeastFrom(ids, k + 1, y)
  }

  function Least(ids: set<Id>): (id: Id)
    requires ids != {}
    ensures id in ids && forall x :: x in ids ==> id <= x
  {
    ghost var y :| y in ids;
    LeastFrom(ids, 0, y)
  }

  /** An honest, acceptable answer is an Observe step of the protocol. */
  lemma SilenceIsHonest(orders: map<Id, Order>, id: Id)
    ensures Honest(orders, id, None)
  {
  }

  lemma ObserveIsAStep(c: Config, w: World, id: Id, asked: Option<Order>)
    requires w.pc.Reconciling? && id in w.pc.todo && id in w.book.rows && Honest(w.orders, id, asked)
    requires Acceptable(w.book.rows[id], Latest(w.book.rows[id], asked))
    ensures Enabled(c, w, Observe(id, asked))
    ensures var seen := Row(w.book.rows[id].intent, Latest(w.book.rows[id], asked));
      Apply(c, w, Observe(id, asked)) == w.(
        book := w.book.(rows := w.book.rows[id := seen]),
        pc := Reconciling(w.pc.goal, w.pc.todo - {id}, w.pc.cash - RowSpent(seen), Tally(w.pc.quantities, seen)))
  {
  }

  lemma DecideIsAStep(c: Config, w: World, minute: int, long: bool)
    requires w.pc.Sizing? && Settled(w.book.rows)
    requires !(w.pc.symbol in w.book.decisions && w.book.decisions[w.pc.symbol] == minute)
    ensures Enabled(c, w, Decide(minute, long))
    ensures var delta := Delta(c, w.pc.account, w.pc.symbol, long);
      Apply(c, w, Decide(minute, long)) == w.(
        book := w.book.(decisions := w.book.decisions[w.pc.symbol := minute]),
        pc := if delta == 0.0 then Idle else Deciding(w.pc.symbol, w.pc.account, delta))
  {
  }

  // ----- the market and the decision -----

  const SECOND := 1_000_000

  datatype Clock = Clock(at: int, isOpen: bool, nextClose: int)

  datatype Quote = Quote(at: int, bid: real, ask: real) {
    predicate Valid() {
      0.0 < bid <= ask
    }
  }

  datatype Tick = Tick(at: int, close: real)

  datatype Session = Session(opening: int, closing: int)

  /** Instants in microseconds; now is read once, after the clock; bars as the provider returned them. */
  datatype Market = Market(
    now: int, clock: Reply<Clock>, quote: Reply<Quote>, bars: Reply<seq<Tick>>, session: Reply<Session>)
  {
    predicate Complete() {
      clock.Answer? && quote.Answer? && quote.value.Valid() && bars.Answer? && session.Answer?
    }

    /** The minute being decided: bars must end where it starts. */
    function Minute(): int {
      now - now % Replay.MINUTE
    }

    function Closes(): seq<real>
      requires bars.Answer?
    {
      seq(|bars.value|, i requires 0 <= i < |bars.value| => bars.value[i].close)
    }
  }

  function SessionFault(m: Market): Option<EngineError>
    requires m.clock.Answer?
  {
    var clock := m.clock.value;
    if m.now - clock.at > 5 * SECOND || clock.at - m.now > 5 * SECOND || !clock.isOpen then Some(MarketSession)
    else None
  }

  function QuoteFault(c: Config, now: int, quote: Quote): Option<EngineError>
    requires quote.Valid()
  {
    if !(0 <= now - quote.at <= c.quoteAge * SECOND) then Some(StaleQuote)
    else if (quote.ask - quote.bid) / quote.bid * 10000.0 > c.maximumSpreadBps then Some(SpreadLimit)
    else None
  }

  /** The feature window: complete, current, within one session, and without a missing minute. */
  function WindowFault(c: Config, m: Market, bars: seq<Tick>, session: Session, day: int -> int): Option<EngineError> {
    if (exists b :: b in bars && b.at < session.opening) || m.now >= session.closing then Some(FeatureSession)
    else if |bars| != c.window || bars == [] || bars[|bars| - 1].at + Replay.MINUTE != m.Minute()
         || (exists b :: b in bars && day(b.at) != day(m.now)) then Some(FeatureFreshness)
    else if exists i :: 0 < i < |bars| && bars[i].at - bars[i - 1].at != Replay.MINUTE then Some(FeatureGap)
    else None
  }

  /** The first read that raises or check that fails, in the order they are made. */
  function MarketFault(c: Config, m: Market, day: int -> int): (fault: Option<EngineError>)
    ensures fault.None? ==>
      m.Complete() && WindowFault(c, m, m.bars.value, m.session.value, day).None?
  {
    if m.clock.Raised? then Some(PaperContract)
    else if SessionFault(m).Some? then SessionFault(m)
    else if m.quote.Raised? || !m.quote.value.Valid() then Some(PaperContract)
    else if QuoteFault(c, m.now, m.quote.value).Some? then QuoteFault(c, m.now, m.quote.value)
    else if m.bars.Raised? || m.session.Raised? then Some(PaperContract)
    else WindowFault(c, m, m.bars.value, m.session.value, day)
  }

  function Rule(c: Config): Replay.Candidate {
    if c.momentum then Replay.Momentum else Replay.MeanReversion
  }

  /** The live rule on the window, switched off in the last ten minutes of the session. */
  function LiveTarget(c: Config, m: Market): Option<bool>
    requires m.Complete()
  {
    var r := Replay.Target(m.Closes(), Rule(c), c.thresholdBps);
    if r.Failure? then None else Some(r.value == 1.0 && m.clock.value.nextClose - m.now > 600 * SECOND)
  }

  /** Shares still missing from the target. */
  function Delta(c: Config, account: Account, symbol: Symbol, long: bool): real {
    Desired(c, long) - account.Held(symbol)
  }

  /** Rounded down to whole cents. */
  function Cents(price: real): (c: real)
    ensures c <= price < c + CENT
  {
    (price * 100.0).Floor as real / 100.0
  }

  function Limit(quote: Quote, delta: real): real {
    Cents(if delta > 0.0 then quote.ask else quote.bid)
  }

  predicate Fresh(c: Config, account: Account, m: Market, at: int)
    requires m.Complete()
  {
    && 0 <= at - m.quote.value.at <= c.quoteAge * SECOND
    && 0 <= at - account.observedAt <= 15 * SECOND
    && at < m.session.value.closing
  }

  // ----- a whole cycle -----

  /** How the POST goes: refused on this side, lost or refused on the way, or answered. */
  datatype Post = NotSent | Lost | Replied(order: Order)

  /**
   * landedN: an emergency stop had committed by the N-th read of the stop flag. decides, notes,
   * journals, marks and records: whether the cycle's own transactions commit.
   */
  datatype Inputs = Inputs(
    bound: bool, qualified: bool, before: Snapshots, market: Market, day: int -> int, boundAgain: bool,
    dispatchAt: int, landed1: bool, landed2: bool, landed3: bool, landed4: bool, post: Post, after: Snapshots,
    decides: bool, notes: bool, journals: bool, marks: bool, records: bool)

  datatype Outcome = AlreadyDecided | NoOrder | Ordered(intent: Intent)

  /** A new minute, a faultless market, and a book without working orders. */
  ghost predicate Decidable(c: Config, decisions: map<Symbol, int>, rows: map<Id, Row>, symbol: Symbol, x: Inputs)
    ensures Decidable(c, decisions, rows, symbol, x) ==> x.market.Complete() && LiveTarget(c, x.market).Some?
  {
    && MarketFault(c, x.market, x.day).None?
    && !(symbol in decisions && decisions[symbol] == x.market.Minute())
    && Settled(rows) && LiveTarget(c, x.market).Some? && x.decides
  }

  /** Admitted, reconciled and decidable: the decision of this minute is recorded. */
  ghost predicate Decides(c: Config, book: Book, symbol: Symbol, x: Inputs)
    ensures Decides(c, book, symbol, x) ==>
      x.before.second.Answer? && x.market.Complete() && LiveTarget(c, x.market).Some?
  {
    && x.bound && c.enabled && !book.stopped && !x.landed1 && x.qualified && symbol in c.symbols
    && Reconciles(c, book, x.before)
    && Decidable(c, book.decisions, Refreshed(book.rows, book.rows.Keys, x.before.lookup), symbol, x)
  }

  /** The order a cycle chooses: the whole gap to the target, at the quote in whole cents. */
  function Chosen(c: Config, symbol: Symbol, clientId: (Symbol, int) -> Id, x: Inputs): Intent
    requires x.before.second.Answer? && x.market.Complete() && LiveTarget(c, x.market).Some?
  {
    var delta := Delta(c, x.before.second.value, symbol, LiveTarget(c, x.market).value);
    Sized(clientId(symbol, x.market.Minute()), symbol, delta, Limit(x.market.quote.value, delta))
  }

  /** A positive price, every limit, the row budget, no stop, a fresh quote and account, and a new id. */
  predicate Tradable(
    c: Config, rows: map<Id, Row>, account: Account, delta: real, intent: Intent, x: Inputs)
    requires x.market.Complete()
  {
    && intent.limitPrice > 0.0
    && WithinLimits(c, account, intent, delta)
    && |rows| < c.maxOrders && intent.id !in rows
    && x.boundAgain && c.enabled && !x.landed2
    && Fresh(c, account, x.market, x.dispatchAt)
  }

  /** Everything that has to hold for an intent to be journaled. */
  ghost predicate Journals(c: Config, book: Book, symbol: Symbol, clientId: (Symbol, int) -> Id, x: Inputs)
    ensures Journals(c, book, symbol, clientId, x) ==>
      x.before.second.Answer? && x.market.Complete() && LiveTarget(c, x.market).Some?
  {
    && Decides(c, book, symbol, x)
    && var delta := Delta(c, x.before.second.value, symbol, LiveTarget(c, x.market).value);
       delta != 0.0
       && Tradable(c, book.rows, x.before.second.value, delta, Chosen(c, symbol, clientId, x), x) && x.journals
  }

  /** The minute has been decided already: a cycle that gets this far ends there. */
  ghost predicate Repeats(c: Config, book: Book, symbol: Symbol, x: Inputs) {
    && x.bound && c.enabled && !book.stopped && !x.landed1 && x.qualified && symbol in c.symbols
    && Reconciles(c, book, x.before) && MarketFault(c, x.market, x.day).None?
    && symbol in book.decisions && book.decisions[symbol] == x.market.Minute()
  }

  /** The target is held already. */
  ghost predicate Holds(c: Config, book: Book, symbol: Symbol, x: Inputs) {
    && Decides(c, book, symbol, x)
    && Delta(c, x.before.second.value, symbol, LiveTarget(c, x.market).value) == 0.0
  }

  /** An intent is journaled and its POST leaves. */
  ghost predicate Sends(c: Config, book: Book, symbol: Symbol, clientId: (Symbol, int) -> Id, x: Inputs)
    ensures Sends(c, book, symbol, clientId, x) ==> Journals(c, book, symbol, clientId, x)
  {
    Journals(c, book, symbol, clientId, x) && x.marks && !x.landed3 && !x.landed4 && !x.post.NotSent?
  }

  /** The rows once an answer to the intent is recorded. */
  function Answering(rows: map<Id, Row>, intent: Intent, order: Order): map<Id, Row> {
    rows[intent.id := Row(intent, Some(order))]
  }

  /** The POST is answered with the intent itself, recorded, and accounted for by a second reconciliation. */
  ghost predicate Settles(c: Config, book: Book, intent: Intent, x: Inputs) {
    && x.post.Replied? && x.post.order.intent == intent && x.records
    && Reconciles(c, book.(rows := Answering(book.rows, intent, x.post.order)), x.after)
  }

  ghost predicate Completes(c: Config, book: Book, symbol: Symbol, clientId: (Symbol, int) -> Id, x: Inputs) {
    && Sends(c, book, symbol, clientId, x)
    && Settles(c, book.(rows := Refreshed(book.rows, book.rows.Keys, x.before.lookup)),
               Chosen(c, symbol, clientId, x), x)
  }

  /** A reconciliation only looks at baseline and rows. */
  lemma ReconcilesAlike(c: Config, a: Book, b: Book, io: Snapshots)
    requires a.baseline == b.baseline && a.rows == b.rows
    ensures Reconciles(c, a, io) == Reconciles(c, b, io)
  {
  }

  /** What a reconciliation refreshed is what the rest of the cycle works on. */
  lemma SettlesAlike(c: Config, before: Book, after: Book, intent: Intent, x: Inputs)
    requires after.baseline == before.baseline
    requires after.rows == Refreshed(before.rows, before.rows.Keys, x.before.lookup)
    ensures Settles(c, after, intent, x) ==
      Settles(c, before.(rows := Refreshed(before.rows, before.rows.Keys, x.before.lookup)), intent, x)
  {
    if x.post.Replied? {
      var rows := Answering(after.rows, intent, x.post.order);
      ReconcilesAlike(c, after.(rows := rows), before.(rows := rows), x.after);
    }
  }

  /** The broker's orders when its answer arrives: after the POST, and what it did in between. */
  function AtAnswer(b: Venue, intent: Intent, between: seq<Action>): map<Id, Order> {
    After(b.(inflight := b.inflight[intent.id := intent]), between).orders
  }

  /** The answer to the POST, and those of the reconciliation that follows, are honest when the POST is answered. */
  predicate AnsweredHonestly(orders: map<Id, Order>, rows: map<Id, Row>, intent: Intent, x: Inputs)
    requires x.post.Replied?
  {
    && intent.id in orders && Snapshot(x.post.order, orders[intent.id])
    && AllHonest(orders, Answering(rows, intent, x.post.order), x.after.lookup)
  }

  lemma TradableIsNew(c: Config, rows: map<Id, Row>, account: Account, delta: real, intent: Intent, x: Inputs)
    requires x.market.Complete() && Tradable(c, rows, account, delta, intent, x)
    ensures intent.id !in rows
  {
  }

  lemma TradableAlike(
    c: Config, a: map<Id, Row>, b: map<Id, Row>, account: Account, delta: real, intent: Intent, x: Inputs)
    requires a.Keys == b.Keys && x.market.Complete()
    ensures Tradable(c, a, account, delta, intent, x) == Tradable(c, b, account, delta, intent, x)
  {
    assert |a| == |a.Keys| == |b.Keys| == |b|;
  }

  /** An order that is not admitted says why, in what it would have done. */
  predicate AdmitErrorMeans(c: Config, book: Book, account: Account, intent: Intent, x: Inputs, error: EngineError)
    requires x.market.Complete()
  {
    var notional := intent.quantity * intent.limitPrice;
    var spends := if intent.side.Buy? then notional else 0.0;
    match error
    case PriceTick => intent.limitPrice <= 0.0
    case NotionalLimit =>
      || notional > c.maximumOrderNotional || account.MarketValue() + spends > c.maximumPositionNotional
      || spends > account.cash || spends > account.buyingPower
    case ShortSale => intent.side.Sell? && intent.quantity > account.Held(intent.symbol)
    case OrderLimit => |book.rows| >= c.maxOrders
    case PaperIdentity => !x.boundAgain
    case PaperDisabled => !c.enabled || book.stopped || x.landed2
    case AdmissionExpired => !Fresh(c, account, x.market, x.dispatchAt)
    case DuplicateIntent => intent.id in book.rows
    case _ => false
  }

  /** Each check that fails is one that its error names. */
  lemma AdmitErrors(c: Config, book: Book, account: Account, delta: real, intent: Intent, x: Inputs)
    requires x.market.Complete() && delta != 0.0
    requires intent == Sized(intent.id, intent.symbol, delta, intent.limitPrice)
    ensures intent.limitPrice <= 0.0 ==> AdmitErrorMeans(c, book, account, intent, x, PriceTick)
    ensures
      var notional := intent.quantity * intent.limitPrice;
      var gross := account.MarketValue() + (if delta > 0.0 then delta else 0.0) * intent.limitPrice;
      notional > c.maximumOrderNotional || gross > c.maximumPositionNotional
      || (delta > 0.0 && (notional > account.cash || notional > account.buyingPower)) ==>
        AdmitErrorMeans(c, book, account, intent, x, NotionalLimit)
    ensures intent.side.Sell? && intent.quantity > account.Held(intent.symbol) ==>
      AdmitErrorMeans(c, book, account, intent, x, ShortSale)
    ensures |book.rows| >= c.maxOrders ==> AdmitErrorMeans(c, book, account, intent, x, OrderLimit)
    ensures !x.boundAgain ==> AdmitErrorMeans(c, book, account, intent, x, PaperIdentity)
    ensures !c.enabled || book.stopped || x.landed2 ==> AdmitErrorMeans(c, book, account, intent, x, PaperDisabled)
    ensures !Fresh(c, account, x.market, x.dispatchAt) ==>
      AdmitErrorMeans(c, book, account, intent, x, AdmissionExpired)
    ensures intent.id in book.rows ==> AdmitErrorMeans(c, book, account, intent, x, DuplicateIntent)
  {
    hide Fresh;
  }

  // ----- cancellation -----

  predicate Unfinished(reply: Reply<Option<Order>>) {
    reply.Answer? && reply.value.Some? && !reply.value.value.state.Terminal()
  }

  /** Every row not known to be finished is located, and its cancellation accepted if it is still working. */
  predicate AllCancellable(rows: map<Id, Row>, lookup: Id -> Reply<Option<Order>>, deleted: Id -> bool) {
    forall id :: id in rows && rows[id].Open() ==>
      lookup(id).Answer? && lookup(id).value.Some? && (Unfinished(lookup(id)) ==> deleted(id))
  }
}
