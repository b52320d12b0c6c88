/**
 * The operator of the paper protocol as the source writes it (signal_foundry/trading/engine.py):
 * one object over the journal's state table, whose methods read the broker, check, and write one
 * key at a time; any read may raise and any write may fail to commit. Every method carries along
 * the run of the order protocol that it performs, so whatever holds of every run holds of the world
 * after every method.
 */
module PaperEngine {
  import opened Basics
  import opened PaperModels
  import opened PaperProtocol
  import opened PaperSafety
  import opened PaperInputs
  import PaperTheorems
  import CycleLaws

  class Engine {
    const config: Config
    var book: Book
    ghost var world: World
    ghost var history: seq<Action>
    ghost var trusted: bool

    /** While the broker has kept its promises, the world is where a legal run has led. */
    ghost predicate Reached()
      reads this
    {
      trusted ==> Legal(config, Init(), history) && Run(config, Init(), history) == world
    }

    ghost predicate Valid()
      reads this
    {
      Reached() && (trusted ==> world.book == book)
    }

    ghost predicate Resting()
      reads this
    {
      trusted ==> world.pc.Idle?
    }

    ghost function Broker(): Venue
      reads this
    {
      VenueOf(world)
    }

    constructor (config: Config)
      ensures Valid() && Resting() && trusted && this.config == config && book == Init().book && world == Init()
    {
      this.config, book, world, history, trusted := config, Init().book, Init(), [], true;
    }

    /** The step just written to the book, or just done over the network. */
    ghost method Step(a: Action)
      requires Reached() && (trusted ==> Enabled(config, world, a) && Apply(config, world, a).book == book)
      modifies this`world, this`history
      ensures Valid() && world == if trusted then Apply(config, old(world), a) else old(world)
    {
      if trusted {
        RunAppend(config, Init(), history, a);
        history, world := history + [a], Apply(config, world, a);
      }
    }

    /** Whatever the broker does meanwhile. */
    ghost method Drift(weather: seq<Action>)
      requires Valid()
      modifies this`world, this`history
      ensures Valid() && world.pc == old(world.pc) && world.posts == old(world.posts) && world.late == old(world.late)
      ensures OrdersGrow(old(world).orders, world.orders)
      ensures trusted ==> Broker() == After(old(Broker()), weather)
      decreases |weather|
    {
      hide Legal, Run, Enabled, Apply, OrdersGrow, Moved;
      ghost var orders := world.orders;
      NoGrowth(orders);
      if weather != [] {
        if trusted && FromBroker(weather[0]) && Enabled(config, world, weather[0]) {
          BrokerOnly(config, world, weather[0]);
          Step(weather[0]);
        } else if trusted {
          CannotMove(config, world, weather[0]);
        }
        ghost var next := world.orders;
        Drift(weather[1..]);
        GrowthAddsUp(orders, next, world.orders);
      }
    }

    /** The operation raises: the journal stays as it is. */
    ghost method Raise()
      requires Valid()
      modifies this`world, this`history
      ensures Valid() && Resting() && world.posts == old(world.posts) && Broker() == old(Broker())
    {
      if trusted && !world.pc.Idle? {
        Step(Abort);
      }
    }

    /** An emergency stop from another process. */
    method Land(landed: bool)
      requires Valid()
      modifies this`book, this`world, this`history
      ensures Valid() && book == old(book).(stopped := old(book.stopped) || landed)
      ensures world.pc == old(world.pc) && world.posts == old(world.posts) && Broker() == old(Broker())
    {
      if landed {
        book := book.(stopped := true);
        Step(StopElsewhere);
      }
    }

    /** The account read of every operation: the configured account, unrestricted. */
    method ReadAccount(reply: Reply<Account>) returns (r: Result<Account, EngineError>)
      ensures r.Success? <==> Own(config, reply)
      ensures r.Success? ==> r.value == reply.value
      ensures r.Failure? ==> AccountErrorMeans(config, reply, r.error)
    {
      if reply.Raised? || !reply.value.Valid() {
        return Failure(PaperContract);
      }
      if reply.value.digest != config.accountDigest || reply.value.blocked {
        return Failure(AccountIdentity);
      }
      r := Success(reply.value);
    }

    /** One row of a reconciliation: ask unless it is finished, check, and write what changed. */
    method ObserveRow(
      id: Id, reply: Reply<Option<Order>>, commits: bool, ghost todo: set<Id>, ghost cash: real,
      ghost quantities: map<Symbol, real>, ghost goal: Goal, ghost weather: seq<Action>)
      returns (r: Result<Row, EngineError>)
      requires Valid() && id in book.rows && id in todo
      requires trusted ==> world.pc == Reconciling(goal, todo, cash, quantities)
      modifies this`book, this`world, this`history, this`trusted
      ensures trusted <==>
        old(trusted) && (r.Success? && old(book).rows[id].Open() ==> Honest(world.orders, id, r.value.order))
      ensures Valid() && world.posts == old(world.posts) && OrdersGrow(old(world).orders, world.orders)
      ensures trusted ==> Broker() == After(old(Broker()), weather)
      ensures r.Success? <==> Recordable(old(book).rows[id], reply, commits)
      ensures r.Success? ==>
        && r.value.order.Some? && Observable(old(book).rows[id], reply)
        && r.value == Row(old(book).rows[id].intent, Latest(old(book).rows[id], Heard(reply)))
        && (if old(book).rows[id].Open() then reply == Answer(r.value.order) else r.value == old(book).rows[id])
        && book == old(book).(rows := old(book).rows[id := r.value])
        && (trusted ==>
              world.pc == Reconciling(goal, todo - {id}, cash - RowSpent(r.value), Tally(quantities, r.value)))
      ensures r.Failure? ==> book == old(book) && r.error != LossLimit
      ensures r.Failure? ==> RowErrorMeans(old(book).rows[id], reply, commits, r.error)
    {
      hide *;
      var row := book.rows[id];
      Drift(weather);
      RecordableIs(row, reply, commits);
      if row.Open() && reply.Raised? {
        return Failure(PaperContract);
      }
      var latest := Latest(row, Heard(reply));
      if latest.None? {
        return Failure(SubmissionUnknown);
      }
      if latest.value.intent != row.intent || (row.order.Some? && latest.value.filled < row.order.value.filled) {
        return Failure(OrderDivergence);
      }
      r := RecordRow(id, latest.value, commits, todo, cash, quantities, goal);
    }

    /** What changed is written; an answer already journaled is not. */
    method RecordRow(
      id: Id, latest: Order, commits: bool, ghost todo: set<Id>, ghost cash: real,
      ghost quantities: map<Symbol, real>, ghost goal: Goal)
      returns (r: Result<Row, EngineError>)
      requires Valid() && id in book.rows && id in todo && Acceptable(book.rows[id], Some(latest))
      requires !book.rows[id].Open() ==> book.rows[id].order == Some(latest)
      requires trusted ==> world.pc == Reconciling(goal, todo, cash, quantities)
      modifies this`book, this`world, this`history, this`trusted
      ensures trusted <==>
        old(trusted) && (r.Success? && old(book).rows[id].Open() ==> Honest(world.orders, id, Some(latest)))
      ensures Valid() && world.posts == old(world.posts) && Broker() == old(Broker())
      ensures world.orders == old(world.orders)
      ensures var row := Row(old(book).rows[id].intent, Some(latest));
        && r == (if commits || row == old(book).rows[id] then Success(row) else Failure(PaperStore))
        && (r.Success? ==>
              && book == old(book).(rows := old(book).rows[id := row])
              && (trusted ==>
                    world.pc == Reconciling(goal, todo - {id}, cash - RowSpent(row), Tally(quantities, row))))
      ensures r.Failure? ==> book == old(book)
    {
      hide Legal, Run, Enabled, Apply, Tally, RowSpent, Honest;
      var row := book.rows[id];
      var seen := Row(row.intent, Some(latest));
      if seen != row {
        if !commits {
          return Failure(PaperStore);
        }
        book := book.(rows := book.rows[id := seen]);
      }
      assert book.rows == old(book).rows[id := seen];
      ghost var asked := if row.Open() then Some(latest) else None;
      SilenceIsHonest(world.orders, id);
      trusted := trusted && Honest(world.orders, id, asked);
      if trusted {
        ObserveIsAStep(config, world, id, asked);
      }
      Step(Observe(id, asked));
      r := Success(seen);
    }

    /** The loop of a reconciliation: every row once, in key order, with running cash and quantities. */
    method ObserveAll(io: Snapshots, ghost goal: Goal, ghost weather: Id -> seq<Action>)
      returns (r: Result<(real, map<Symbol, real>), EngineError>)
      requires Valid() && book.baseline.Some?
      requires trusted ==> world.pc == Reconciling(goal, book.rows.Keys, book.baseline.value.cash, map[])
      modifies this`book, this`world, this`history, this`trusted
      ensures (trusted ==> old(trusted))
           && (old(trusted) && AllHonest(old(world).orders, old(book).rows, io.lookup) ==> trusted)
      ensures Valid() && world.posts == old(world.posts)
      ensures r.Success? && trusted ==> Broker() == AfterRows(old(Broker()), old(book).rows.Keys, weather)
      ensures r.Success? <==> AllRecordable(old(book).rows, io)
      ensures r.Success? ==>
        && book == old(book).(rows := Refreshed(old(book).rows, old(book).rows.Keys, io.lookup))
        && Totals(book.baseline, book.rows, {}, r.value.0, r.value.1)
        && (trusted ==> world.pc == Reconciling(goal, {}, r.value.0, r.value.1))
      ensures r.Failure? ==> r.error != LossLimit && PartlyRefreshed(old(book), book, io.lookup)
      ensures r.Failure? ==> exists id ::
        id in old(book).rows && RowErrorMeans(old(book).rows[id], io.lookup(id), io.writes.observes(id), r.error)
    {
      hide *;
      ghost var start, orders := book, world.orders;
      var cash, quantities, todo := book.baseline.value.cash, map[], book.rows.Keys;
      VisitedNone(start, io);
      NoGrowth(orders);
      while todo != {}
        invariant Valid() && world.posts == old(world.posts) && (trusted ==> old(trusted))
        invariant OrdersGrow(orders, world.orders)
        invariant old(trusted) && AllHonest(orders, start.rows, io.lookup) ==> trusted
        invariant trusted ==> world.pc == Reconciling(goal, todo, cash, quantities)
        invariant trusted ==> AfterRows(Broker(), todo, weather) == AfterRows(old(Broker()), start.rows.Keys, weather)
        invariant Visited(start, book, io, todo, cash, quantities)
      {
        var id := Least(todo);
        NotVisitedYet(start, book, io, todo, cash, quantities, id);
        ghost var before, prior := book, world.orders;
        AfterRowsMore(Broker(), todo, weather);
        var seen := ObserveRow(id, io.lookup(id), io.writes.observes(id), todo, cash, quantities, goal, weather(id));
        GrowthAddsUp(orders, prior, world.orders);
        StillTrusted(orders, world.orders, start.rows, io, id);
        if seen.Failure? {
          VisitFails(start, book, io, todo, cash, quantities, id);
          return Failure(seen.error);
        }
        VisitedMore(start, before, io, todo, cash, quantities, id, seen.value);
        cash, quantities := cash - RowSpent(seen.value), Tally(quantities, seen.value);
        todo := todo - {id};
      }
      VisitedAll(start, book, io, cash, quantities);
      AfterRowsMore(Broker(), {}, weather);
      r := Success((cash, quantities));
    }

    /**
     * Rebuilds cash and quantities from cumulative fills. It succeeds exactly when the broker's
     * answers account for every row, the account for every fill, and the writes commit; repeating it
     * counts nothing twice, because it always starts from the baseline. Told of another account
     * first, it writes nothing at all.
     */
    method Reconcile(io: Snapshots, ghost weather: Id -> seq<Action>)
      returns (r: Result<Account, EngineError>)
      requires Valid() && (trusted ==> world.pc.Idle? || world.pc.Admitted? || world.pc.Answered?)
      modifies this`book, this`world, this`history, this`trusted
      ensures (trusted ==> old(trusted))
           && (old(trusted) && AllHonest(old(world).orders, old(book).rows, io.lookup) ==> trusted)
      ensures Valid() && world.posts == old(world.posts)
      ensures r.Success? && trusted ==> Broker() == AfterRows(old(Broker()), old(book).rows.Keys, weather)
      ensures r.Success? <==> old(Reconciles(config, book, io))
      ensures r.Success? ==> r.value.digest == config.accountDigest && !r.value.blocked && r.value.Valid()
      ensures r.Success? ==>
        && r.value == io.second.value
        && book == old(book).(phase := Ready, account := Some(r.value),
                              rows := Refreshed(old(book).rows, old(book).rows.Keys, io.lookup))
        && (trusted ==> world.pc == if old(world.pc).Admitted? then Sizing(old(world.pc).symbol, r.value) else Idle)
      ensures r.Success? ==> forall id :: id in old(book).rows ==>
        && id in book.rows && book.rows[id].order.Some?
        && (if old(book).rows[id].Open() then io.lookup(id) == Answer(book.rows[id].order)
            else book.rows[id] == old(book).rows[id])
      ensures r.Failure? ==> Resting() && Unsettled(config, old(book), book, io, r.error)
      ensures !old(Begins(config, book, io)) ==> book == old(book)
      ensures r.Failure? ==> ReconcileErrorMeans(config, old(book), io, r.error)
    {
      hide *;
      RefreshedNone(book.rows, io.lookup);
      BeginFails(config, book, io);
      ReconcileErrors(config, book, io);
      if book.baseline.None? {
        Raise();
        return Failure(PaperBaseline);
      }
      var baseline := book.baseline.value;
      var first := ReadAccount(io.first);
      if first.Failure? {
        Raise();
        return Failure(first.error);
      }
      ghost var goal := if world.pc.Admitted? then ForCycle(world.pc.symbol) else Alone;
      var begun := Begin(io.writes.begins, goal);
      if begun.Failure? {
        return Failure(begun.error);
      }
      ghost var start := book;
      var observed := ObserveAll(io, goal, weather);
      if observed.Failure? {
        Raise();
        RowsFail(config, old(book), book, io, observed.error);
        return Failure(observed.error);
      }
      ghost var middle := book;
      RefreshedMeans(start.rows, io);
      r := Settle(io, baseline, observed.value.0, observed.value.1, goal);
      SettleDecides(config, old(book), middle, book, io, r);
    }

    /** The first write of a reconciliation. */
    method Begin(commits: bool, ghost goal: Goal) returns (r: Result<(), EngineError>)
      requires Valid() && book.baseline.Some?
      requires trusted ==> world.pc.Idle? || world.pc.Admitted? || world.pc.Answered?
      requires goal == if world.pc.Admitted? then ForCycle(world.pc.symbol) else Alone
      modifies this`book, this`world, this`history
      ensures Valid() && world.posts == old(world.posts)
      ensures Broker() == old(Broker()) && world.orders == old(world.orders)
      ensures if commits then r.Success? && book == old(book).(phase := ReconciliationRequired)
              else r == Failure(PaperStore) && book == old(book) && Resting()
      ensures commits && trusted ==>
        world.pc == Reconciling(goal, book.rows.Keys, book.baseline.value.cash, map[])
    {
      hide Legal, Run;
      if !commits {
        Raise();
        return Failure(PaperStore);
      }
      book := book.(phase := ReconciliationRequired);
      Step(BeginReconcile);
      r := Success(());
    }

    /** The checks after the rows: no foreign order, and the account agrees to the cent. */
    method Settle(io: Snapshots, baseline: Account, cash: real, quantities: map<Symbol, real>, ghost goal: Goal)
      returns (r: Result<Account, EngineError>)
      requires Valid() && book.baseline == Some(baseline)
      requires Totals(book.baseline, book.rows, {}, cash, quantities)
      requires trusted ==> world.pc == Reconciling(goal, {}, cash, quantities)
      modifies this`book, this`world, this`history
      ensures Valid() && world.posts == old(world.posts) && Broker() == old(Broker())
      ensures SettlesTo(config, old(book), book, io, r)
      ensures r.Failure? ==> SettleErrorMeans(config, baseline, old(book).rows, io, r.error)
      ensures r.Success? ==>
        (trusted ==> world.pc == if goal.ForCycle? then Sizing(goal.symbol, r.value) else Idle)
      ensures r.Failure? ==> Resting()
    {
      hide Legal, Run, Own, Enabled, Apply, NonZero, Balanced, SettleErrorMeans, AccountErrorMeans;
      SettleErrors(config, baseline, book.rows, io);
      if io.open.Raised? {
        Raise();
        return Failure(PaperContract);
      }
      if exists o :: o in io.open.value && o.intent.id !in book.rows {
        Raise();
        return Failure(ExternalOrder);
      }
      var second := ReadAccount(io.second);
      if second.Failure? {
        Raise();
        return Failure(second.error);
      }
      var account := second.value;
      OwnIsValid(config, io.second);
      TotalsEnd(book, cash, quantities, account);
      if NonZero(quantities) != account.Holdings() || Abs(account.cash - cash) > CENT {
        Raise();
        return Failure(AccountDivergence);
      }
      if baseline.equity - account.equity >= config.maximumSessionLoss {
        r := EngageStop(io.writes.stops, account, cash, quantities, goal);
      } else {
        r := Accept(account, io.writes, cash, quantities, goal);
      }
    }

    /** The loss ceiling: a persistent stop, if its transaction commits. */
    method EngageStop(
      commits: bool, account: Account, ghost cash: real, ghost quantities: map<Symbol, real>, ghost goal: Goal)
      returns (r: Result<Account, EngineError>)
      requires Valid() && book.baseline.Some? && account.Valid()
      requires trusted ==> world.pc == Reconciling(goal, {}, cash, quantities)
      requires NonZero(quantities) == account.Holdings() && Abs(account.cash - cash) <= CENT
      requires book.baseline.value.equity - account.equity >= config.maximumSessionLoss
      modifies this`book, this`world, this`history
      ensures Valid() && world.posts == old(world.posts) && Broker() == old(Broker()) && Resting()
      ensures r == Failure(if commits then LossLimit else PaperStore)
      ensures book == old(book).(stopped := old(book).stopped || commits)
    {
      hide Legal, Run;
      if !commits {
        Raise();
        return Failure(PaperStore);
      }
      book := book.(stopped := true);
      Step(LossStop(account));
      r := Failure(LossLimit);
    }

    /** The account and the state, in two transactions. */
    method Accept(
      account: Account, writes: Writes, ghost cash: real, ghost quantities: map<Symbol, real>, ghost goal: Goal)
      returns (r: Result<Account, EngineError>)
      requires Valid() && book.baseline.Some? && account.Valid()
      requires trusted ==> world.pc == Reconciling(goal, {}, cash, quantities)
      requires NonZero(quantities) == account.Holdings() && Abs(account.cash - cash) <= CENT
      requires book.baseline.value.equity - account.equity < config.maximumSessionLoss
      modifies this`book, this`world, this`history
      ensures Valid() && world.posts == old(world.posts) && Broker() == old(Broker())
      ensures r == if writes.account && writes.ready then Success(account) else Failure(PaperStore)
      ensures book == old(book).(
        account := if writes.account then Some(account) else old(book).account,
        phase := if r.Success? then Ready else old(book).phase)
      ensures r.Success? ==> (trusted ==> world.pc == if goal.ForCycle? then Sizing(goal.symbol, account) else Idle)
      ensures r.Failure? ==> Resting()
    {
      hide Legal, Run;
      Step(Match(account));
      if !writes.account {
        Raise();
        return Failure(PaperStore);
      }
      book := book.(account := Some(account));
      Step(Record);
      if !writes.ready {
        Raise();
        return Failure(PaperStore);
      }
      book := book.(phase := Ready);
      Step(MarkReady);
      r := Success(account);
    }

    /** admission_enabled: the flag is read after any stop that has landed by then. */
    method Admission(bound: bool, landed: bool) returns (r: Result<(), EngineError>)
      requires Valid()
      modifies this`book, this`world, this`history
      ensures Valid() && world.pc == old(world.pc) && world.posts == old(world.posts)
      ensures Broker() == old(Broker()) && book == old(book).(stopped := old(book.stopped) || landed)
      ensures r.Success? <==> bound && config.enabled && !old(book.stopped) && !landed
      ensures r.Failure? ==> r.error == (if bound then PaperDisabled else PaperIdentity)
    {
      Land(landed);
      if !bound {
        return Failure(PaperIdentity);
      }
      if !config.enabled || book.stopped {
        return Failure(PaperDisabled);
      }
      r := Success(());
    }

    /** The first start takes the account as baseline; later ones reconcile. */
    method Start(
      bound: bool, landed: bool, qualified: bool, reply: Reply<Account>, open: Reply<seq<Order>>,
      baselined: bool, io: Snapshots, ghost weather: Id -> seq<Action>)
      returns (r: Result<(), EngineError>)
      requires Valid() && Resting()
      modifies this`book, this`world, this`history, this`trusted
      ensures (trusted ==> old(trusted))
           && (old(trusted) && AllHonest(old(world).orders, old(book).rows, io.lookup) ==> trusted)
      ensures Valid() && Resting() && world.posts == old(world.posts)
      ensures var admitted := bound && config.enabled && !old(book).stopped && !landed && qualified;
        if old(book).baseline.None?
        then
          var taken := admitted && Own(config, reply) && reply.value.positions == [] && open == Answer([]) && baselined;
          && (r.Success? <==> taken && io.writes.account && io.writes.ready)
          && book == old(book).(
               stopped := old(book).stopped || landed,
               baseline := if taken then Some(reply.value) else None,
               account := if taken && io.writes.account then Some(reply.value) else old(book).account,
               phase := if r.Success? then Ready else old(book).phase)
        else
          && (r.Success? <==> admitted && old(Reconciles(config, book, io)))
          && book.baseline == old(book).baseline
    {
      hide Reconciles, Unsettled, Begins, Legal, Run, Enabled, Apply, AllHonest, Own;
      r := Admission(bound, landed);
      if r.Failure? {
        return;
      }
      if !qualified {
        return Failure(Qualification);
      }
      if book.baseline.Some? {
        KeepsBaseline(config, book, io);
        var reconciled := Reconcile(io, weather);
        return if reconciled.Success? then Success(()) else Failure(reconciled.error);
      }
      var account :- ReadAccount(reply);
      if open.Raised? {
        return Failure(PaperContract);
      }
      if account.positions != [] || open.value != [] {
        return Failure(PaperBaseline);
      }
      OwnIsValid(config, reply);
      r := TakeBaseline(account, baselined, io.writes);
    }

    /** Baseline, account and state, in three transactions. */
    method TakeBaseline(account: Account, baselined: bool, writes: Writes) returns (r: Result<(), EngineError>)
      requires Valid() && Resting() && config.enabled && book.baseline.None?
      requires account.Valid() && account.positions == []
      modifies this`book, this`world, this`history
      ensures Valid() && Resting() && world.posts == old(world.posts)
      ensures r.Success? <==> baselined && writes.account && writes.ready
      ensures book == old(book).(
        baseline := if baselined then Some(account) else None,
        account := if baselined && writes.account then Some(account) else old(book).account,
        phase := if r.Success? then Ready else old(book).phase)
    {
      hide Legal, Run;
      if !baselined {
        return Failure(PaperStore);
      }
      book := book.(baseline := Some(account));
      Step(SetBaseline(account));
      if !writes.account {
        Raise();
        return Failure(PaperStore);
      }
      book := book.(account := Some(account));
      Step(Record);
      if !writes.ready {
        Raise();
        return Failure(PaperStore);
      }
      book := book.(phase := Ready);
      Step(MarkReady);
      r := Success(());
    }

    /** From a reconciled account to the number of shares to trade; None when this minute is done already. */
    method Choose(symbol: Symbol, account: Account, x: Inputs) returns (r: Result<Option<real>, EngineError>)
      requires Valid() && (trusted ==> world.pc == Sizing(symbol, account))
      modifies this`book, this`world, this`history
      ensures Valid() && world.posts == old(world.posts) && Broker() == old(Broker())
      ensures r.Success? && r.value.Some? <==>
        Decidable(config, old(book).decisions, old(book).rows, symbol, x)
      ensures r.Success? && r.value.Some? ==>
        account.Held(symbol) + r.value.value == CycleLaws.Goal(config, x.market)
      ensures r.Success? && r.value.Some? ==>
        && r.value.value == Delta(config, account, symbol, LiveTarget(config, x.market).value)
        && book == old(book).(decisions := old(book).decisions[symbol := x.market.Minute()])
        && (trusted ==> world.pc == if r.value.value == 0.0 then Idle else Deciding(symbol, account, r.value.value))
      ensures !(r.Success? && r.value.Some?) ==> Resting() && book == old(book)
      ensures r.Failure? ==> match MarketFault(config, x.market, x.day)
        case Some(fault) => r.error == fault
        case None =>
          && (r.error.WorkingOrder? <==> !Settled(old(book).rows))
          && (r.error.StrategyContract? <==> Settled(old(book).rows) && LiveTarget(config, x.market).None?)
          && (r.error.WorkingOrder? || r.error.StrategyContract? || (r.error.PaperStore? && !x.decides))
      ensures r.Success? && r.value.None? <==>
        && MarketFault(config, x.market, x.day).None?
        && symbol in old(book).decisions && old(book).decisions[symbol] == x.market.Minute()
    {
      hide Legal, Run, LiveTarget, MarketFault, Enabled, Apply, Delta, CycleLaws.Goal;
      var fault := MarketFault(config, x.market, x.day);
      if fault.Some? {
        Raise();
        return Failure(fault.value);
      }
      if symbol in book.decisions && book.decisions[symbol] == x.market.Minute() {
        Raise();
        return Success(None);
      }
      if exists id :: id in book.rows && book.rows[id].Open() {
        Raise();
        return Failure(WorkingOrder);
      }
      var target := LiveTarget(config, x.market);
      if target.None? {
        Raise();
        return Failure(StrategyContract);
      }
      if !x.decides {
        Raise();
        return Failure(PaperStore);
      }
      if trusted {
        DecideIsAStep(config, world, x.market.Minute(), target.value);
      }
      book := book.(decisions := book.decisions[symbol := x.market.Minute()]);
      Step(Decide(x.market.Minute(), target.value));
      CycleLaws.GapMeans(config, account, symbol, x.market);
      r := Success(Some(Delta(config, account, symbol, target.value)));
    }

    /** Prices the order and takes it through every limit; the stop flag is read once more. */
    method Admit(clientId: Id, symbol: Symbol, account: Account, delta: real, x: Inputs)
      returns (r: Result<Intent, EngineError>)
      requires Valid() && x.market.Complete() && delta != 0.0
      requires trusted ==> world.pc == Deciding(symbol, account, delta)
      modifies this`book, this`world, this`history
      ensures Valid() && world.posts == old(world.posts) && Broker() == old(Broker())
      ensures var intent := Sized(clientId, symbol, delta, Limit(x.market.quote.value, delta));
        && (r.Success? <==> Tradable(config, old(book).rows, account, delta, intent, x) && !old(book).stopped)
        && (r.Success? ==>
              r.value == intent && book == old(book) && (trusted ==> world.pc == Admissible(intent)))
      ensures r.Failure? ==>
        Resting() && book == old(book).(stopped := book.stopped) && (old(book).stopped ==> book.stopped)
      ensures r.Failure? ==>
        AdmitErrorMeans(config, old(book), account, Sized(clientId, symbol, delta, Limit(x.market.quote.value, delta)),
          x, r.error)
    {
      hide Legal, Run, AdmitErrorMeans;
      var price := Limit(x.market.quote.value, delta);
      AdmitErrors(config, book, account, delta, Sized(clientId, symbol, delta, price), x);
      if price <= 0.0 {
        Raise();
        return Failure(PriceTick);
      }
      var intent := Sized(clientId, symbol, delta, price);
      var notional := intent.quantity * price;
      var gross := account.MarketValue() + (if delta > 0.0 then delta else 0.0) * price;
      if notional > config.maximumOrderNotional || gross > config.maximumPositionNotional
         || (delta > 0.0 && (notional > account.cash || notional > account.buyingPower)) {
        Raise();
        return Failure(NotionalLimit);
      }
      if intent.side.Sell? && intent.quantity > account.Held(symbol) {
        Raise();
        return Failure(ShortSale);
      }
      if |book.rows| >= config.maxOrders {
        Raise();
        return Failure(OrderLimit);
      }
      var admitted := Admission(x.boundAgain, x.landed2);
      if admitted.Failure? {
        Raise();
        return Failure(admitted.error);
      }
      if !Fresh(config, account, x.market, x.dispatchAt) {
        Raise();
        return Failure(AdmissionExpired);
      }
      if clientId in book.rows {
        Raise();
        return Failure(DuplicateIntent);
      }
      Step(Price(clientId, price));
      r := Success(intent);
    }

    /** The intent is durable before anything can cross the network: one transaction for its row. */
    method JournalIntent(intent: Intent, commits: bool) returns (r: Result<(), EngineError>)
      requires Valid() && intent.id !in book.rows && (trusted ==> world.pc == Admissible(intent))
      modifies this`book, this`world, this`history
      ensures Valid() && world.posts == old(world.posts) && Broker() == old(Broker())
      ensures r == if commits then Success(()) else Failure(PaperStore)
      ensures book == if commits then old(book).(rows := old(book).rows[intent.id := Row(intent, None)]) else old(book)
      ensures if commits then trusted ==> world.pc == Committed(intent) else Resting()
    {
      hide Legal, Run;
      if !commits {
        Raise();
        return Failure(PaperStore);
      }
      book := book.(rows := book.rows[intent.id := Row(intent, None)]);
      Step(Commit);
      r := Success(());
    }

    /** A second one for the state; then a stop that landed by now ends the cycle here. */
    method CommitIntent(intent: Intent, x: Inputs) returns (r: Result<(), EngineError>)
      requires Valid() && intent.id !in book.rows && (trusted ==> world.pc == Admissible(intent))
      modifies this`book, this`world, this`history
      ensures Valid() && world.posts == old(world.posts) && Broker() == old(Broker())
      ensures r.Success? <==> x.journals && x.marks && !old(book).stopped && !x.landed3
      ensures book == old(book).(
        rows := if x.journals then old(book).rows[intent.id := Row(intent, None)] else old(book).rows,
        phase := if x.journals && x.marks then ReconciliationRequired else old(book).phase,
        stopped := old(book).stopped || (x.journals && x.marks && x.landed3))
      ensures r.Failure? ==> r.error == (if x.journals && x.marks then PaperDisabled else PaperStore)
      ensures if r.Success? then trusted ==> world.pc == Prechecked(intent) else Resting()
    {
      hide Legal, Run;
      r := JournalIntent(intent, x.journals);
      if r.Failure? {
        return;
      }
      if !x.marks {
        Raise();
        return Failure(PaperStore);
      }
      book := book.(phase := ReconciliationRequired);
      Step(MarkRequired);
      Land(x.landed3);
      if book.stopped {
        Raise();
        return Failure(PaperDisabled);
      }
      Step(Precheck);
    }

    /** The transport: its own budget, the last stop check, and then the one POST. */
    method Transmit(intent: Intent, landed: bool, post: Post) returns (sent: bool)
      requires Valid() && !book.stopped && (trusted ==> world.pc == Prechecked(intent))
      modifies this`book, this`world, this`history
      ensures Valid()
      ensures sent <==> !landed && !post.NotSent?
      ensures trusted ==> world.posts == old(world.posts) + (if sent then [intent.id] else [])
      ensures trusted && sent ==>
        Broker() == old(Broker()).(inflight := old(Broker()).inflight[intent.id := intent])
      ensures book == old(book).(stopped := landed)
      ensures if sent then trusted ==> world.pc == PaperProtocol.Sent(intent) else Resting()
    {
      hide Legal, Run;
      Land(landed);
      sent := !book.stopped && !post.NotSent?;
      if sent {
        Step(Clear);
        Step(Send);
      } else {
        Raise();
      }
    }

    /** Journals the intent, checks for a stop twice more, lets at most one POST leave, and records the answer. */
    method Dispatch(intent: Intent, x: Inputs, ghost weather: seq<Action>)
      returns (r: Result<(), EngineError>, sent: bool)
      requires Valid() && intent.id !in book.rows && (trusted ==> world.pc == Admissible(intent))
      modifies this`book, this`world, this`history, this`trusted
      ensures Valid()
      ensures sent <==>
        x.journals && x.marks && !old(book).stopped && !x.landed3 && !x.landed4 && !x.post.NotSent?
      ensures trusted ==> world.posts == old(world.posts) + (if sent then [intent.id] else [])
      ensures r.Success? <==> sent && x.post.Replied? && x.post.order.intent == intent && x.records
      ensures old(trusted) && sent ==> world.orders == AtAnswer(old(Broker()), intent, weather)
      ensures trusted <==>
        old(trusted)
        && (r.Success? ==> intent.id in world.orders && Snapshot(x.post.order, world.orders[intent.id]))
      ensures book == old(book).(
        phase := if x.journals && x.marks then ReconciliationRequired else old(book).phase,
        stopped := book.stopped,
        rows := if x.journals
                then old(book).rows[intent.id := Row(intent, if r.Success? then Some(x.post.order) else None)]
                else old(book).rows)
      ensures old(book).stopped ==> book.stopped
      ensures if r.Success? then trusted ==> world.pc == Answered else Resting()
    {
      hide Legal, Run, Snapshot;
      sent := false;
      r := CommitIntent(intent, x);
      if r.Failure? {
        return;
      }
      sent := Transmit(intent, x.landed4, x.post);
      if !sent {
        return Failure(if book.stopped then PaperDisabled else PaperContract), false;
      }
      Drift(weather);
      if x.post.Lost? {
        Raise();
        return Failure(PaperContract), true;
      }
      if x.post.order.intent != intent {
        Raise();
        return Failure(OrderDivergence), true;
      }
      r := RecordAnswer(intent, x.post.order, x.records);
    }

    method RecordAnswer(intent: Intent, order: Order, commits: bool) returns (r: Result<(), EngineError>)
      requires Valid() && intent.id in book.rows && order.intent == intent
      requires trusted ==> world.pc == PaperProtocol.Sent(intent)
      modifies this`book, this`world, this`history, this`trusted
      ensures Valid() && world.posts == old(world.posts) && Broker() == old(Broker())
      ensures r == if commits then Success(()) else Failure(PaperStore)
      ensures trusted <==>
        old(trusted) && (commits ==> intent.id in world.orders && Snapshot(order, world.orders[intent.id]))
      ensures book == if commits then old(book).(rows := old(book).rows[intent.id := Row(intent, Some(order))])
                      else old(book)
      ensures if commits then trusted ==> world.pc == Answered else Resting()
    {
      hide Legal, Run;
      if !commits {
        Raise();
        return Failure(PaperStore);
      }
      trusted := trusted && intent.id in world.orders && Snapshot(order, world.orders[intent.id]);
      book := book.(rows := book.rows[intent.id := Row(intent, Some(order))]);
      Step(Respond(order));
      r := Success(());
    }

    /** The first half of a cycle: admission, reconciliation, and the decision of this minute. */
    method Prepare(symbol: Symbol, x: Inputs, ghost before: Id -> seq<Action>)
      returns (r: Result<Option<real>, EngineError>)
      requires Valid() && Resting()
      modifies this`book, this`world, this`history, this`trusted
      ensures Valid() && world.posts == old(world.posts)
      ensures (trusted ==> old(trusted))
           && (old(trusted) && AllHonest(old(world).orders, old(book).rows, x.before.lookup) ==> trusted)
      ensures r.Success? && trusted ==> Broker() == AfterRows(old(Broker()), old(book).rows.Keys, before)
      ensures r.Success? && r.value.Some? <==> old(Decides(config, book, symbol, x))
      ensures r.Success? && r.value.None? <==> old(Repeats(config, book, symbol, x))
      ensures r.Success? && r.value.Some? ==>
        && r.value.value == Delta(config, x.before.second.value, symbol, LiveTarget(config, x.market).value)
        && (trusted ==> world.pc == if r.value.value == 0.0 then Idle
                                    else Deciding(symbol, x.before.second.value, r.value.value))
      ensures !(r.Success? && r.value.Some?) ==> Resting()
      ensures r.Success? ==>
        !book.stopped && book.rows == Refreshed(old(book).rows, old(book).rows.Keys, x.before.lookup)
      ensures book.baseline == old(book).baseline && book.rows.Keys == old(book).rows.Keys
      ensures book.decisions ==
        if r.Success? && r.value.Some? then old(book).decisions[symbol := x.market.Minute()]
        else old(book).decisions
      ensures old(book).stopped ==> book.stopped
    {
      hide Legal, Run, Reconciles, Unsettled, Begins, Decidable, LiveTarget, Delta, AllHonest;
      var admitted := Admission(x.bound, x.landed1);
      if admitted.Failure? {
        return Failure(admitted.error);
      }
      if !x.qualified {
        return Failure(Qualification);
      }
      if symbol !in config.symbols {
        return Failure(PaperSymbol);
      }
      Step(PaperProtocol.Admit(symbol));
      KeepsBaseline(config, book, x.before);
      var reconciled := Reconcile(x.before, before);
      if reconciled.Failure? {
        return Failure(reconciled.error);
      }
      r := Choose(symbol, reconciled.value, x);
    }

    /**
     * One bounded decision. An intent is journaled exactly when every gate is open and the write
     * commits, a POST leaves exactly when moreover no stop lands before the last check, it carries the
     * intent just journaled, and no other step of the cycle sends anything.
     */
    method Cycle(
      symbol: Symbol, clientId: (Symbol, int) -> Id, x: Inputs,
      ghost before: Id -> seq<Action>, ghost between: seq<Action>, ghost after: Id -> seq<Action>)
      returns (r: Result<Outcome, EngineError>, sent: bool)
      requires Valid() && Resting()
      modifies this`book, this`world, this`history, this`trusted
      ensures Valid() && Resting() && (trusted ==> old(trusted))
      ensures sent <==> old(Sends(config, book, symbol, clientId, x))
      ensures old(trusted) && AllHonest(old(world).orders, old(book).rows, x.before.lookup)
              && (sent && x.post.Replied? ==>
                    var intent := Chosen(config, symbol, clientId, x);
                    AnsweredHonestly(AtAnswer(AfterRows(old(Broker()), old(book).rows.Keys, before), intent, between),
                      Refreshed(old(book).rows, old(book).rows.Keys, x.before.lookup), intent, x)) ==>
        trusted
      ensures trusted ==>
        world.posts == old(world.posts) + (if sent then [clientId(symbol, x.market.Minute())] else [])
      ensures if old(Journals(config, book, symbol, clientId, x))
              then
                var id := clientId(symbol, x.market.Minute());
                && book.rows.Keys == old(book).rows.Keys + {id}
                && book.rows[id].intent == Chosen(config, symbol, clientId, x)
              else book.rows.Keys == old(book).rows.Keys
      ensures book.decisions ==
        if old(Decides(config, book, symbol, x)) then old(book).decisions[symbol := x.market.Minute()]
        else old(book).decisions
      ensures r == Success(AlreadyDecided) <==> old(Repeats(config, book, symbol, x))
      ensures r == Success(NoOrder) <==> old(Holds(config, book, symbol, x)) && x.notes
      ensures r.Success? && r.value.Ordered? <==> old(Completes(config, book, symbol, clientId, x))
      ensures r.Success? && r.value.Ordered? ==> r.value.intent == Chosen(config, symbol, clientId, x)
      ensures r == Success(NoOrder) ==> x.before.second.value.Held(symbol) == CycleLaws.Goal(config, x.market)
      ensures r.Success? && r.value.Ordered? ==>
        x.before.second.value.Held(symbol) + CycleLaws.Added(r.value.intent) == CycleLaws.Goal(config, x.market)
      ensures book.baseline == old(book).baseline
      ensures old(book).stopped ==> book.stopped && r.Failure?
    {
      hide Legal, Run, Decides, Repeats, Tradable, Limit, LiveTarget, Delta, AllHonest, Settles,
        AnsweredHonestly, After, CycleLaws.Goal, CycleLaws.Added;
      sent := false;
      var delta := Prepare(symbol, x, before);
      if delta.Failure? {
        return Failure(delta.error), false;
      }
      if delta.value.None? {
        return Success(AlreadyDecided), false;
      }
      CycleLaws.GapMeans(config, x.before.second.value, symbol, x.market);
      if delta.value.value == 0.0 {
        return if x.notes then Success(NoOrder) else Failure(PaperStore), false;
      }
      var id := clientId(symbol, x.market.Minute());
      ghost var intent := Chosen(config, symbol, clientId, x);
      CycleLaws.ChosenReachesTheGoal(config, symbol, clientId, x);
      TradableAlike(config, old(book).rows, book.rows, x.before.second.value, delta.value.value, intent, x);
      SettlesAlike(config, old(book), book, intent, x);
      r, sent := Trade(id, symbol, x.before.second.value, delta.value.value, x, between, after);
    }

    /** The second half of a cycle: from a sized decision to the reconciled answer. */
    method Trade(
      id: Id, symbol: Symbol, account: Account, delta: real, x: Inputs,
      ghost between: seq<Action>, ghost after: Id -> seq<Action>)
      returns (r: Result<Outcome, EngineError>, sent: bool)
      requires Valid() && x.market.Complete() && delta != 0.0
      requires trusted ==> world.pc == Deciding(symbol, account, delta)
      modifies this`book, this`world, this`history, this`trusted
      ensures Valid() && Resting() && (trusted ==> old(trusted))
      ensures var intent := Sized(id, symbol, delta, Limit(x.market.quote.value, delta));
        var journaled :=
          !old(book).stopped && Tradable(config, old(book).rows, account, delta, intent, x) && x.journals;
        && (sent <==> journaled && x.marks && !x.landed3 && !x.landed4 && !x.post.NotSent?)
        && book.rows.Keys == old(book).rows.Keys + (if journaled then {id} else {})
        && (journaled ==> book.rows[id].intent == intent)
        && (r.Success? <==> sent && Settles(config, old(book), intent, x))
        && (r.Success? ==> r.value == Ordered(intent))
        && (old(trusted)
            && (sent && x.post.Replied? ==>
                  AnsweredHonestly(AtAnswer(old(Broker()), intent, between), old(book).rows, intent, x)) ==>
              trusted)
      ensures trusted ==> world.posts == old(world.posts) + (if sent then [id] else [])
      ensures book.baseline == old(book).baseline && book.decisions == old(book).decisions
      ensures old(book).stopped ==> book.stopped && r.Failure?
    {
      hide Legal, Run, Enabled, Apply, Reconciles, Unsettled, Tradable, Limit, AllHonest, Snapshot, After, AfterRows;
      var intent := this.Admit(id, symbol, account, delta, x);
      if intent.Failure? {
        return Failure(intent.error), false;
      }
      TradableIsNew(config, book.rows, account, delta, intent.value, x);
      var dispatched;
      dispatched, sent := Dispatch(intent.value, x, between);
      if dispatched.Failure? {
        return Failure(dispatched.error), sent;
      }
      KeepsBaseline(config, book, x.after);
      ReconcilesAlike(config, book, old(book).(rows := Answering(old(book).rows, intent.value, x.post.order)), x.after);
      var settled := Reconcile(x.after, after);
      return if settled.Success? then Success(Ordered(intent.value)) else Failure(settled.error), sent;
    }

    /** Stops admission first, then asks the broker to cancel every order of ours that is not finished. */
    method Cancel(
      stops: bool, first: Reply<Account>, lookup: Id -> Reply<Option<Order>>, deleted: Id -> bool, notes: bool)
      returns (r: Result<(), EngineError>, requested: set<Id>)
      requires Valid() && Resting()
      modifies this`book, this`world, this`history
      ensures Valid() && Resting() && world.posts == old(world.posts)
      ensures book == old(book).(stopped := old(book).stopped || stops)
      ensures r.Success? <==> stops && Own(config, first) && AllCancellable(book.rows, lookup, deleted) && notes
      ensures forall id :: id in requested ==>
        && id in book.rows && book.rows[id].Open()
        && lookup(id).Answer? && lookup(id).value.Some? && !lookup(id).value.value.state.Terminal()
      ensures r.Success? && config.Valid() && old(trusted) && AllHonest(old(world).orders, old(book).rows, lookup) ==>
        forall id :: id in old(world).orders && !old(world).orders[id].state.Terminal() ==> id in requested
      ensures stops && Own(config, first) && AllCancellable(book.rows, lookup, deleted) ==>
        forall id :: id in book.rows && book.rows[id].Open() && Unfinished(lookup(id)) ==> id in requested
    {
      hide Legal, Run, Own, AllHonest, Honest;
      requested := {};
      if config.Valid() && trusted && AllHonest(world.orders, book.rows, lookup) {
        CycleLaws.WorkingIsShown(config, history, lookup);
      }
      if !stops {
        return Failure(PaperStore), requested;
      }
      Land(true);
      var account := ReadAccount(first);
      if account.Failure? {
        return Failure(account.error), requested;
      }
      var todo := book.rows.Keys;
      while todo != {}
        invariant Valid() && Resting() && world.posts == old(world.posts)
        invariant book == old(book).(stopped := true) && todo <= book.rows.Keys
        invariant forall id :: id in book.rows.Keys - todo && book.rows[id].Open() ==>
          lookup(id).Answer? && lookup(id).value.Some? && (Unfinished(lookup(id)) ==> deleted(id))
        invariant forall id :: id in requested <==>
          id in book.rows.Keys - todo && book.rows[id].Open() && Unfinished(lookup(id))
      {
        var id := Least(todo);
        if book.rows[id].Open() {
          var reply := lookup(id);
          if reply.Raised? {
            return Failure(PaperContract), requested;
          }
          if reply.value.None? {
            return Failure(SubmissionUnknown), requested;
          }
          if Unfinished(reply) {
            requested := requested + {id};
            if !deleted(id) {
              return Failure(PaperContract), requested;
            }
          }
        }
        todo := todo - {id};
      }
      r := if notes then Success(()) else Failure(PaperStore);
    }

    /** What every run of the protocol guarantees, the operator's methods leave behind. */
    lemma LeavesTheBrokerSafe(s: Symbol)
      requires Valid() && trusted && config.Valid()
      ensures 0.0 <= PaperTheorems.TruePosition(world.orders, s) <= config.quantity
      ensures NoDuplicates(world.posts) && world.late <= 1
      ensures book.baseline.Some? ==>
        var cash := PaperTheorems.TrueCash(book.baseline.value, world.orders);
        cash >= book.baseline.value.cash || cash >= -CENT
    {
      PaperTheorems.PositionStaysWithinTarget(config, history, s);
      PaperTheorems.CashStaysAboveFloor(config, history);
      PaperTheorems.AtMostOnePostPerIntent(config, history);
      PaperTheorems.AtMostOneLatePost(config, history);
    }
  }
}
