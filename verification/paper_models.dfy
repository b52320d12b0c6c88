/** Paper-trading records (signal_foundry/trading/models.py); decimals are exact reals. */
module PaperModels {
  import opened Basics

  type Symbol = nat

  /** A client order id: forty hex digits of one length, so text order is number order. */
  type Id = nat

  datatype Side = Buy | Sell {
    function Sign(): real {
      if Buy? then 1.0 else -1.0
    }
  }

  datatype OrderState =
    | New | Accepted | PendingNew | PartiallyFilled | Filled | Canceled | Expired | Rejected
    | PendingCancel | PendingReplace | Replaced | DoneForDay | Stopped | Suspended | Calculated
    | AcceptedForBidding
  {
    predicate Terminal() {
      Filled? || Canceled? || Expired? || Rejected? || Replaced?
    }
  }

  datatype Intent = Intent(id: Id, symbol: Symbol, side: Side, quantity: real, limitPrice: real) {
    predicate Valid() {
      quantity > 0.0 && limitPrice > 0.0
    }
  }

  datatype Order = Order(brokerId: nat, intent: Intent, state: OrderState, filled: real, average: Option<real>) {
    /** The validator Order.fill together with the field bounds. */
    predicate Valid() {
      && intent.Valid()
      && 0.0 <= filled <= intent.quantity
      && (filled != 0.0 <==> average.Some?)
      && (average.Some? ==> average.value > 0.0)
      && (state.Filled? ==> filled == intent.quantity)
      && (state.PartiallyFilled? ==> 0.0 < filled < intent.quantity)
    }

    /** filled * average price: the exact notional of the cumulative fill. */
    function Notional(): real {
      filled * (if average.Some? then average.value else 0.0)
    }
  }

  datatype Position = Position(symbol: Symbol, quantity: real, marketValue: real)

  datatype Account = Account(
    digest: nat, cash: real, equity: real, buyingPower: real, blocked: bool,
    positions: seq<Position>, observedAt: int)
  {
    /** The validator Account.unique together with the field bounds. */
    predicate Valid() {
      && (forall p :: p in positions ==> p.quantity >= 0.0 && p.marketValue >= 0.0)
      && (forall i, j :: 0 <= i < j < |positions| ==> positions[i].symbol != positions[j].symbol)
    }

    function Held(symbol: Symbol): real {
      HeldIn(positions, symbol)
    }

    /** Positions with a non-zero quantity, keyed by symbol. */
    function Holdings(): map<Symbol, real> {
      map s | s in Symbols(positions) && Held(s) != 0.0 :: Held(s)
    }

    function MarketValue(): real {
      MarketValueOf(positions)
    }
  }

  function HeldIn(positions: seq<Position>, symbol: Symbol): real {
    if positions == [] then 0.0
    else if positions[0].symbol == symbol then positions[0].quantity
    else HeldIn(positions[1..], symbol)
  }

  function Symbols(positions: seq<Position>): set<Symbol> {
    set p | p in positions :: p.symbol
  }

  function MarketValueOf(positions: seq<Position>): real {
    if positions == [] then 0.0 else positions[0].marketValue + MarketValueOf(positions[1..])
  }

  lemma {:induction false} UnlistedIsZero(positions: seq<Position>, symbol: Symbol)
    requires symbol !in Symbols(positions)
    ensures HeldIn(positions, symbol) == 0.0
  {
    if positions != [] {
      assert positions[0] in positions;
      assert forall p :: p in positions[1..] ==> p in positions;
      UnlistedIsZero(positions[1..], symbol);
    }
  }

  datatype Config = Config(
    enabled: bool, accountDigest: nat, symbols: set<Symbol>, window: nat, thresholdBps: nat, momentum: bool,
    maximumOrderNotional: real, maximumPositionNotional: real, maximumSessionLoss: real,
    maximumSpreadBps: real, quantity: real, maxOrders: nat, quoteAge: int)
  {
    predicate Valid() {
      quantity > 0.0 && 1 <= maxOrders <= 1000 && maximumSessionLoss > 0.0 && 2 <= window <= 120
    }
  }

  /** A journaled order: the intent, and the last order observed at the broker. */
  datatype Row = Row(intent: Intent, order: Option<Order>) {
    /** Not known to be finished: never observed, or last observed in a working state. */
    predicate Open() {
      order.None? || !order.value.state.Terminal()
    }
  }

  datatype Phase = Uninitialized | Initialized | ReconciliationRequired | Ready

  /** What the engine keeps in the journal's state table. */
  datatype Book = Book(
    baseline: Option<Account>, account: Option<Account>, phase: Phase, stopped: bool,
    rows: map<Id, Row>, decisions: map<Symbol, int>)

  /** Signed shares of symbol that a row contributes through its last observation. */
  function RowNet(row: Row, symbol: Symbol): real {
    if row.order.Some? && row.intent.symbol == symbol
    then row.intent.side.Sign() * row.order.value.filled
    else 0.0
  }

  /** Signed cash that a row has spent through its last observation. */
  function RowSpent(row: Row): real {
    if row.order.Some? then row.intent.side.Sign() * row.order.value.Notional() else 0.0
  }

  ghost function NetOf(rows: map<Id, Row>, symbol: Symbol): (v: map<Id, real>)
    ensures v.Keys == rows.Keys
  {
    map id | id in rows :: RowNet(rows[id], symbol)
  }

  ghost function SpentOf(rows: map<Id, Row>): (v: map<Id, real>)
    ensures v.Keys == rows.Keys
  {
    map id | id in rows :: RowSpent(rows[id])
  }

  ghost function Closed(rows: map<Id, Row>): (ids: set<Id>)
    ensures ids <= rows.Keys
  {
    set id | id in rows && !rows[id].Open()
  }

  /** Net shares of symbol over the given rows. */
  ghost function Net(rows: map<Id, Row>, ids: set<Id>, symbol: Symbol): real
    requires ids <= rows.Keys
  {
    SumOver(ids, NetOf(rows, symbol))
  }

  /** Net cash spent over the given rows. */
  ghost function Spent(rows: map<Id, Row>, ids: set<Id>): real
    requires ids <= rows.Keys
  {
    SumOver(ids, SpentOf(rows))
  }

  /** The running totals of a reconciliation, with symbols at zero left out. */
  function NonZero(quantities: map<Symbol, real>): map<Symbol, real> {
    map s | s in quantities && quantities[s] != 0.0 :: quantities[s]
  }

  function Quantity(quantities: map<Symbol, real>, symbol: Symbol): real {
    if symbol in quantities then quantities[symbol] else 0.0
  }

  /** The running quantities after one more row. */
  function Tally(quantities: map<Symbol, real>, row: Row): map<Symbol, real> {
    quantities[row.intent.symbol := Quantity(quantities, row.intent.symbol) + RowNet(row, row.intent.symbol)]
  }

  /** Equal tables of non-zero quantities means equal quantity of every symbol. */
  lemma MatchedHoldings(quantities: map<Symbol, real>, account: Account)
    requires NonZero(quantities) == account.Holdings()
    ensures forall s: Symbol :: Quantity(quantities, s) == account.Held(s)
  {
    forall s: Symbol ensures Quantity(quantities, s) == account.Held(s) {
      if s !in Symbols(account.positions) {
        UnlistedIsZero(account.positions, s);
      }
      if s in account.Holdings() {
        assert NonZero(quantities)[s] == account.Holdings()[s];
      } else {
        assert s !in NonZero(quantities);
      }
    }
  }

  /** The states in which an order may still fill or change. */
  lemma WorkingStates(state: OrderState)
    ensures !state.Terminal() <==> state in {
      New, Accepted, PendingNew, PartiallyFilled, PendingCancel, PendingReplace, DoneForDay, Stopped, Suspended,
      Calculated, AcceptedForBidding}
  {
  }

  /** A valid account holds what its one position in the symbol says. */
  lemma {:induction false} HeldMeans(positions: seq<Position>, i: nat)
    requires i < |positions|
    requires forall a, b :: 0 <= a < b < |positions| ==> positions[a].symbol != positions[b].symbol
    ensures HeldIn(positions, positions[i].symbol) == positions[i].quantity
  {
    if i > 0 {
      HeldMeans(positions[1..], i - 1);
    }
  }

  /** Market value is counted once for every position, in whatever order. */
  lemma {:induction false} MarketValueAdds(a: seq<Position>, b: seq<Position>)
    ensures MarketValueOf(a + b) == MarketValueOf(a) + MarketValueOf(b)
    ensures a != [] ==> MarketValueOf([a[0]]) == a[0].marketValue
  {
    if a == [] {
      assert a + b == b;
    } else {
      assert (a + b)[1..] == a[1..] + b;
      MarketValueAdds(a[1..], b);
    }
  }
}
