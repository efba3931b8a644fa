/** The trading engine's ledger: one account's rows and what one order does to them. */
module Ledger {
  import opened Numeric
  import opened Wrappers
  import opened Market
  import opened Ordering

  type AccountId = nat

  datatype Status = Filled | Rejected

  /** market-data answers that are not positive never become a price. */
  type Price = p: real | p > 0.0 witness 1.0
  /** A validated order quantity in ticks: at least the smallest one the ledger can store. */
  type Lot = q: int | q >= 1 witness 1

  datatype Position = Position(quantity: int, avgCost: real)

  datatype OrderRow = OrderRow(id: nat, symbol: Symbol, side: Side, quantity: int, status: Status,
                               filledPrice: Option<real>, rejectionReason: Option<string>)

  datatype TradeRow = TradeRow(orderId: nat, symbol: Symbol, side: Side, quantity: int, price: real,
                               realizedPL: Option<real>, executedAt: Time)

  /** Every row of one account. All four tables are keyed by the account. */
  datatype Account = Account(balance: real, positions: map<Symbol, Position>,
                             orders: seq<OrderRow>, trades: seq<TradeRow>)

  /** orderId is the UUID the database draws and at the transaction's timestamp; both arrive as parameters. */
  datatype OrderParams = OrderParams(orderId: nat, symbol: Symbol, side: Side, quantity: Lot, price: Price, at: Time)

  datatype Outcome =
    | OrderFilled(order: OrderRow, trade: TradeRow, balance: real)
    | InsufficientBalance
    | InsufficientPosition
    | AccountNotFound
    | InvalidOrder
    | InfrastructureFailure

  // ---- money.go

  function WeightedAvgCost(oldQty: real, oldAvg: real, fillQty: real, fillPrice: real): real {
    var total := oldQty + fillQty;
    if total == 0.0 then 0.0 else (oldAvg * oldQty + fillPrice * fillQty) / total
  }

  function RealizedPL(avgCost: real, fillPrice: real, quantity: real): real {
    (fillPrice - avgCost) * quantity
  }

  // ---- the effect of one order, as values

  /** Price times quantity: what a buy costs and what a sell brings. */
  function Notional(p: OrderParams): (c: real)
    ensures c > 0.0
  {
    Amount(p.price, p.quantity)
  }

  /** A symbol with no row is held at zero quantity and zero basis. */
  function Held(a: Account, symbol: Symbol): Position {
    if symbol in a.positions then a.positions[symbol] else Position(0, 0.0)
  }

  /** What a fill adds to the position, in ticks. */
  function SignedTicks(side: Side, quantity: int): int {
    if side == Sell then -quantity else quantity
  }

  datatype Holding = Holding(symbol: Symbol, quantity: int, avgCost: real)

  function OpenSymbols(a: Account): set<Symbol> {
    set s | s in a.positions && a.positions[s].quantity > 0
  }

  function HoldingsOf(a: Account, symbols: seq<Symbol>): (h: seq<Holding>)
    ensures |h| == |symbols|
  {
    if symbols == [] then []
    else
      var last := symbols[|symbols| - 1];
      HoldingsOf(a, symbols[..|symbols| - 1]) + [Holding(last, Held(a, last).quantity, Held(a, last).avgCost)]
  }

  /** Open positions by symbol; a position sold down to zero keeps its row and is not listed. */
  function ListHoldings(a: Account): seq<Holding> {
    HoldingsOf(a, SortedKeys(OpenSymbols(a)))
  }

  function FilledRow(column: Column, p: OrderParams): OrderRow {
    OrderRow(p.orderId, p.symbol, p.side, p.quantity, Filled, Some(Stored(column, p.price)), None)
  }

  function RejectedRow(p: OrderParams, reason: string): OrderRow {
    OrderRow(p.orderId, p.symbol, p.side, p.quantity, Rejected, None, Some(reason))
  }

  function TradeOf(column: Column, p: OrderParams, realized: Option<real>): TradeRow {
    TradeRow(p.orderId, p.symbol, p.side, p.quantity, Stored(column, p.price),
             if realized.Some? then Some(Stored(column, realized.value)) else None, p.at)
  }

  function Reject(a: Account, p: OrderParams, reason: string): Account {
    a.(orders := a.orders + [RejectedRow(p, reason)])
  }

  function Fill(column: Column, a: Account, p: OrderParams, position: Position, balance: real,
                realized: Option<real>): Account
  {
    Account(Stored(column, balance),
            a.positions[p.symbol := position.(avgCost := Stored(column, position.avgCost))],
            a.orders + [FilledRow(column, p)],
            a.trades + [TradeOf(column, p, realized)])
  }

  function AfterBuy(column: Column, a: Account, p: OrderParams): Account {
    var held := Held(a, p.symbol);
    var avg := WeightedAvgCost(Shares(held.quantity), held.avgCost, Shares(p.quantity), p.price);
    Fill(column, a, p, Position(held.quantity + p.quantity, avg), a.balance - Notional(p), None)
  }

  function AfterSell(column: Column, a: Account, p: OrderParams): Account {
    var held := Held(a, p.symbol);
    Fill(column, a, p, held.(quantity := held.quantity - p.quantity), a.balance + Notional(p),
         Some(RealizedPL(held.avgCost, p.price, Shares(p.quantity))))
  }

  predicate Affordable(a: Account, p: OrderParams) { Notional(p) <= a.balance }

  predicate Covered(a: Account, p: OrderParams) { p.quantity <= Held(a, p.symbol).quantity }

  predicate Fillable(a: Account, p: OrderParams) {
    (p.side == Buy && Affordable(a, p)) || (p.side == Sell && Covered(a, p))
  }

  function Execute(column: Column, a: Account, p: OrderParams): Account {
    match p.side
    case Buy => if Affordable(a, p) then AfterBuy(column, a, p) else Reject(a, p, "insufficient_balance")
    case Sell => if Covered(a, p) then AfterSell(column, a, p) else Reject(a, p, "insufficient_position")
    case OtherSide => a
  }

  function OutcomeOf(column: Column, a: Account, p: OrderParams): Outcome {
    var b := Execute(column, a, p);
    if Fillable(a, p) then OrderFilled(b.orders[|b.orders| - 1], b.trades[|b.trades| - 1], b.balance)
    else match p.side
      case Buy => InsufficientBalance
      case Sell => InsufficientPosition
      case OtherSide => InvalidOrder
  }

  // ---- the store: one transaction, statement by statement

  /** A transaction's uncommitted view of one account's rows. Statements fail once the connection
      has broken, which it does after a number of statements nobody controls. */
  class Tx {
    const column: Column
    var work: Account
    var statementsLeft: nat

    constructor (column: Column, rows: Account, statementsLeft: nat)
      ensures this.column == column && work == rows && this.statementsLeft == statementsLeft
    {
      this.column := column;
      this.work := rows;
      this.statementsLeft := statementsLeft;
    }

    method Statement() returns (ok: bool)
      modifies this`statementsLeft
      ensures ok == (old(statementsLeft) > 0)
      ensures statementsLeft == if ok then old(statementsLeft) - 1 else 0
    {
      ok := statementsLeft > 0;
      if ok {
        statementsLeft := statementsLeft - 1;
      }
    }

    method InsertOrder(row: OrderRow) returns (ok: bool)
      modifies this
      ensures ok == (old(statementsLeft) > 0)
      ensures statementsLeft == if ok then old(statementsLeft) - 1 else 0
      ensures work == if ok then old(work).(orders := old(work).orders + [row]) else old(work)
    {
      ok := Statement();
      if ok {
        work := work.(orders := work.orders + [row]);
      }
    }

    method InsertTrade(row: TradeRow) returns (ok: bool)
      modifies this
      ensures ok == (old(statementsLeft) > 0)
      ensures statementsLeft == if ok then old(statementsLeft) - 1 else 0
      ensures work == if ok then old(work).(trades := old(work).trades + [row]) else old(work)
    {
      ok := Statement();
      if ok {
        work := work.(trades := work.trades + [row]);
      }
    }

    method CurrentPosition(symbol: Symbol) returns (ok: bool, held: Position)
      modifies this`statementsLeft
      ensures ok == (old(statementsLeft) > 0)
      ensures statementsLeft == if ok then old(statementsLeft) - 1 else 0
      ensures held == Held(work, symbol)
    {
      ok := Statement();
      held := Held(work, symbol);
    }

    method UpsertPosition(symbol: Symbol, quantity: int, avgCost: real) returns (ok: bool)
      modifies this
      ensures ok == (old(statementsLeft) > 0)
      ensures statementsLeft == if ok then old(statementsLeft) - 1 else 0
      ensures work == if ok then old(work).(positions :=
                        old(work).positions[symbol := Position(quantity, Stored(column, avgCost))]) else old(work)
    {
      ok := Statement();
      if ok {
        work := work.(positions := work.positions[symbol := Position(quantity, Stored(column, avgCost))]);
      }
    }

    method UpdateBalance(balance: real) returns (ok: bool, stored: real)
      modifies this
      ensures ok == (old(statementsLeft) > 0)
      ensures statementsLeft == if ok then old(statementsLeft) - 1 else 0
      ensures stored == Stored(column, balance)
      ensures work == if ok then old(work).(balance := stored) else old(work)
    {
      ok := Statement();
      stored := Stored(column, balance);
      if ok {
        work := work.(balance := stored);
      }
    }
  }

  /** The most statements one order can run: begin, lock, five reads and writes, commit. */
  const MAX_STATEMENTS: nat := 8

  class PostgresTradingStore {
    const column: Column
    var db: map<AccountId, Account>

    constructor (column: Column, db: map<AccountId, Account>)
      ensures this.column == column && this.db == db
    {
      this.column := column;
      this.db := db;
    }

    /** One order in one transaction. However far it gets before a failure, the account's rows are
        either exactly what Execute says or exactly what they were. */
    method ExecuteOrder(id: AccountId, p: OrderParams, statementsLeft: nat) returns (r: Outcome)
      modifies this`db
      ensures r == InfrastructureFailure ==> db == old(db) && statementsLeft < MAX_STATEMENTS
      ensures r != InfrastructureFailure && id !in old(db) ==> r == AccountNotFound && db == old(db)
      ensures r != InfrastructureFailure && id in old(db) ==>
                r == OutcomeOf(column, old(db)[id], p) && db == old(db)[id := Execute(column, old(db)[id], p)]
    {
      if statementsLeft < 2 {
        return InfrastructureFailure;  // begin, or the row lock, failed
      }
      if id !in db {
        return AccountNotFound;
      }
      var tx := new Tx(column, db[id], statementsLeft - 2);
      match p.side
      case Buy => r := ExecuteBuy(tx, id, p, db[id].balance);
      case Sell => r := ExecuteSell(tx, id, p, db[id].balance);
      case OtherSide => return InvalidOrder;
    }

    method Commit(tx: Tx, id: AccountId) returns (ok: bool)
      modifies this`db, tx`statementsLeft
      ensures ok == (old(tx.statementsLeft) > 0)
      ensures db == if ok then old(db)[id := tx.work] else old(db)
    {
      ok := tx.Statement();
      if ok {
        db := db[id := tx.work];
      }
    }

    method RejectWithin(tx: Tx, id: AccountId, p: OrderParams, reason: string) returns (ok: bool)
      modifies this`db, tx
      ensures ok == (old(tx.statementsLeft) >= 2)
      ensures db == if ok then old(db)[id := Reject(old(tx.work), p, reason)] else old(db)
    {
      ok := tx.InsertOrder(RejectedRow(p, reason));
      if ok {
        ok := Commit(tx, id);
      }
    }

    method ExecuteBuy(tx: Tx, id: AccountId, p: OrderParams, balance: real) returns (r: Outcome)
      requires tx.column == column && id in db && tx.work == db[id] && balance == db[id].balance && p.side == Buy
      modifies this`db, tx
      ensures r == InfrastructureFailure ==> db == old(db) && old(tx.statementsLeft) < 6
      ensures r != InfrastructureFailure ==>
                r == OutcomeOf(column, old(db)[id], p) && db == old(db)[id := Execute(column, old(db)[id], p)]
    {
      ghost var a := tx.work;
      var cost := Notional(p);
      if cost > balance {
        var rejected := RejectWithin(tx, id, p, "insufficient_balance");
        return if rejected then InsufficientBalance else InfrastructureFailure;
      }
      var order := FilledRow(column, p);
      var trade := TradeOf(column, p, None);
      var ok := tx.InsertOrder(order);
      if !ok { return InfrastructureFailure; }
      ok := tx.InsertTrade(trade);
      if !ok { return InfrastructureFailure; }
      var held;
      ok, held := tx.CurrentPosition(p.symbol);
      if !ok { return InfrastructureFailure; }
      var newAvg := WeightedAvgCost(Shares(held.quantity), held.avgCost, Shares(p.quantity), p.price);
      ok := tx.UpsertPosition(p.symbol, held.quantity + p.quantity, newAvg);
      if !ok { return InfrastructureFailure; }
      var newBalance;
      ok, newBalance := tx.UpdateBalance(balance - cost);
      if !ok { return InfrastructureFailure; }
      assert tx.work == AfterBuy(column, a, p);
      ok := Commit(tx, id);
      if !ok { return InfrastructureFailure; }
      return OrderFilled(order, trade, newBalance);
    }

    method ExecuteSell(tx: Tx, id: AccountId, p: OrderParams, balance: real) returns (r: Outcome)
      requires tx.column == column && id in db && tx.work == db[id] && balance == db[id].balance && p.side == Sell
      modifies this`db, tx
      ensures r == InfrastructureFailure ==> db == old(db) && old(tx.statementsLeft) < 6
      ensures r != InfrastructureFailure ==>
                r == OutcomeOf(column, old(db)[id], p) && db == old(db)[id := Execute(column, old(db)[id], p)]
    {
      ghost var a := tx.work;
      var ok, held := tx.CurrentPosition(p.symbol);
      if !ok { return InfrastructureFailure; }
      if p.quantity > held.quantity {
        var rejected := RejectWithin(tx, id, p, "insufficient_position");
        return if rejected then InsufficientPosition else InfrastructureFailure;
      }
      var realized := RealizedPL(held.avgCost, p.price, Shares(p.quantity));
      var order := FilledRow(column, p);
      var trade := TradeOf(column, p, Some(realized));
      ok := tx.InsertOrder(order);
      if !ok { return InfrastructureFailure; }
      ok := tx.InsertTrade(trade);
      if !ok { return InfrastructureFailure; }
      ok := tx.UpsertPosition(p.symbol, held.quantity - p.quantity, held.avgCost);
      if !ok { return InfrastructureFailure; }
      var newBalance;
      ok, newBalance := tx.UpdateBalance(balance + Notional(p));
      if !ok { return InfrastructureFailure; }
      assert tx.work == AfterSell(column, a, p);
      ok := Commit(tx, id);
      if !ok { return InfrastructureFailure; }
      return OrderFilled(order, trade, newBalance);
    }

    /** The order rejected before any transaction opened: one row, no lock, no other table. */
    method RecordRejectedOrder(id: AccountId, p: OrderParams, reason: string)
      requires id in db
      modifies this`db
      ensures db == old(db)[id := Reject(old(db)[id], p, reason)]
    {
      db := db[id := db[id].(orders := db[id].orders + [RejectedRow(p, reason)])];
    }
  }

  // ---- what every order keeps

  function Fills(orders: seq<OrderRow>): seq<OrderRow> {
    if orders == [] then []
    else
      var last := orders[|orders| - 1];
      Fills(orders[..|orders| - 1]) + if last.status == Filled then [last] else []
  }

  predicate TradeRecordsOrder(t: TradeRow, o: OrderRow) {
    t.orderId == o.id && t.symbol == o.symbol && t.side == o.side && t.quantity == o.quantity
    && o.filledPrice == Some(t.price) && (t.realizedPL.Some? <==> t.side == Sell)
  }

  /** The trades table is the filled orders, in the same order, one trade each. */
  ghost predicate TradesAreFills(a: Account) {
    |a.trades| == |Fills(a.orders)|
    && forall i :: 0 <= i < |a.trades| ==> TradeRecordsOrder(a.trades[i], Fills(a.orders)[i])
  }

  ghost predicate NothingNegative(a: Account) {
    a.balance >= 0.0
    && forall s :: s in a.positions ==> a.positions[s].quantity >= 0 && a.positions[s].avgCost >= 0.0
  }

  lemma WeightedAvgNonnegative(oldQty: real, oldAvg: real, fillQty: real, fillPrice: real)
    requires oldQty >= 0.0 && oldAvg >= 0.0 && fillQty > 0.0 && fillPrice > 0.0
    ensures WeightedAvgCost(oldQty, oldAvg, fillQty, fillPrice) >= 0.0
  {
    assert oldAvg * oldQty >= 0.0 && fillPrice * fillQty >= 0.0;
  }

  /** No order, filled or rejected, makes the balance or a position negative, storage rounding included. */
  lemma ExecuteKeepsNonnegative(column: Column, a: Account, p: OrderParams)
    requires NothingNegative(a)
    ensures NothingNegative(Execute(column, a, p))
  {
    var held := Held(a, p.symbol);
    if p.side == Buy && Affordable(a, p) {
      WeightedAvgNonnegative(Shares(held.quantity), held.avgCost, Shares(p.quantity), p.price);
    }
  }

  lemma ExecuteKeepsTradesAreFills(column: Column, a: Account, p: OrderParams)
    requires TradesAreFills(a)
    ensures TradesAreFills(Execute(column, a, p))
  {
    var b, r := Execute(column, a, p), OutcomeOf(column, a, p);
    ExecuteFrame(column, a, p);
    hide Execute, Fillable, Held, Notional, TradeRecordsOrder, RecordsFill, RecordsOrder;
    if r.OrderFilled? {
      FillsStep(a.orders, r.order);
    } else if r != InvalidOrder {
      FillsStep(a.orders, b.orders[|a.orders|]);
      assert b.orders == a.orders + [b.orders[|a.orders|]];
    }
  }

  lemma FillsStep(orders: seq<OrderRow>, o: OrderRow)
    ensures Fills(orders + [o]) == if o.status == Filled then Fills(orders) + [o] else Fills(orders)
  {
    assert (orders + [o])[..|orders|] == orders;
  }

  /** A trade row tells what was ordered, at the price as stored and at the time it was ordered at. */
  predicate RecordsFill(column: Column, t: TradeRow, p: OrderParams) {
    t.orderId == p.orderId && t.symbol == p.symbol && t.side == p.side && t.quantity == p.quantity
    && t.price == Stored(column, p.price) && t.executedAt == p.at
  }

  predicate RecordsOrder(o: OrderRow, p: OrderParams) {
    o.id == p.orderId && o.symbol == p.symbol && o.side == p.side && o.quantity == p.quantity
  }

  /** An order fills exactly when the account can afford or cover it. A fill adds one order and one
      trade and touches one position; a refusal adds one order row and touches nothing else. */
  lemma ExecuteFrame(column: Column, a: Account, p: OrderParams)
    ensures var b, r := Execute(column, a, p), OutcomeOf(column, a, p);
            && (r.OrderFilled? <==> Fillable(a, p))
            && (r.OrderFilled? ==>
                  && b.orders == a.orders + [r.order] && r.order.status == Filled
                  && b.trades == a.trades + [r.trade] && TradeRecordsOrder(r.trade, r.order)
                  && RecordsFill(column, r.trade, p) && RecordsOrder(r.order, p)
                  && r.order.filledPrice == Some(Stored(column, p.price)) && r.order.rejectionReason == None
                  && r.balance == b.balance
                  && Held(b, p.symbol).quantity == Held(a, p.symbol).quantity
                                                  + SignedTicks(p.side, p.quantity)
                  && forall s :: s != p.symbol ==> Held(b, s) == Held(a, s))
            && (r == InsufficientBalance || r == InsufficientPosition ==>
                  && |b.orders| == |a.orders| + 1 && b == a.(orders := b.orders)
                  && b.orders[..|a.orders|] == a.orders && b.orders[|a.orders|].status == Rejected
                  && RecordsOrder(b.orders[|a.orders|], p) && b.orders[|a.orders|].filledPrice == None
                  && b.orders[|a.orders|].rejectionReason
                     == Some(if r == InsufficientBalance then "insufficient_balance" else "insufficient_position"))
            && (r == InsufficientBalance ==> p.side == Buy && Notional(p) > a.balance)
            && (r == InsufficientPosition ==> p.side == Sell && p.quantity > Held(a, p.symbol).quantity)
            && (r == InvalidOrder <==> p.side == OtherSide) && (r == InvalidOrder ==> b == a)
  {}

  // ---- one trade per filled order

  ghost predicate DistinctIds(orders: seq<OrderRow>) {
    forall i, j :: 0 <= i < j < |orders| ==> orders[i].id != orders[j].id
  }

  lemma {:induction false} FillsMembers(orders: seq<OrderRow>, o: OrderRow)
    ensures o in Fills(orders) <==> o in orders && o.status == Filled
  {
    if orders != [] {
      var last := |orders| - 1;
      FillsMembers(orders[..last], o);
      assert orders == orders[..last] + [orders[last]];
    }
  }

  lemma {:induction false} FillsDistinct(orders: seq<OrderRow>)
    requires DistinctIds(orders)
    ensures DistinctIds(Fills(orders))
  {
    if orders != [] {
      var last := |orders| - 1;
      FillsDistinct(orders[..last]);
      forall i | 0 <= i < |Fills(orders[..last])| ensures Fills(orders[..last])[i].id != orders[last].id {
        FillsMembers(orders[..last], Fills(orders[..last])[i]);
      }
    }
  }

  /** Every filled order has exactly one trade, every trade is some filled order's, and no rejected
      order has any. */
  lemma OneTradePerFill(a: Account)
    requires TradesAreFills(a) && DistinctIds(a.orders)
    ensures forall j, k :: 0 <= j < k < |a.trades| ==> a.trades[j].orderId != a.trades[k].orderId
    ensures forall o :: o in a.orders ==> (o.status == Filled <==> exists t :: t in a.trades && TradeRecordsOrder(t, o))
    ensures forall t :: t in a.trades ==> exists o :: o in a.orders && o.status == Filled && TradeRecordsOrder(t, o)
  {
    var fills := Fills(a.orders);
    FillsDistinct(a.orders);
    forall t | t in a.trades ensures exists o :: o in a.orders && o.status == Filled && TradeRecordsOrder(t, o) {
      var k :| 0 <= k < |a.trades| && a.trades[k] == t;
      FillsMembers(a.orders, fills[k]);
    }
    forall o | o in a.orders ensures o.status == Filled <==> exists t :: t in a.trades && TradeRecordsOrder(t, o) {
      FillsMembers(a.orders, o);
      if o.status == Filled {
        var k :| 0 <= k < |fills| && fills[k] == o;
        assert TradeRecordsOrder(a.trades[k], o);
      }
    }
  }

  // ---- what reaches the ledger at all

  /** validateOrder's quantity rule: refused outside [one tick, a billion shares], otherwise snapped to
      the nearest tick. What it lets through is never less than a tick, never moved by more than half
      of one, and not moved at all when it already was a whole number of ticks. */
  function SnapQuantity(q: real): (r: Option<Lot>)
    ensures r.Some? <==> 0.0001 <= q <= 1000000000.0
    ensures r.Some? ==> -HALF_TICK <= Shares(r.value) - q <= HALF_TICK
    ensures r.Some? && WholeTicks(q) ==> Shares(r.value) == q
  {
    if q < 0.0001 || q > 1000000000.0 then None
    else
      var ticks := RoundHalfAway(q * TICKS_PER_UNIT);
      assert ticks >= 1;
      assert WholeTicks(q) ==> ticks == (q * TICKS_PER_UNIT).Floor;
      Some(ticks)
  }
}
