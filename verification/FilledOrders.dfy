/** What a trade log tells of the orders behind it. */
module FilledOrders {
  import opened Numeric
  import opened Wrappers
  import opened Market
  import opened Ledger
  import opened AccountReconciles
  import R = Reconstruct
  import T = Transactions

  /** The orders of a run that filled when their turn came, in order. */
  function FilledIn(column: Column, opening: real, orders: seq<OrderParams>): seq<OrderParams> {
    if orders == [] then []
    else
      var before, last := orders[..|orders| - 1], orders[|orders| - 1];
      FilledIn(column, opening, before) + if Fillable(RunFrom(column, opening, before), last) then [last] else []
  }

  /** A log entry tells what was ordered, at the price as stored and at the time of the order. */
  predicate Tells(column: Column, t: R.Trade, p: OrderParams) {
    t.id == p.orderId && t.symbol == p.symbol && t.side == p.side && t.quantity == p.quantity
    && t.price == Stored(column, p.price) && t.executedAt == p.at
  }

  ghost predicate TellsAll(column: Column, log: seq<R.Trade>, orders: seq<OrderParams>) {
    |log| == |orders| && forall i :: 0 <= i < |orders| ==> Tells(column, log[i], orders[i])
  }

  lemma EntryTells(column: Column, a: Account, p: OrderParams)
    requires Fillable(a, p)
    ensures var b := Execute(column, a, p);
            && |b.trades| == |a.trades| + 1 && b.trades == a.trades + [b.trades[|a.trades|]]
            && Tells(column, Wire(b.trades[|a.trades|]), p)
  {
    ExecuteFrame(column, a, p);
  }

  lemma RefusalTradesNothing(column: Column, a: Account, p: OrderParams)
    requires !Fillable(a, p)
    ensures Execute(column, a, p).trades == a.trades
  {
    ExecuteFrame(column, a, p);
  }

  /** After every run the trade log is the filled orders: each with its id, symbol, side, quantity and time, at its price
      as stored, in the order they filled. */
  lemma {:induction false} LogTellsTheFills(column: Column, opening: real, orders: seq<OrderParams>)
    ensures TellsAll(column, WireLog(RunFrom(column, opening, orders).trades), FilledIn(column, opening, orders))
  {
    if orders != [] {
      var before, p := orders[..|orders| - 1], orders[|orders| - 1];
      var a, b := RunFrom(column, opening, before), RunFrom(column, opening, orders);
      LogTellsTheFills(column, opening, before);
      if Fillable(a, p) {
        EntryTells(column, a, p);
        hide Execute, Fillable, Tells;
        WireLogStep(a.trades, b.trades[|a.trades|]);
      } else {
        RefusalTradesNothing(column, a, p);
        assert FilledIn(column, opening, before) + [] == FilledIn(column, opening, before);
      }
    }
  }

  /** And so it is for an account many transactions raced on, with its committed orders in the order they locked it. */
  lemma ConcurrentLogTellsTheFills(column: Column, db: map<AccountId, Account>, events: seq<T.Event>, account: AccountId)
    requires account in db && db[account] == Opened()
    ensures var s := T.Run(column, db, events);
            && account in s.db
            && TellsAll(column, WireLog(s.db[account].trades),
                        FilledIn(column, R.STARTING_BALANCE, OrdersOf(s.commits, account)))
  {
    hide TellsAll, RunFrom, FilledIn, WireLog, T.Run;
    var s := T.Run(column, db, events);
    T.Serializable(column, db, events);
    ReplayIsRunOrders(column, db, s.commits, account);
    LogTellsTheFills(column, R.STARTING_BALANCE, OrdersOf(s.commits, account));
  }
}
