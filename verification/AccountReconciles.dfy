/** The two routes to one account's state, the ledger's own rows and the history rebuilt from its trade
    log, and exactly when the guard between them accepts. */
module AccountReconciles {
  import opened Numeric
  import opened Wrappers
  import opened Market
  import opened Ordering
  import opened Ledger
  import opened Reconcile
  import R = Reconstruct
  import T = Transactions

  // ---- what the trading engine serves

  function Wire(t: TradeRow): R.Trade {
    R.Trade(t.orderId, t.symbol, t.side, t.quantity, t.price, t.realizedPL, t.executedAt)
  }

  function WireLog(trades: seq<TradeRow>): seq<R.Trade> {
    if trades == [] then [] else WireLog(trades[..|trades| - 1]) + [Wire(trades[|trades| - 1])]
  }

  function Narrow(holdings: seq<Holding>): seq<LivePosition> {
    if holdings == [] then []
    else
      var last := holdings[|holdings| - 1];
      Narrow(holdings[..|holdings| - 1]) + [LivePosition(last.symbol, last.quantity)]
  }

  /** GET /trading/portfolio, narrowed to the two facts the guard reads: cash, and open positions by symbol. */
  function Live(a: Account): LivePortfolio {
    LivePortfolio(a.balance, Narrow(ListHoldings(a)))
  }

  // ---- one account's life

  function OpenedWith(balance: real): Account {
    Account(balance, map[], [], [])
  }

  function Opened(): Account {
    OpenedWith(R.STARTING_BALANCE)
  }

  function RunFrom(column: Column, opening: real, orders: seq<OrderParams>): Account {
    if orders == [] then OpenedWith(opening)
    else Execute(column, RunFrom(column, opening, orders[..|orders| - 1]), orders[|orders| - 1])
  }

  /** A run of an account opened with what the reconstruction takes for granted. */
  function RunOrders(column: Column, orders: seq<OrderParams>): Account {
    RunFrom(column, R.STARTING_BALANCE, orders)
  }

  /** Every fill price is stored as it was charged: at most four decimals, under NUMERIC(20,4). */
  ghost predicate PricesStoredExactly(column: Column, orders: seq<OrderParams>) {
    forall i :: 0 <= i < |orders| ==> Stored(column, orders[i].price) == orders[i].price
  }

  /** What the account holds in cash beyond what its trade log accounts for. */
  function Drift(a: Account): real {
    a.balance - R.Cash(WireLog(a.trades))
  }

  ghost predicate PositionsAreNet(a: Account) {
    forall s :: Held(a, s).quantity == R.Net(WireLog(a.trades), s)
  }

  lemma WireLogStep(trades: seq<TradeRow>, t: TradeRow)
    ensures WireLog(trades + [t]) == WireLog(trades) + [Wire(t)]
    ensures R.Cash(WireLog(trades + [t])) == R.Cash(WireLog(trades)) + R.Flow(Wire(t))
    ensures forall s :: R.Net(WireLog(trades + [t]), s)
                        == R.Net(WireLog(trades), s) + if t.symbol == s then R.Signed(Wire(t)) else 0
  {
    assert (trades + [t])[..|trades|] == trades;
    assert (WireLog(trades) + [Wire(t)])[..|WireLog(trades)|] == WireLog(trades);
  }

  /** The most n stores can have moved a balance. */
  function DriftBound(column: Column, n: nat): real {
    if column.Exact? then 0.0 else HALF_TICK * n as real
  }

  lemma FillKeepsNet(a: Account, b: Account, t: TradeRow)
    requires PositionsAreNet(a) && b.trades == a.trades + [t]
    requires forall s :: Held(b, s).quantity == Held(a, s).quantity + if s == t.symbol then SignedTicks(t.side, t.quantity) else 0
    ensures PositionsAreNet(b) && R.Cash(WireLog(b.trades)) == R.Cash(WireLog(a.trades)) + R.Flow(Wire(t))
  {
    WireLogStep(a.trades, t);
  }

  /** Quantities are exact at any price. */
  lemma OrderKeepsNet(column: Column, a: Account, p: OrderParams)
    requires PositionsAreNet(a)
    ensures PositionsAreNet(Execute(column, a, p))
  {
    var b := Execute(column, a, p);
    ExecuteFrame(column, a, p);
    if Fillable(a, p) {
      FillKeepsNet(a, b, b.trades[|a.trades|]);
    } else {
      assert forall s :: Held(b, s) == Held(a, s);
    }
  }

  /** After every run, whatever the prices, each position is the signed sum of the log's quantities. */
  lemma {:induction false} PositionsStayNet(column: Column, opening: real, orders: seq<OrderParams>)
    ensures PositionsAreNet(RunFrom(column, opening, orders))
  {
    if orders != [] {
      hide Execute, PositionsAreNet;
      PositionsStayNet(column, opening, orders[..|orders| - 1]);
      OrderKeepsNet(column, RunFrom(column, opening, orders[..|orders| - 1]), orders[|orders| - 1]);
    } else {
      assert forall s :: Held(OpenedWith(opening), s).quantity == 0;
    }
  }

  // ---- how far cash can drift from the log

  /** What storing a fill's price moves its proceeds by. */
  function PriceError(column: Column, p: OrderParams): real {
    Amount(Stored(column, p.price), p.quantity) - Amount(p.price, p.quantity)
  }

  lemma PriceErrorWithin(column: Column, p: OrderParams)
    ensures Abs(PriceError(column, p)) <= StoreError(column) * Shares(p.quantity)
  {
    var e, shares := Stored(column, p.price) - p.price, Shares(p.quantity);
    assert Stored(column, p.price) * shares - p.price * shares == e * shares;
    StoredWithin(column, p.price);
    ProductNonnegative(StoreError(column) - e, shares);
    ProductNonnegative(StoreError(column) + e, shares);
    assert (StoreError(column) - e) * shares == StoreError(column) * shares - e * shares;
    assert (StoreError(column) + e) * shares == StoreError(column) * shares + e * shares;
  }

  /** What a fill adds to the balance before it is stored. */
  function Charged(p: OrderParams): real {
    if p.side == Sell then Notional(p) else -Notional(p)
  }

  /** What a fill leaves between balance and log: what storing the balance moved it by, and the difference between what
      was charged and what the trade row says was. */
  function Residue(column: Column, a: Account, p: OrderParams): real {
    if !Fillable(a, p) then 0.0
    else
      var due := a.balance + Charged(p);
      (Stored(column, due) - due) + if p.side == Sell then -PriceError(column, p) else PriceError(column, p)
  }

  function Residues(column: Column, opening: real, orders: seq<OrderParams>): real {
    if orders == [] then 0.0
    else
      var before := orders[..|orders| - 1];
      Residues(column, opening, before) + Residue(column, RunFrom(column, opening, before), orders[|orders| - 1])
  }

  lemma FillMovesCash(column: Column, a: Account, p: OrderParams)
    requires Fillable(a, p)
    ensures var b, charged := Execute(column, a, p), Charged(p);
            && |b.trades| == |a.trades| + 1 && b.trades == a.trades + [b.trades[|a.trades|]]
            && b.trades[|a.trades|].quantity == p.quantity
            && b.balance == Stored(column, a.balance + charged)
            && R.Flow(Wire(b.trades[|a.trades|])) == charged
                                                     + if p.side == Sell then PriceError(column, p) else -PriceError(column, p)
  {}

  lemma OrderLeavesResidue(column: Column, a: Account, p: OrderParams)
    ensures Drift(Execute(column, a, p)) - Drift(a) == Residue(column, a, p)
    ensures !Fillable(a, p) ==> Execute(column, a, p).trades == a.trades
  {
    if Fillable(a, p) {
      FillMovesCash(column, a, p);
      var b := Execute(column, a, p);
      hide Execute, PriceError, Fillable, Charged, Stored;
      WireLogStep(a.trades, b.trades[|a.trades|]);
    }
  }

  lemma ResidueWithin(column: Column, a: Account, p: OrderParams)
    ensures Abs(Residue(column, a, p)) <= StoreError(column) + Abs(PriceError(column, p))
  {
    hide PriceError, Charged, Stored, Fillable, StoreError;
    StoredWithin(column, a.balance + Charged(p));
  }

  /** A refusal drifts nothing. A fill drifts by at most half a tick for the balance, and by what storing its price
      moved its proceeds by: nothing at four decimals, and never more than half a tick per share. */
  lemma OrderDrift(column: Column, a: Account, p: OrderParams)
    ensures var b := Execute(column, a, p);
            && Drift(b) - Drift(a) == Residue(column, a, p)
            && (!Fillable(a, p) ==> b.trades == a.trades && Drift(b) == Drift(a))
            && (Fillable(a, p) ==>
                  && |b.trades| == |a.trades| + 1
                  && Abs(Drift(b) - Drift(a)) <= StoreError(column) + Abs(PriceError(column, p)))
    ensures Stored(column, p.price) == p.price ==> PriceError(column, p) == 0.0
    ensures Abs(PriceError(column, p)) <= StoreError(column) * Shares(p.quantity)
  {
    OrderLeavesResidue(column, a, p);
    ResidueWithin(column, a, p);
    PriceErrorWithin(column, p);
    if Fillable(a, p) {
      FillMovesCash(column, a, p);
    }
    hide Execute, Drift, Charged, Shares, Stored, Fillable, Notional;
  }

  /** Drift, exactly: what the account opened with beyond what the reconstruction takes for granted, and the residue of
      every fill. */
  lemma {:induction false} DriftIsResidues(column: Column, opening: real, orders: seq<OrderParams>)
    ensures Drift(RunFrom(column, opening, orders)) == opening - R.STARTING_BALANCE + Residues(column, opening, orders)
  {
    if orders != [] {
      hide Execute, Drift, Residue;
      DriftIsResidues(column, opening, orders[..|orders| - 1]);
      OrderDrift(column, RunFrom(column, opening, orders[..|orders| - 1]), orders[|orders| - 1]);
    }
  }

  /** Drifts add up. */
  lemma DriftsAdd(a: Account, b: Account, opening: real, before: real, more: real)
    requires Abs(Drift(a) - (opening - R.STARTING_BALANCE)) <= before && Abs(Drift(b) - Drift(a)) <= more
    ensures Abs(Drift(b) - (opening - R.STARTING_BALANCE)) <= before + more
  {
    hide Drift;
  }

  /** Over every run of prices of at most four decimals the drift is at most half a tick per fill. */
  lemma {:induction false} RunDrift(column: Column, opening: real, orders: seq<OrderParams>)
    requires PricesStoredExactly(column, orders)
    ensures var a := RunFrom(column, opening, orders);
            Abs(Drift(a) - (opening - R.STARTING_BALANCE)) <= DriftBound(column, |a.trades|)
  {
    if orders != [] {
      hide Execute, Drift, PriceError, Fillable, Stored, Abs;
      var before, p := orders[..|orders| - 1], orders[|orders| - 1];
      var a := RunFrom(column, opening, before);
      var b := RunFrom(column, opening, orders);
      RunDrift(column, opening, before);
      OrderDrift(column, a, p);
      if Fillable(a, p) {
        NoAbs();
        DriftsAdd(a, b, opening, DriftBound(column, |a.trades|), StoreError(column));
      }
    } else {
      NoAbs();
    }
  }

  lemma NoAbs()
    ensures Abs(0.0) == 0.0
  {}

  function SharesTraded(trades: seq<TradeRow>): real {
    if trades == [] then 0.0 else SharesTraded(trades[..|trades| - 1]) + Shares(trades[|trades| - 1].quantity)
  }

  /** Half a tick per fill and half a tick per share traded. */
  function DriftAllowed(column: Column, trades: seq<TradeRow>): real {
    DriftBound(column, |trades|) + StoreError(column) * SharesTraded(trades)
  }

  lemma FillAllows(column: Column, trades: seq<TradeRow>, t: TradeRow)
    ensures DriftAllowed(column, trades + [t])
            == DriftAllowed(column, trades) + StoreError(column) + StoreError(column) * Shares(t.quantity)
  {
    hide Shares;
    assert (trades + [t])[..|trades|] == trades;
    assert SharesTraded(trades + [t]) == SharesTraded(trades) + Shares(t.quantity);
    assert StoreError(column) * (SharesTraded(trades) + Shares(t.quantity))
        == StoreError(column) * SharesTraded(trades) + StoreError(column) * Shares(t.quantity);
  }

  lemma OrderDriftAllowed(column: Column, a: Account, p: OrderParams)
    ensures var b := Execute(column, a, p);
            Abs(Drift(b) - Drift(a)) <= DriftAllowed(column, b.trades) - DriftAllowed(column, a.trades)
  {
    hide Execute, Drift, PriceError, Fillable, Stored, Shares, DriftAllowed, SharesTraded, Residue, Charged, Notional;
    OrderDrift(column, a, p);
    if Fillable(a, p) {
      FillMovesCash(column, a, p);
      FillAllows(column, a.trades, Execute(column, a, p).trades[|a.trades|]);
    }
  }

  /** And over every run at any price, at most half a tick per fill and half a tick per share traded. */
  lemma {:induction false} RunDriftAnyPrice(column: Column, opening: real, orders: seq<OrderParams>)
    ensures var a := RunFrom(column, opening, orders);
            Abs(Drift(a) - (opening - R.STARTING_BALANCE)) <= DriftAllowed(column, a.trades)
  {
    if orders != [] {
      hide Execute, Drift, DriftAllowed, Abs;
      var a, b := RunFrom(column, opening, orders[..|orders| - 1]), RunFrom(column, opening, orders);
      RunDriftAnyPrice(column, opening, orders[..|orders| - 1]);
      OrderDriftAllowed(column, a, orders[|orders| - 1]);
      DriftsAdd(a, b, opening, DriftAllowed(column, a.trades), DriftAllowed(column, b.trades) - DriftAllowed(column, a.trades));
    }
  }

  // ---- what the guard sees

  lemma BeyondTolerance(quantity: int)
    ensures Abs(Shares(quantity)) > QUANTITY_TOLERANCE <==> !(-1 <= quantity <= 1)
  {}

  lemma ListedStep(a: Account, symbols: seq<Symbol>)
    requires symbols != []
    ensures var last := symbols[|symbols| - 1];
            var earlier := LiveHoldings(Narrow(HoldingsOf(a, symbols[..|symbols| - 1])));
            LiveHoldings(Narrow(HoldingsOf(a, symbols)))
            == if -1 <= Held(a, last).quantity <= 1 then earlier else earlier[last := Held(a, last).quantity]
  {
    hide Abs, Shares;
    var listed, shorter := HoldingsOf(a, symbols), HoldingsOf(a, symbols[..|symbols| - 1]);
    BeyondTolerance(Held(a, symbols[|symbols| - 1]).quantity);
    assert listed[..|listed| - 1] == shorter;
    assert Narrow(listed)[..|Narrow(listed)| - 1] == Narrow(shorter);
  }

  lemma {:induction false} ListedHoldings(a: Account, symbols: seq<Symbol>)
    ensures var h := LiveHoldings(Narrow(HoldingsOf(a, symbols)));
            forall s :: (s in h <==> s in symbols && !(-1 <= Held(a, s).quantity <= 1))
                        && (s in h ==> h[s] == Held(a, s).quantity)
  {
    if symbols != [] {
      hide LiveHoldings, Narrow, HoldingsOf, Held;
      ListedHoldings(a, symbols[..|symbols| - 1]);
      ListedStep(a, symbols);
      assert symbols == symbols[..|symbols| - 1] + [symbols[|symbols| - 1]];
    }
  }

  ghost predicate NoOneTickPosition(a: Account) {
    forall s :: s in a.positions ==> a.positions[s].quantity != 1
  }

  lemma ServedHoldings(a: Account)
    requires NothingNegative(a)
    ensures var h := LiveHoldings(Live(a).positions);
            forall s :: (s in h <==> Held(a, s).quantity > 1) && (s in h ==> h[s] == Held(a, s).quantity)
  {
    ListedHoldings(a, SortedKeys(OpenSymbols(a)));
    assert forall s :: s in SortedKeys(OpenSymbols(a)) <==> Held(a, s).quantity > 0;
  }

  /** What an account serves is what its own trade log implies. */
  lemma ServesItsLog(a: Account)
    requires PositionsAreNet(a) && NothingNegative(a)
    ensures ReportsLog(Live(a), WireLog(a.trades))
  {
    hide LiveHoldings, Live, WireLog;
    ServedHoldings(a);
    forall s ensures R.Net(WireLog(a.trades), s) == Held(a, s).quantity >= 0 {}
  }

  lemma {:induction false} RunNonnegative(column: Column, opening: real, orders: seq<OrderParams>)
    requires opening >= 0.0
    ensures NothingNegative(RunFrom(column, opening, orders))
  {
    if orders != [] {
      var a := RunFrom(column, opening, orders[..|orders| - 1]);
      RunNonnegative(column, opening, orders[..|orders| - 1]);
      ExecuteKeepsNonnegative(column, a, orders[|orders| - 1]);
    }
  }

  /** After every run, at any prices and whatever it opened with. */
  lemma AccountReportsItsLog(column: Column, opening: real, orders: seq<OrderParams>)
    requires opening >= 0.0
    ensures ReportsLog(Live(RunFrom(column, opening, orders)), WireLog(RunFrom(column, opening, orders).trades))
  {
    hide ReportsLog, Live, WireLog, RunFrom, PositionsAreNet, NothingNegative;
    PositionsStayNet(column, opening, orders);
    RunNonnegative(column, opening, orders);
    ServesItsLog(RunFrom(column, opening, orders));
  }

  /** The derived holdings agree with the served ones unless some position is exactly one tick: the guard leaves such a
      position out of the served side and keeps it in the derived one. */
  lemma AcceptedIff(a: Account, log: seq<R.Trade>, r: R.Reconstruction)
    requires PositionsAreNet(a) && NothingNegative(a)
    requires multiset(log) == multiset(WireLog(a.trades)) && R.EndsAsLog(r, log)
    ensures ReconcileVerdict(r, log, Live(a)).None? <==>
              r.dates == [] || (Abs(Drift(a)) <= CASH_TOLERANCE && NoOneTickPosition(a))
  {
    hide ReconcileVerdict, ListHoldings, Narrow, R.Cash, WireLog, ReportsLog, PositionsAreNet;
    hide NothingNegative, NoOneTickPosition, R.Net, AllPass;
    if r.dates != [] {
      ServesItsLog(a);
      R.SumsIgnoreOrder(log, WireLog(a.trades));
      AnyLogAcceptedIff(WireLog(a.trades), log, r, Live(a));
      OwnLogPassesIff(a, log);
    } else {
      NoHistoryIsAccepted(log, r, Live(a));
    }
  }

  lemma OwnLogPassesIff(a: Account, log: seq<R.Trade>)
    requires PositionsAreNet(a) && NothingNegative(a) && forall s :: R.Net(log, s) == R.Net(WireLog(a.trades), s)
    ensures AllPass(log, WireLog(a.trades)) <==> NoOneTickPosition(a)
  {
    hide R.Net, WireLog;
    forall s ensures PassesFor(log, WireLog(a.trades), s) <==> Held(a, s).quantity != 1 {
      assert Held(a, s).quantity == R.Net(WireLog(a.trades), s) >= 0;
    }
    hide PassesFor;
    if NoOneTickPosition(a) {
      assert forall s :: Held(a, s).quantity != 1;
    } else {
      var s :| s in a.positions && a.positions[s].quantity == 1;
      assert Held(a, s).quantity == 1;
    }
  }

  /** The log in whatever order it was served, and the history reconstructed from it over some calendar. */
  ghost predicate Rebuilt(a: Account, log: seq<R.Trade>, closes: R.Closes, calendar: seq<int>, r: R.Reconstruction) {
    multiset(log) == multiset(WireLog(a.trades)) && R.Reconstructed(log, closes, calendar) == Ok(r)
  }

  /** Acceptance, exactly. Over any run of orders at any prices, whatever the account opened with, with the trade log
      served in any order and read through any calendar, the guard accepts a non-empty history if and only if the cash
      drift is within a cent and no position is exactly one tick. */
  lemma GuardAcceptsIff(column: Column, opening: real, orders: seq<OrderParams>, log: seq<R.Trade>, closes: R.Closes,
                        calendar: seq<int>, r: R.Reconstruction)
    requires opening >= 0.0 && Rebuilt(RunFrom(column, opening, orders), log, closes, calendar, r)
    ensures |r.cash| == |r.dates|
    ensures var a := RunFrom(column, opening, orders);
            ReconcileVerdict(r, log, Live(a)).None? <==>
              r.dates == [] || (Abs(Drift(a)) <= CASH_TOLERANCE && NoOneTickPosition(a))
    ensures Drift(RunFrom(column, opening, orders)) == opening - R.STARTING_BALANCE + Residues(column, opening, orders)
  {
    hide ReconcileVerdict, Live, WireLog, RunFrom, R.Reconstructed, NoOneTickPosition, PositionsAreNet, NothingNegative;
    DriftIsResidues(column, opening, orders);
    R.ReconstructedEndsAsLog(log, closes, calendar, r);
    PositionsStayNet(column, opening, orders);
    RunNonnegative(column, opening, orders);
    AcceptedIff(RunFrom(column, opening, orders), log, r);
  }

  /** Completeness. Up to two hundred fills at prices of four decimals the drift cannot reach past a cent, so the guard
      refuses an honest account only over a position of exactly one tick. At any price, the same holds as long as the
      fills and the shares traded come to two hundred together. */
  lemma HonestAccountAccepted(orders: seq<OrderParams>, log: seq<R.Trade>, closes: R.Closes, calendar: seq<int>,
                              r: R.Reconstruction)
    requires var a := RunOrders(Numeric4, orders);
             && Rebuilt(a, log, closes, calendar, r)
             && (|| (PricesStoredExactly(Numeric4, orders) && |a.trades| <= 200)
                 || |a.trades| as real + SharesTraded(a.trades) <= 200.0)
    ensures |r.cash| == |r.dates|
    ensures var a := RunOrders(Numeric4, orders);
            ReconcileVerdict(r, log, Live(a)).None? <==> r.dates == [] || NoOneTickPosition(a)
  {
    hide ReconcileVerdict, Live, RunFrom, R.Reconstructed, NoOneTickPosition, Drift, Rebuilt, PricesStoredExactly;
    var a := RunOrders(Numeric4, orders);
    if PricesStoredExactly(Numeric4, orders) && |a.trades| <= 200 {
      RunDrift(Numeric4, R.STARTING_BALANCE, orders);
    } else {
      RunDriftAnyPrice(Numeric4, R.STARTING_BALANCE, orders);
      assert HALF_TICK * |a.trades| as real + HALF_TICK * SharesTraded(a.trades)
          == HALF_TICK * (|a.trades| as real + SharesTraded(a.trades));
    }
    GuardAcceptsIff(Numeric4, R.STARTING_BALANCE, orders, log, closes, calendar, r);
  }

  /** An account that opened with something else than the reconstruction takes for granted is refused, for its cash,
      once the difference is more than a cent and the drift its fills allow. */
  lemma WrongStartingBalanceIsRefused(opening: real, orders: seq<OrderParams>, log: seq<R.Trade>, closes: R.Closes,
                                      calendar: seq<int>, r: R.Reconstruction)
    requires var a := RunFrom(Numeric4, opening, orders);
             && Rebuilt(a, log, closes, calendar, r) && r.dates != []
             && PricesStoredExactly(Numeric4, orders)
             && Abs(opening - R.STARTING_BALANCE) > CASH_TOLERANCE + DriftBound(Numeric4, |a.trades|)
    ensures |r.cash| == |r.dates|
    ensures var balance := RunFrom(Numeric4, opening, orders).balance;
            ReconcileVerdict(r, log, Live(RunFrom(Numeric4, opening, orders))) == Some(CashDiverges(R.Cash(log), balance))
  {
    hide ReconcileVerdict, RunFrom, R.Reconstructed, WireLog, PricesStoredExactly, R.EndsAsLog;
    var a := RunFrom(Numeric4, opening, orders);
    RunDrift(Numeric4, opening, orders);
    R.SumsIgnoreOrder(log, WireLog(a.trades));
    R.ReconstructedEndsAsLog(log, closes, calendar, r);
    WrongCashIsRefused(log, r, Live(a));
  }

  // ---- two hundred is the most

  const HALF_TICK_BUY: OrderParams := OrderParams(0, "S", Buy, 1, 0.5, 0)

  function HalfTickBuys(n: nat): seq<OrderParams> {
    if n == 0 then [] else HalfTickBuys(n - 1) + [HALF_TICK_BUY]
  }

  lemma HalfTickBuyRoundsAway(a: Account)
    requires a.balance == R.STARTING_BALANCE
    ensures var b := Execute(Numeric4, a, HALF_TICK_BUY);
            && b.balance == a.balance && |b.trades| == |a.trades| + 1 && Drift(b) == Drift(a) + HALF_TICK
            && b.trades == a.trades + [TradeOf(Numeric4, HALF_TICK_BUY, None)]
  {
    var p, t := HALF_TICK_BUY, TradeOf(Numeric4, HALF_TICK_BUY, None);
    assert Notional(p) == HALF_TICK;
    assert (R.STARTING_BALANCE - HALF_TICK) * TICKS_PER_UNIT == 999999999.5;
    assert Stored(Numeric4, R.STARTING_BALANCE - HALF_TICK) == R.STARTING_BALANCE;
    assert Stored(Numeric4, 0.5) == 0.5;
    assert Execute(Numeric4, a, p).trades == a.trades + [t];
    WireLogStep(a.trades, t);
  }

  /** Every row of the log is one of those buys, on day zero. */
  ghost predicate AllHalfTickBuys(trades: seq<TradeRow>) {
    forall i :: 0 <= i < |trades| ==> trades[i] == TradeOf(Numeric4, HALF_TICK_BUY, None)
  }

  lemma {:induction false} HalfTickBuysRoundAway(n: nat)
    ensures var a := RunOrders(Numeric4, HalfTickBuys(n));
            && a.balance == R.STARTING_BALANCE && |a.trades| == n && Drift(a) == HALF_TICK * n as real
            && AllHalfTickBuys(a.trades)
  {
    if n > 0 {
      hide Execute, Drift, Stored, TradeOf;
      var earlier := HalfTickBuys(n - 1);
      HalfTickBuysRoundAway(n - 1);
      assert HalfTickBuys(n)[..|earlier|] == earlier;
      HalfTickBuyRoundsAway(RunOrders(Numeric4, earlier));
    }
  }

  const CLOSES_ON_DAY_ZERO: R.Closes := map["S" := map[0 := 0.5]]

  ghost predicate OnDayZero(log: seq<R.Trade>) {
    forall t :: t in log ==> t.symbol == "S" && Day(t.executedAt) == 0
  }

  /** A log of one symbol on one day, over that day. */
  lemma OneDayIsRebuilt(log: seq<R.Trade>) returns (r: R.Reconstruction)
    requires log != [] && OnDayZero(log)
    ensures R.Reconstructed(log, CLOSES_ON_DAY_ZERO, [0]) == Ok(r) && r.dates == [0]
  {
    hide R.HoldingsOn, R.FirstDay, R.FullyPriced, R.Reconstructed;
    OneDayOnly(log);
    R.ReconstructFailsIff(log, CLOSES_ON_DAY_ZERO, [0]);
    r := R.Reconstructed(log, CLOSES_ON_DAY_ZERO, [0]).value;
    R.CoversWindow(log, CLOSES_ON_DAY_ZERO, [0], r);
    assert [0][..0] == [];
    assert R.Window([0], 0) == [0];
  }

  lemma OneDayOnly(log: seq<R.Trade>)
    requires log != [] && OnDayZero(log)
    ensures R.FirstDay(log) == 0 && R.FullyPriced(log, CLOSES_ON_DAY_ZERO, 0)
  {
    hide R.HoldingsOn;
    var first := R.FirstDay(log);
    var t :| t in log && Day(t.executedAt) == first;
    R.HeldWasTraded(log, 0);
  }

  lemma {:induction false} WireLogMembers(trades: seq<TradeRow>)
    requires AllHalfTickBuys(trades)
    ensures |WireLog(trades)| == |trades| && OnDayZero(WireLog(trades))
  {
    if trades != [] {
      WireLogMembers(trades[..|trades| - 1]);
    }
  }

  /** The bound is sharp: buying one tick at half a dollar costs half a tick, which storage rounds back to nothing, so
      from the two hundred and first such fill on the guard refuses an honest account, over any calendar. */
  lemma TwoHundredIsSharp(n: nat, log: seq<R.Trade>, closes: R.Closes, calendar: seq<int>, r: R.Reconstruction)
    requires n > 200 && Rebuilt(RunOrders(Numeric4, HalfTickBuys(n)), log, closes, calendar, r) && r.dates != []
    ensures PricesStoredExactly(Numeric4, HalfTickBuys(n)) && |r.cash| == |r.dates|
    ensures ReconcileVerdict(r, log, Live(RunOrders(Numeric4, HalfTickBuys(n)))).Some?
  {
    hide ReconcileVerdict, Live, RunFrom, Drift, Rebuilt, AllHalfTickBuys, NoOneTickPosition;
    HalfTickBuysRoundAway(n);
    HalfTickPricesExact(n);
    GuardAcceptsIff(Numeric4, R.STARTING_BALANCE, HalfTickBuys(n), log, closes, calendar, r);
  }

  /** Both refusals happen to a history rebuilt in full: over the one day of such an account's log, the guard refuses
      it past two hundred fills, and after the very first, whose drift is nothing to it but which leaves one tick held. */
  lemma HonestAccountsRefused(n: nat) returns (r: R.Reconstruction)
    requires n > 200 || n == 1
    ensures var a := RunOrders(Numeric4, HalfTickBuys(n));
            && Rebuilt(a, WireLog(a.trades), CLOSES_ON_DAY_ZERO, [0], r) && r.dates == [0] && |r.cash| == 1
            && ReconcileVerdict(r, WireLog(a.trades), Live(a)).Some?
            && (n == 1 ==> Abs(Drift(a)) <= CASH_TOLERANCE && !NoOneTickPosition(a))
  {
    hide ReconcileVerdict, Live, RunFrom, WireLog, Drift, R.Reconstructed, AllHalfTickBuys, NoOneTickPosition;
    var a := RunOrders(Numeric4, HalfTickBuys(n));
    HalfTickBuysRoundAway(n);
    WireLogMembers(a.trades);
    r := OneDayIsRebuilt(WireLog(a.trades));
    if n == 1 {
      FirstHalfTickBuy();
      GuardAcceptsIff(Numeric4, R.STARTING_BALANCE, HalfTickBuys(n), WireLog(a.trades), CLOSES_ON_DAY_ZERO, [0], r);
    } else {
      TwoHundredIsSharp(n, WireLog(a.trades), CLOSES_ON_DAY_ZERO, [0], r);
    }
  }

  lemma FirstHalfTickBuy()
    ensures !NoOneTickPosition(RunOrders(Numeric4, HalfTickBuys(1)))
  {
    var a := RunOrders(Numeric4, HalfTickBuys(1));
    assert HalfTickBuys(1) == [] + [HALF_TICK_BUY] && HalfTickBuys(1)[..0] == [];
    assert RunFrom(Numeric4, R.STARTING_BALANCE, []) == Opened();
    assert Notional(HALF_TICK_BUY) == HALF_TICK;
    assert a == AfterBuy(Numeric4, Opened(), HALF_TICK_BUY);
    assert "S" in a.positions && a.positions["S"].quantity == 1;
  }

  lemma {:induction false} HalfTickPricesExact(n: nat)
    ensures PricesStoredExactly(Numeric4, HalfTickBuys(n))
  {
    assert Stored(Numeric4, 0.5) == 0.5;
    if n > 0 {
      HalfTickPricesExact(n - 1);
    }
  }

  // ---- the same for an account many requests race on

  function OrdersOf(commits: seq<T.Commit>, account: AccountId): seq<OrderParams> {
    if commits == [] then []
    else
      var last := commits[|commits| - 1];
      OrdersOf(commits[..|commits| - 1], account) + if last.Executed? && last.account == account then [last.p] else []
  }

  ghost predicate SameBooks(a: Account, b: Account) {
    a.balance == b.balance && a.positions == b.positions && a.trades == b.trades
  }

  lemma ExecuteKeepsSameBooks(column: Column, a: Account, b: Account, p: OrderParams)
    requires SameBooks(a, b)
    ensures SameBooks(Execute(column, a, p), Execute(column, b, p))
  {
    assert Held(a, p.symbol) == Held(b, p.symbol);
  }

  lemma {:induction false} ReplayIsRunOrders(column: Column, db: map<AccountId, Account>, commits: seq<T.Commit>,
                                             account: AccountId)
    requires account in db && db[account] == Opened()
    ensures account in T.Replay(column, db, commits)
    ensures SameBooks(T.Replay(column, db, commits)[account], RunOrders(column, OrdersOf(commits, account)))
  {
    if commits != [] {
      var before, last := commits[..|commits| - 1], commits[|commits| - 1];
      ReplayIsRunOrders(column, db, before, account);
      if last.Executed? && last.account == account {
        var earlier := OrdersOf(before, account);
        assert OrdersOf(commits, account)[..|earlier|] == earlier;
        ExecuteKeepsSameBooks(column, T.Replay(column, db, before)[account], RunOrders(column, earlier), last.p);
      } else {
        assert OrdersOf(commits, account) == OrdersOf(before, account);
      }
    }
  }

  /** End to end. After any interleaving of concurrent orders, with transactions rolled back anywhere, an
      account with at most two hundred fills at four-decimal prices is accepted unless it holds exactly one
      tick of something. */
  lemma ConcurrentAccountAccepted(db: map<AccountId, Account>, events: seq<T.Event>, account: AccountId,
                                  log: seq<R.Trade>, closes: R.Closes, calendar: seq<int>, r: R.Reconstruction)
    requires account in db && db[account] == Opened()
    requires var s := T.Run(Numeric4, db, events);
             && account in s.db && |s.db[account].trades| <= 200
             && PricesStoredExactly(Numeric4, OrdersOf(s.commits, account))
             && Rebuilt(s.db[account], log, closes, calendar, r)
    ensures |r.cash| == |r.dates|
    ensures var a := T.Run(Numeric4, db, events).db[account];
            ReconcileVerdict(r, log, Live(a)).None? <==> r.dates == [] || NoOneTickPosition(a)
  {
    hide ReconcileVerdict, Live, RunFrom, R.Reconstructed, NoOneTickPosition, PricesStoredExactly, T.Run;
    var s := T.Run(Numeric4, db, events);
    T.Serializable(Numeric4, db, events);
    ReplayIsRunOrders(Numeric4, db, s.commits, account);
    var orders := OrdersOf(s.commits, account);
    var a, b := s.db[account], RunOrders(Numeric4, orders);
    HonestAccountAccepted(orders, log, closes, calendar, r);
    SameBooksServeTheSame(a, b);
  }

  lemma {:induction false} SameHoldings(a: Account, b: Account, symbols: seq<Symbol>)
    requires SameBooks(a, b)
    ensures HoldingsOf(a, symbols) == HoldingsOf(b, symbols)
  {
    if symbols != [] {
      SameHoldings(a, b, symbols[..|symbols| - 1]);
    }
  }

  lemma SameBooksServeTheSame(a: Account, b: Account)
    requires SameBooks(a, b)
    ensures Live(a) == Live(b) && (NoOneTickPosition(a) <==> NoOneTickPosition(b))
  {
    assert OpenSymbols(a) == OpenSymbols(b);
    SameHoldings(a, b, SortedKeys(OpenSymbols(a)));
  }
}
