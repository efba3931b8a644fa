/** A trade log that is not the account's: which single faults the guard sees, and which it does not. */
module FaultyLogs {
  import opened Numeric
  import opened Wrappers
  import opened Market
  import opened Ledger
  import opened Reconcile
  import opened AccountReconciles
  import R = Reconstruct

  datatype Fault = Dropped | Duplicated | SideFlip

  /** One trade of a log gone, repeated anywhere, or mis-signed. */
  ghost predicate FaultAt(fault: Fault, log: seq<R.Trade>, faulty: seq<R.Trade>, i: nat)
    requires i < |log|
  {
    match fault
    case Dropped => faulty == log[..i] + log[i + 1..]
    case Duplicated => multiset(faulty) == multiset(log) + multiset{log[i]}
    case SideFlip => faulty == log[i := SideFlipped(log[i])]
  }

  ghost predicate NoOtherOneTick(a: Account, symbol: Symbol) {
    forall s :: s != symbol ==> Held(a, s).quantity != 1
  }

  /** The faults that leave nothing the guard looks at out of place: a trade of a single tick, gone or repeated, worth no
      more than a cent beside the drift there was, whose symbol is still held on both sides or on neither. */
  ghost predicate Unseen(a: Account, fault: Fault, t: R.Trade) {
    && t.quantity == 1 && NoOtherOneTick(a, t.symbol)
    && match fault
       case Dropped =>
         Abs(Drift(a) + R.Flow(t)) <= CASH_TOLERANCE && Held(a, t.symbol).quantity >= if t.side == Sell then 2 else 1
       case Duplicated =>
         Abs(Drift(a) - R.Flow(t)) <= CASH_TOLERANCE && Held(a, t.symbol).quantity >= if t.side == Sell then 1 else 2
       case SideFlip => false
  }

  ghost predicate AllLots(log: seq<R.Trade>) {
    forall i :: 0 <= i < |log| ==> log[i].quantity >= 1
  }

  lemma {:induction false} LogHoldsLots(column: Column, orders: seq<OrderParams>)
    ensures AllLots(WireLog(RunOrders(column, orders).trades))
  {
    if orders != [] {
      var a, p := RunOrders(column, orders[..|orders| - 1]), orders[|orders| - 1];
      LogHoldsLots(column, orders[..|orders| - 1]);
      OrderDrift(column, a, p);
      if Fillable(a, p) {
        FillMovesCash(column, a, p);
        hide Execute, Drift, Residue, PriceError, Charged, Fillable;
        WireLogStep(a.trades, Execute(column, a, p).trades[|a.trades|]);
      }
    }
  }

  /** Soundness, exactly. After any run of orders at any prices, handed a trade log with one such fault, whatever the
      calendar, the guard refuses the history unless the fault is one of the unseen ones: every fault of two ticks or
      more and every flipped side is refused. */
  lemma FaultyLogAcceptedIff(column: Column, orders: seq<OrderParams>, fault: Fault, i: nat, faulty: seq<R.Trade>,
                             closes: R.Closes, calendar: seq<int>, r: R.Reconstruction)
    requires var log := WireLog(RunOrders(column, orders).trades); i < |log| && FaultAt(fault, log, faulty, i)
    requires R.Reconstructed(faulty, closes, calendar) == Ok(r) && r.dates != []
    ensures |r.cash| == |r.dates|
    ensures var a := RunOrders(column, orders);
            ReconcileVerdict(r, faulty, Live(a)).None? <==> Unseen(a, fault, WireLog(a.trades)[i])
  {
    hide ReconcileVerdict, ReportsLog, WireLog, RunFrom, R.Reconstructed, R.Flow, R.Cash, R.Net, R.EndsAsLog;
    var a := RunOrders(column, orders);
    var log := WireLog(a.trades);
    R.ReconstructedEndsAsLog(faulty, closes, calendar, r);
    AccountReportsItsLog(column, R.STARTING_BALANCE, orders);
    LogHoldsLots(column, orders);
    OwnLogHoldings(column, orders, log[i].symbol);
    match fault
    case Dropped => DroppedTradeAcceptedIff(log, i, r, Live(a));
    case Duplicated => DuplicatedTradeAcceptedIff(log, faulty, i, r, Live(a));
    case SideFlip => FlippedSideIsRefused(log, i, r, Live(a));
  }

  lemma OwnLogHoldings(column: Column, orders: seq<OrderParams>, symbol: Symbol)
    ensures var a := RunOrders(column, orders);
            && Held(a, symbol).quantity == R.Net(WireLog(a.trades), symbol) >= 0
            && (NoOtherOneTick(a, symbol) <==> NoOneTickBut(WireLog(a.trades), symbol))
  {
    hide WireLog, RunFrom, R.Net;
    PositionsStayNet(column, R.STARTING_BALANCE, orders);
    RunNonnegative(column, R.STARTING_BALANCE, orders);
    var a := RunOrders(column, orders);
    forall s ensures Held(a, s).quantity == R.Net(WireLog(a.trades), s) >= 0 {}
  }

  // ---- one tick gone, unseen and seen

  function BuyS(quantity: Lot, price: Price): OrderParams {
    OrderParams(0, "S", Buy, quantity, price, 0)
  }

  const FIVE_TICKS: seq<OrderParams> := [BuyS(5, 1.0)]

  /** Five ticks at a dollar, and then one more. */
  function ThenOneMore(price: Price): seq<OrderParams> {
    FIVE_TICKS + [BuyS(1, price)]
  }

  predicate CheapOrDear(price: Price) {
    price == 1.0 || price == 300.0
  }

  lemma ExactlyStored(price: Price)
    requires CheapOrDear(price)
    ensures Stored(Numeric4, price) == price && Stored(Numeric4, 99999.9995) == 99999.9995
    ensures Stored(Numeric4, 99999.9995 - price * 0.0001) == 99999.9995 - price * 0.0001
  {
    assert 99999.9995 * TICKS_PER_UNIT == 999999995.0;
    assert (99999.9995 - 1.0 * 0.0001) * TICKS_PER_UNIT == 999999994.0;
    assert (99999.9995 - 300.0 * 0.0001) * TICKS_PER_UNIT == 999999695.0;
  }

  lemma BuysFiveTicks()
    ensures var a := RunOrders(Numeric4, FIVE_TICKS);
            && a.balance == 99999.9995 && a.trades == [TradeOf(Numeric4, BuyS(5, 1.0), None)] && Drift(a) == 0.0
            && a.positions.Keys == {"S"} && a.positions["S"].quantity == 5
  {
    var p := BuyS(5, 1.0);
    ExactlyStored(1.0);
    assert FIVE_TICKS[..0] == [];
    assert RunFrom(Numeric4, R.STARTING_BALANCE, []) == Opened();
    assert Notional(p) == 0.0005;
    assert RunOrders(Numeric4, FIVE_TICKS) == AfterBuy(Numeric4, Opened(), p);
    hide Stored, WeightedAvgCost;
    WireLogStep([], TradeOf(Numeric4, p, None));
    assert [] + [TradeOf(Numeric4, p, None)] == [TradeOf(Numeric4, p, None)];
  }

  lemma BuysOneMore(price: Price)
    requires CheapOrDear(price)
    ensures var earlier, a := RunOrders(Numeric4, FIVE_TICKS), RunOrders(Numeric4, ThenOneMore(price));
            && a.balance == 99999.9995 - price * 0.0001 && Drift(a) == 0.0
            && a.trades == earlier.trades + [TradeOf(Numeric4, BuyS(1, price), None)]
            && a.positions.Keys == {"S"} && a.positions["S"].quantity == 6
  {
    var earlier, p := RunOrders(Numeric4, FIVE_TICKS), BuyS(1, price);
    BuysFiveTicks();
    ExactlyStored(price);
    assert ThenOneMore(price)[..1] == FIVE_TICKS;
    assert Notional(p) == price * 0.0001;
    assert RunOrders(Numeric4, ThenOneMore(price)) == AfterBuy(Numeric4, earlier, p);
    hide Stored, WeightedAvgCost, RunFrom;
    WireLogStep(earlier.trades, TradeOf(Numeric4, p, None));
  }

  /** The log of the first buy alone is the log of both with the second dropped. */
  lemma SecondIsDropped(price: Price)
    requires CheapOrDear(price)
    ensures var earlier, a := RunOrders(Numeric4, FIVE_TICKS), RunOrders(Numeric4, ThenOneMore(price));
            var short, log := WireLog(earlier.trades), WireLog(a.trades);
            && |short| == 1 && log == short + [Wire(TradeOf(Numeric4, BuyS(1, price), None))]
            && FaultAt(Dropped, log, short, 1) && OnDayZero(short) && OnDayZero(log)
  {
    hide Stored, RunFrom;
    BuysFiveTicks();
    BuysOneMore(price);
    var first, second := TradeOf(Numeric4, BuyS(5, 1.0), None), TradeOf(Numeric4, BuyS(1, price), None);
    WireLogStep([], first);
    assert [] + [first] == [first];
    WireLogStep([first], second);
  }

  /** Both happen, to a history reconstructed from the faulty log, of an account the guard accepts with its own: a buy of
      one tick goes unseen at a dollar, and is refused for its cash at three hundred. */
  lemma OneTickUnseenAndSeen(price: Price) returns (honest: R.Reconstruction, r: R.Reconstruction)
    requires CheapOrDear(price)
    ensures var earlier, a := RunOrders(Numeric4, FIVE_TICKS), RunOrders(Numeric4, ThenOneMore(price));
            var faulty, log := WireLog(earlier.trades), WireLog(a.trades);
            && |log| == 2 && FaultAt(Dropped, log, faulty, 1)
            && R.Reconstructed(log, CLOSES_ON_DAY_ZERO, [0]) == Ok(honest) && honest.dates == [0] && |honest.cash| == 1
            && ReconcileVerdict(honest, log, Live(a)).None?
            && R.Reconstructed(faulty, CLOSES_ON_DAY_ZERO, [0]) == Ok(r) && r.dates == [0] && |r.cash| == 1
            && (ReconcileVerdict(r, faulty, Live(a)).None? <==> price == 1.0)
  {
    hide ReconcileVerdict, Live, RunFrom, WireLog, Drift, R.Reconstructed, Unseen, Stored;
    var earlier, a := RunOrders(Numeric4, FIVE_TICKS), RunOrders(Numeric4, ThenOneMore(price));
    BuysOneMore(price);
    SecondIsDropped(price);
    honest := OneDayIsRebuilt(WireLog(a.trades));
    r := OneDayIsRebuilt(WireLog(earlier.trades));
    GuardAcceptsIff(Numeric4, R.STARTING_BALANCE, ThenOneMore(price), WireLog(a.trades), CLOSES_ON_DAY_ZERO, [0], honest);
    FaultyLogAcceptedIff(Numeric4, ThenOneMore(price), Dropped, 1, WireLog(earlier.trades), CLOSES_ON_DAY_ZERO, [0], r);
    UnseenAtADollar(price);
  }

  lemma UnseenAtADollar(price: Price)
    requires CheapOrDear(price)
    ensures Unseen(RunOrders(Numeric4, ThenOneMore(price)), Dropped, Wire(TradeOf(Numeric4, BuyS(1, price), None)))
            <==> price == 1.0
  {
    BuysOneMore(price);
    ExactlyStored(price);
    hide Stored, RunFrom, Drift;
    assert R.Flow(Wire(TradeOf(Numeric4, BuyS(1, price), None))) == -(price * 0.0001);
  }
}
