/** From racing orders to a finished report: what a user of both services sees. */
module EndToEnd {
  import opened Numeric
  import opened Wrappers
  import opened Market
  import opened Ledger
  import opened Reconcile
  import opened Calendar
  import opened AccountReconciles
  import opened FaultyLogs
  import opened Insights
  import opened Statistics
  import R = Reconstruct
  import T = Transactions

  /** After any interleaving of concurrent orders, with transactions rolled back anywhere, an account with at most two
      hundred fills at four-decimal prices gets its full report, over the calendar of the bars fetched for its log in
      whatever order it was served, unless it never traded or holds exactly one tick of something. */
  lemma HonestAccountGetsItsReport(root: Root, db: map<AccountId, Account>, events: seq<T.Event>, account: AccountId,
                                   log: seq<R.Trade>, barsBySymbol: map<Symbol, seq<Bar>>, dates: seq<int>)
    requires account in db && db[account] == Opened()
    requires var s := T.Run(Numeric4, db, events);
             && account in s.db && |s.db[account].trades| <= 200
             && PricesStoredExactly(Numeric4, OrdersOf(s.commits, account))
             && multiset(log) == multiset(WireLog(s.db[account].trades))
    requires Wired(log, barsBySymbol) && IsCalendar(dates, barsBySymbol) && R.DatesAscend(dates)
    ensures var a, closes := T.Run(Numeric4, db, events).db[account], R.ClosesOf(barsBySymbol);
            var report := ReportOn(root, log, Live(a), closes, dates);
            && report.Ok?
            && (log == [] ==> report.value == InsufficientData(NoTradesYet))
            && (log != [] ==> && R.Reconstructed(log, closes, dates).Ok?
                              && (report.value.FullReport? <==>
                                    R.Reconstructed(log, closes, dates).value.dates == [] || NoOneTickPosition(a)))
  {
    hide ReconcileVerdict, Live, WireLog, R.Reconstructed, R.ClosesOf, NoOneTickPosition, PricesStoredExactly, T.Run;
    hide Wired, EverySymbolHas, FullReportOn;
    if log != [] {
      var a, closes := T.Run(Numeric4, db, events).db[account], R.ClosesOf(barsBySymbol);
      NoMissingClose(root, log, Live(a), barsBySymbol, dates);
      var r := R.Reconstructed(log, closes, dates).value;
      ConcurrentAccountAccepted(db, events, account, log, closes, dates, r);
    }
  }

  /** What a symbol's holding when the log was read is to its holding when the account was: held on both sides, the
      second above one tick and within a tick of the first, or seen on neither. */
  predicate Unmoved(earlier: int, now: int) {
    (earlier != 0 <==> now > 1) && (earlier != 0 ==> -1 <= now - earlier <= 1)
  }

  ghost predicate AllUnmoved(earlier: Account, now: Account) {
    forall s :: Unmoved(Held(earlier, s).quantity, Held(now, s).quantity)
  }

  /** A build that read the log, and the account only some orders later, gives a full report all the same exactly when
      those orders moved no holding out of the guard's sight and left the balance within a cent of the log's cash;
      otherwise it withholds the report of an honest account. */
  lemma TornReadIff(root: Root, column: Column, orders: seq<OrderParams>, k: nat, log: seq<R.Trade>,
                    barsBySymbol: map<Symbol, seq<Bar>>, dates: seq<int>)
    requires k <= |orders| && log != []
    requires multiset(log) == multiset(WireLog(RunOrders(column, orders[..k]).trades))
    requires Wired(log, barsBySymbol) && IsCalendar(dates, barsBySymbol) && R.DatesAscend(dates)
    ensures var earlier, now, closes := RunOrders(column, orders[..k]), RunOrders(column, orders), R.ClosesOf(barsBySymbol);
            && R.Reconstructed(log, closes, dates).Ok? && ReportOn(root, log, Live(now), closes, dates).Ok?
            && (ReportOn(root, log, Live(now), closes, dates).value.FullReport? <==>
                  || R.Reconstructed(log, closes, dates).value.dates == []
                  || (&& Abs(earlier.balance - Drift(earlier) - now.balance) <= CASH_TOLERANCE
                      && AllUnmoved(earlier, now)))
  {
    hide ReconcileVerdict, ListHoldings, Narrow, R.Reconstructed, R.ClosesOf, WireLog, Wired, EverySymbolHas, RunFrom, R.EndsAsLog;
    hide ReportsLog, FullReportOn, R.Cash, AllUnmoved, AllPass;
    var earlier, now, closes := RunOrders(column, orders[..k]), RunOrders(column, orders), R.ClosesOf(barsBySymbol);
    NoMissingClose(root, log, Live(now), barsBySymbol, dates);
    var r := R.Reconstructed(log, closes, dates).value;
    if r.dates != [] {
      R.ReconstructedEndsAsLog(log, closes, dates, r);
      AccountReportsItsLog(column, R.STARTING_BALANCE, orders);
      AnyLogAcceptedIff(WireLog(now.trades), log, r, Live(now));
      R.SumsIgnoreOrder(log, WireLog(earlier.trades));
      UnmovedIff(column, orders, k, log);
    } else {
      NoHistoryIsAccepted(log, r, Live(now));
    }
  }

  lemma UnmovedIff(column: Column, orders: seq<OrderParams>, k: nat, log: seq<R.Trade>)
    requires k <= |orders| && multiset(log) == multiset(WireLog(RunOrders(column, orders[..k]).trades))
    ensures var earlier, now := RunOrders(column, orders[..k]), RunOrders(column, orders);
            AllPass(log, WireLog(now.trades)) <==> AllUnmoved(earlier, now)
  {
    hide WireLog, RunFrom, R.Net;
    var earlier, now := RunOrders(column, orders[..k]), RunOrders(column, orders);
    R.SumsIgnoreOrder(log, WireLog(earlier.trades));
    forall s ensures PassesFor(log, WireLog(now.trades), s)
                     <==> Unmoved(Held(earlier, s).quantity, Held(now, s).quantity)
    {
      assert R.Net(log, s) == R.Net(WireLog(earlier.trades), s);
      HoldingIsNet(column, orders[..k], s);
      HoldingIsNet(column, orders, s);
    }
    hide PassesFor, Unmoved;
  }

  lemma HoldingIsNet(column: Column, orders: seq<OrderParams>, symbol: Symbol)
    ensures var a := RunOrders(column, orders);
            Held(a, symbol).quantity == R.Net(WireLog(a.trades), symbol) >= 0
  {
    hide WireLog, RunFrom;
    PositionsStayNet(column, R.STARTING_BALANCE, orders);
    RunNonnegative(column, R.STARTING_BALANCE, orders);
  }

  // ---- both kinds of torn read

  const ONE_BAR: seq<Bar> := [Bar(0, 1.0, 1.0)]
  const ONE_DAY: map<Symbol, seq<Bar>> := map["S" := ONE_BAR, "SPY" := ONE_BAR, "QQQ" := ONE_BAR]

  lemma OneDayCalendar(log: seq<R.Trade>)
    requires log != [] && OnDayZero(log)
    ensures Wired(log, ONE_DAY) && IsCalendar([0], ONE_DAY)
  {
    assert log[0] in log;
    assert R.Traded(log) == {"S"};
    assert ONE_DAY.Keys == SymbolsOf(log);
    assert ONE_BAR[..0] == [] && [0][..0] == [];
    forall d ensures Lists([0], d) <==> EverySymbolHas(ONE_DAY, d) {
      assert HasDay(ONE_BAR, d) <==> d == 0;
      assert "S" in ONE_DAY;
    }
  }

  lemma OneDayIsCovered(log: seq<R.Trade>)
    requires log != [] && OnDayZero(log) && R.Reconstructed(log, R.ClosesOf(ONE_DAY), [0]).Ok?
    ensures R.Reconstructed(log, R.ClosesOf(ONE_DAY), [0]).value.dates == [0]
  {
    hide R.ClosesOf;
    var first := R.FirstDay(log);
    var t :| t in log && Day(t.executedAt) == first;
    R.CoversWindow(log, R.ClosesOf(ONE_DAY), [0], R.Reconstructed(log, R.ClosesOf(ONE_DAY), [0]).value);
    assert [0][..0] == [];
    assert R.Window([0], 0) == [0];
  }

  /** Both happen. The log was read with five ticks held, and one more was bought before the account was: at a dollar the
      report is full, and its account has a fill its log lacks; at three hundred it is withheld. */
  lemma TornReadServedAndWithheld(root: Root, price: Price)
    requires CheapOrDear(price)
    ensures var earlier, now := RunOrders(Numeric4, FIVE_TICKS), RunOrders(Numeric4, ThenOneMore(price));
            var report := ReportOn(root, WireLog(earlier.trades), Live(now), R.ClosesOf(ONE_DAY), [0]);
            && |now.trades| == |earlier.trades| + 1 && report.Ok?
            && (report.value.FullReport? <==> price == 1.0)
  {
    hide ReconcileVerdict, Live, RunFrom, WireLog, Drift, R.Reconstructed, R.ClosesOf, Wired, EverySymbolHas, Stored;
    hide FullReportOn, SymbolsOf;
    var orders := ThenOneMore(price);
    var earlier, now := RunOrders(Numeric4, FIVE_TICKS), RunOrders(Numeric4, orders);
    assert orders[..1] == FIVE_TICKS;
    BuysFiveTicks();
    BuysOneMore(price);
    SecondIsDropped(price);
    var log := WireLog(earlier.trades);
    OneDayCalendar(log);
    TornReadIff(root, Numeric4, orders, 1, log, ONE_DAY, [0]);
    OneDayIsCovered(log);
    assert AllUnmoved(earlier, now);
  }
}
