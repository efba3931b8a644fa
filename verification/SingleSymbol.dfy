/** One symbol: the shared pool is the plain all-in engine, and a crossover strategy trades every signal it gives. */
module SingleSymbol {
  import opened Wrappers
  import opened Market
  import opened Indicators
  import opened Strategies
  import opened Simulator
  import opened NoLookahead

  // ---- the simpler engine: flat or all in

  datatype AllIn = AllIn(cash: real, quantity: real, avgCost: real, trades: seq<TradeRecord>)

  function Obey(slot: Slot, p: AllIn): AllIn
    requires Buyable(slot)
  {
    match slot.signal
    case SignalBuy =>
      if p.quantity != 0.0 || p.cash <= 0.0 then p
      else AllIn(0.0, p.cash / slot.open, slot.open, p.trades + [PurchaseOf(slot, p.cash / slot.open)])
    case SignalSell =>
      if p.quantity == 0.0 then p
      else AllIn(p.cash + Proceeds(slot, p.quantity), 0.0, 0.0, p.trades + [SaleOf(slot, p.quantity, p.avgCost)])
    case SignalNone => p
  }

  function SlotAt(symbol: Symbol, bars: seq<Bar>, signals: seq<Signal>, i: nat): Slot
    requires 0 < i < |bars| && |signals| == |bars|
  {
    Slot(symbol, signals[i - 1], bars[i].timestamp, bars[i].open)
  }

  function AllInAt(symbol: Symbol, bars: seq<Bar>, signals: seq<Signal>, capital: real, i: nat): AllIn
    requires i < |bars| && |signals| == |bars| && Tradable(OnlySymbol(symbol, bars, signals))
  {
    if i == 0 then AllIn(capital, 0.0, 0.0, [])
    else
      assert SlotAt(symbol, bars, signals, i) == OnlySymbol(symbol, bars, signals).OpenOf(i)[0];
      Obey(SlotAt(symbol, bars, signals, i), AllInAt(symbol, bars, signals, capital, i - 1))
  }

  function OnlySymbol(symbol: Symbol, bars: seq<Bar>, signals: seq<Signal>): Scenario {
    Scenario([symbol], [bars], [signals])
  }

  function AsPool(p: AllIn): Pool {
    Pool(p.cash, [p.quantity], [p.avgCost], p.trades)
  }

  /** Flat, the whole pool is the target; holding, nothing is bought. */
  lemma ObeyIsAtOpen(slot: Slot, p: AllIn)
    requires Buyable(slot)
    ensures AtOpen([slot], AsPool(p)) == AsPool(Obey(slot, p))
  {
    hide Proceeds, SaleOf, PurchaseOf, Worth;
    var slots := [slot];
    var pool := AsPool(p);
    var sold := Sells(slots, 1, pool);
    assert Sells(slots, 0, pool) == pool;
    assert sold == SellOne(slots, 0, pool);
    var target := Target(slots, sold);
    assert Buys(slots, 0, target, sold) == sold;
    assert AtOpen(slots, pool) == BuyOne(slots, 0, target, sold);
    if slot.signal == SignalBuy && p.quantity == 0.0 {
      FlatTarget(slot, pool);
    }
  }

  lemma FlatTarget(slot: Slot, pool: Pool)
    requires pool.quantity == [0.0] && |pool.avgCost| == 1
    ensures Target([slot], pool) == pool.cash
  {
    assert Worth(pool.quantity, Opens([slot]), 0) == 0.0;
    assert Worth(pool.quantity, Opens([slot]), 1) == 0.0;
  }

  lemma {:induction false} OneSymbolIsAllIn(symbol: Symbol, bars: seq<Bar>, signals: seq<Signal>, capital: real, i: nat)
    requires i < |bars| && |signals| == |bars| && Tradable(OnlySymbol(symbol, bars, signals))
    ensures PoolAt(OnlySymbol(symbol, bars, signals), capital, i) == AsPool(AllInAt(symbol, bars, signals, capital, i))
  {
    var sc := OnlySymbol(symbol, bars, signals);
    if i == 0 {
      assert ZeroReals(1) == [0.0];
    } else {
      hide AtOpen, Obey;
      OneSymbolIsAllIn(symbol, bars, signals, capital, i - 1);
      assert sc.OpenOf(i) == [SlotAt(symbol, bars, signals, i)];
      assert AllBuyable(sc.OpenOf(i)) && Buyable(sc.OpenOf(i)[0]);
      ObeyIsAtOpen(SlotAt(symbol, bars, signals, i), AllInAt(symbol, bars, signals, capital, i - 1));
    }
  }

  /** Refinement. At one symbol the shared-pool simulation is the all-in engine: the same trades, and equity that
      is cash plus the one position at the close. */
  lemma SingleSymbolRefines(symbol: Symbol, bars: seq<Bar>, signals: seq<Signal>, capital: real)
    requires |signals| == |bars| && Tradable(OnlySymbol(symbol, bars, signals))
    ensures var r := Simulated(OnlySymbol(symbol, bars, signals), capital);
            && |r.equityCurve| == |bars|
            && r.trades == (if bars == [] then [] else AllInAt(symbol, bars, signals, capital, |bars| - 1).trades)
            && forall i :: 0 <= i < |bars| ==>
                 var p := AllInAt(symbol, bars, signals, capital, i);
                 r.equityCurve[i] == p.cash + p.quantity * bars[i].close
  {
    hide PoolAt, AllInAt;
    var sc := OnlySymbol(symbol, bars, signals);
    forall i | 0 <= i < |bars|
      ensures PoolAt(sc, capital, i) == AsPool(AllInAt(symbol, bars, signals, capital, i))
      ensures var p := AllInAt(symbol, bars, signals, capital, i);
              EquityAt(sc, capital, i) == p.cash + p.quantity * bars[i].close
    {
      OneSymbolIsAllIn(symbol, bars, signals, capital, i);
      var p := AllInAt(symbol, bars, signals, capital, i);
      assert Worth([p.quantity], sc.ClosesAt(i), 0) == 0.0;
      assert Worth([p.quantity], sc.ClosesAt(i), 1) == p.quantity * bars[i].close;
    }
  }

  // ---- crossover signals alternate

  /** The newest signal given, if any was. */
  function LastFired(signals: seq<Signal>): Signal {
    if signals == [] then SignalNone
    else if signals[|signals| - 1] != SignalNone then signals[|signals| - 1]
    else LastFired(signals[..|signals| - 1])
  }

  ghost predicate Alternating(signals: seq<Signal>) {
    forall j :: 0 <= j < |signals| && signals[j] != SignalNone ==> signals[j] != LastFired(signals[..j])
  }

  lemma LastFiredStep(signals: seq<Signal>, i: nat)
    requires i < |signals|
    ensures LastFired(signals[..i + 1]) == if signals[i] != SignalNone then signals[i] else LastFired(signals[..i])
  {
    assert signals[..i + 1][..i] == signals[..i];
  }

  /** The last signal given says which series is on top. */
  lemma {:induction false} LastFiredTellsSide(st: Strategy, bars: seq<Bar>, i: nat)
    requires ValidParams(st) && !st.RsiThreshold? && i <= |bars|
    ensures var last := LastFired(Signals(st, bars)[..i]);
            if i < WarmupBars(st) then last == SignalNone
            else var above := Above(st, ClosesOf(bars)[..i]);
                 (last == SignalBuy ==> above) && (last == SignalSell ==> !above)
  {
    if i > 0 {
      hide Above, Decide;
      LastFiredTellsSide(st, bars, i - 1);
      LastFiredStep(Signals(st, bars), i - 1);
      if i <= WarmupBars(st) {
        WarmupIsSilent(st, bars, i - 1);
      } else {
        DecideAt(st, bars, i - 1);
      }
    }
  }

  /** A crossover strategy's signals strictly alternate, whatever the prices. */
  lemma CrossoverAlternates(st: Strategy, bars: seq<Bar>)
    requires ValidParams(st) && !st.RsiThreshold?
    ensures Alternating(Signals(st, bars))
  {
    hide Above, Decide, LastFired;
    var signals := Signals(st, bars);
    forall j | 0 <= j < |signals| && signals[j] != SignalNone ensures signals[j] != LastFired(signals[..j]) {
      LastFiredTellsSide(st, bars, j);
      if j < WarmupBars(st) {
        WarmupIsSilent(st, bars, j);
      } else {
        DecideAt(st, bars, j);
      }
    }
  }

  // ---- and each becomes one trade

  /** What identifies a trade: which way, when and at what price. */
  datatype Fill = Fill(side: Side, timestamp: Time, price: real)

  function FillsOf(trades: seq<TradeRecord>): (fills: seq<Fill>)
    ensures |fills| == |trades|
  {
    seq(|trades|, i requires 0 <= i < |trades| => Fill(trades[i].side, trades[i].barTimestamp, trades[i].price))
  }

  /** One fill at the next open for every signal before bar i, but for a sell that no buy came before. */
  function NextOpenFills(bars: seq<Bar>, signals: seq<Signal>, i: nat): seq<Fill>
    requires i < |bars| && |signals| == |bars|
  {
    if i == 0 then []
    else
      NextOpenFills(bars, signals, i - 1)
      + match signals[i - 1]
        case SignalNone => []
        case SignalBuy => [Fill(Buy, bars[i].timestamp, bars[i].open)]
        case SignalSell =>
          if LastFired(signals[..i - 1]) == SignalNone then [] else [Fill(Sell, bars[i].timestamp, bars[i].open)]
  }

  ghost predicate PositiveBars(bars: seq<Bar>) {
    forall i :: 0 <= i < |bars| ==> bars[i].open > 0.0
  }

  /** Holding exactly when the last signal was a buy; flat with cash otherwise. */
  ghost predicate Follows(p: AllIn, last: Signal) {
    if last == SignalBuy then p.quantity > 0.0 && p.cash >= 0.0 else p.quantity == 0.0 && p.cash > 0.0
  }

  lemma ObeyFollows(slot: Slot, p: AllIn, last: Signal)
    requires slot.open > 0.0 && Follows(p, last)
    requires slot.signal != SignalNone ==> slot.signal != last
    ensures Follows(Obey(slot, p), if slot.signal != SignalNone then slot.signal else last)
    ensures FillsOf(Obey(slot, p).trades)
            == FillsOf(p.trades) + match slot.signal
                                   case SignalNone => []
                                   case SignalBuy => [Fill(Buy, slot.timestamp, slot.open)]
                                   case SignalSell => if last == SignalNone then [] else [Fill(Sell, slot.timestamp, slot.open)]
  {
    if slot.signal == SignalSell && last == SignalBuy {
      assert p.quantity * slot.open > 0.0;
    }
  }

  lemma {:induction false} AlternatingTradesAll(symbol: Symbol, bars: seq<Bar>, signals: seq<Signal>, capital: real, i: nat)
    requires i < |bars| && |signals| == |bars| && PositiveBars(bars) && capital > 0.0 && Alternating(signals)
    ensures Tradable(OnlySymbol(symbol, bars, signals))
    ensures Follows(AllInAt(symbol, bars, signals, capital, i), LastFired(signals[..i]))
    ensures FillsOf(AllInAt(symbol, bars, signals, capital, i).trades) == NextOpenFills(bars, signals, i)
  {
    if i > 0 {
      hide Obey, FillsOf, LastFired, Follows;
      AlternatingTradesAll(symbol, bars, signals, capital, i - 1);
      LastFiredStep(signals, i - 1);
      ObeyFollows(SlotAt(symbol, bars, signals, i), AllInAt(symbol, bars, signals, capital, i - 1),
                  LastFired(signals[..i - 1]));
    }
  }

  /** Under a crossover strategy a single-symbol run makes exactly one trade per signal, at the next open; only a
      leading sell and a signal on the last bar make none. */
  lemma EverySignalTradesOnce(st: Strategy, symbol: Symbol, bars: seq<Bar>, capital: real)
    requires ValidParams(st) && !st.RsiThreshold? && bars != [] && PositiveBars(bars) && capital > 0.0
    ensures Tradable(Backtest(st, [symbol], [bars]))
    ensures FillsOf(Simulated(Backtest(st, [symbol], [bars]), capital).trades)
            == NextOpenFills(bars, Signals(st, bars), |bars| - 1)
  {
    hide Signals, AllInAt, FillsOf, NextOpenFills, Simulated, PoolAt;
    assert Backtest(st, [symbol], [bars]) == OnlySymbol(symbol, bars, Signals(st, bars));
    CrossoverAlternates(st, bars);
    AlternatingTradesAll(symbol, bars, Signals(st, bars), capital, |bars| - 1);
    SingleSymbolRefines(symbol, bars, Signals(st, bars), capital);
  }
}
