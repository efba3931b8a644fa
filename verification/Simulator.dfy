/** Simulating signals against one shared pool of capital. */
module Simulator {
  import opened Wrappers
  import opened Market
  import opened Strategies

  datatype TradeRecord = TradeRecord(symbol: Symbol, side: Side, barTimestamp: Time, price: real, quantity: real,
                                     realizedPL: Option<real>)

  datatype SimulationResult = SimulationResult(trades: seq<TradeRecord>, equityCurve: seq<real>, finalEquity: real)

  /** What one bar's open shows of one symbol: yesterday's signal and today's open. Not today's close. */
  datatype Slot = Slot(symbol: Symbol, signal: Signal, timestamp: Time, open: real)

  /** The pool between two steps; quantity and avgCost run parallel to the symbols. */
  datatype Pool = Pool(cash: real, quantity: seq<real>, avgCost: seq<real>, trades: seq<TradeRecord>)

  datatype Scenario = Scenario(symbols: seq<Symbol>, bars: seq<seq<Bar>>, signals: seq<seq<Signal>>) {
    /** What the alignment hands over: one equally long series of bars and of signals per symbol. */
    ghost predicate Aligned() {
      && |bars| == |symbols| && |signals| == |symbols|
      && forall s :: 0 <= s < |symbols| ==> |bars[s]| == BarCount() && |signals[s]| == BarCount()
    }

    function BarCount(): nat {
      if symbols == [] || bars == [] then 0 else |bars[0]|
    }

    function OpenOf(i: nat): (slots: seq<Slot>)
      requires Aligned() && 0 < i < BarCount()
      ensures |slots| == |symbols|
    {
      seq(|symbols|, s requires 0 <= s < |symbols| =>
        Slot(symbols[s], signals[s][i - 1], bars[s][i].timestamp, bars[s][i].open))
    }

    function ClosesAt(i: nat): (closes: seq<real>)
      requires Aligned() && i < BarCount()
      ensures |closes| == |symbols|
    {
      seq(|symbols|, s requires 0 <= s < |symbols| => bars[s][i].close)
    }
  }

  ghost predicate Fits(p: Pool, n: nat) {
    |p.quantity| == n && |p.avgCost| == n
  }

  function Opens(slots: seq<Slot>): (opens: seq<real>)
    ensures |opens| == |slots|
  {
    seq(|slots|, s requires 0 <= s < |slots| => slots[s].open)
  }

  /** What the first n positions come to at the given prices. */
  function Worth(quantity: seq<real>, prices: seq<real>, n: nat): real
    requires n <= |quantity| && n <= |prices|
  {
    if n == 0 then 0.0 else Worth(quantity, prices, n - 1) + quantity[n - 1] * prices[n - 1]
  }

  function EquityOf(p: Pool, prices: seq<real>): real
    requires |p.quantity| == |prices|
  {
    p.cash + Worth(p.quantity, prices, |prices|)
  }

  // ---- one bar as values

  function Proceeds(slot: Slot, quantity: real): real {
    quantity * slot.open
  }

  /** A sale's P/L is read off the basis at the instant of the sale. */
  function SaleOf(slot: Slot, quantity: real, avgCost: real): TradeRecord {
    TradeRecord(slot.symbol, Sell, slot.timestamp, slot.open, quantity, Some((slot.open - avgCost) * quantity))
  }

  function PurchaseOf(slot: Slot, quantity: real): TradeRecord {
    TradeRecord(slot.symbol, Buy, slot.timestamp, slot.open, quantity, None)
  }

  function SellOne(slots: seq<Slot>, s: nat, p: Pool): (r: Pool)
    requires s < |slots| && Fits(p, |slots|)
    ensures Fits(r, |slots|)
  {
    if slots[s].signal != SignalSell || p.quantity[s] == 0.0 then p
    else
      Pool(p.cash + Proceeds(slots[s], p.quantity[s]), p.quantity[s := 0.0], p.avgCost[s := 0.0],
           p.trades + [SaleOf(slots[s], p.quantity[s], p.avgCost[s])])
  }

  function Sells(slots: seq<Slot>, n: nat, p: Pool): (r: Pool)
    requires n <= |slots| && Fits(p, |slots|)
    ensures Fits(r, |slots|)
  {
    if n == 0 then p else SellOne(slots, n - 1, Sells(slots, n - 1, p))
  }

  function Target(slots: seq<Slot>, sold: Pool): real
    requires slots != [] && Fits(sold, |slots|)
  {
    EquityOf(sold, Opens(slots)) / |slots| as real
  }

  function Spend(cash: real, target: real): real {
    if cash < target then cash else target
  }

  /** A symbol due to be bought opens at a price to divide by. */
  predicate Buyable(slot: Slot) {
    slot.signal == SignalBuy ==> slot.open != 0.0
  }

  function BuyOne(slots: seq<Slot>, s: nat, target: real, p: Pool): (r: Pool)
    requires s < |slots| && Fits(p, |slots|) && Buyable(slots[s])
    ensures Fits(r, |slots|)
  {
    var spend := Spend(p.cash, target);
    if slots[s].signal != SignalBuy || p.quantity[s] != 0.0 || spend <= 0.0 then p
    else
      var bought := spend / slots[s].open;
      Pool(p.cash - spend, p.quantity[s := bought], p.avgCost[s := slots[s].open],
           p.trades + [PurchaseOf(slots[s], bought)])
  }

  ghost predicate AllBuyable(slots: seq<Slot>) {
    forall s :: 0 <= s < |slots| ==> Buyable(slots[s])
  }

  function Buys(slots: seq<Slot>, n: nat, target: real, p: Pool): (r: Pool)
    requires n <= |slots| && Fits(p, |slots|)
    requires AllBuyable(slots)
    ensures Fits(r, |slots|)
  {
    if n == 0 then p else BuyOne(slots, n - 1, target, Buys(slots, n - 1, target, p))
  }

  /** Everything that trades at one bar's open: all sells, then one target, then buys in symbol order. */
  function AtOpen(slots: seq<Slot>, p: Pool): (r: Pool)
    requires slots != [] && Fits(p, |slots|)
    requires AllBuyable(slots)
    ensures Fits(r, |slots|)
  {
    var sold := Sells(slots, |slots|, p);
    Buys(slots, |slots|, Target(slots, sold), sold)
  }

  // ---- the whole run as values

  function ZeroReals(n: nat): (z: seq<real>)
    ensures |z| == n
  {
    seq(n, _ => 0.0)
  }

  ghost predicate Tradable(sc: Scenario) {
    sc.Aligned() && forall i :: 0 < i < sc.BarCount() ==> AllBuyable(sc.OpenOf(i))
  }

  /** The pool after bar i's open has traded. Nothing trades at the first bar. */
  function PoolAt(sc: Scenario, capital: real, i: nat): (p: Pool)
    requires Tradable(sc) && i < sc.BarCount()
    ensures Fits(p, |sc.symbols|)
  {
    if i == 0 then Pool(capital, ZeroReals(|sc.symbols|), ZeroReals(|sc.symbols|), [])
    else AtOpen(sc.OpenOf(i), PoolAt(sc, capital, i - 1))
  }

  function EquityAt(sc: Scenario, capital: real, i: nat): real
    requires Tradable(sc) && i < sc.BarCount()
  {
    EquityOf(PoolAt(sc, capital, i), sc.ClosesAt(i))
  }

  function Simulated(sc: Scenario, capital: real): (r: SimulationResult)
    requires Tradable(sc)
    ensures |r.equityCurve| == sc.BarCount()
  {
    var n := sc.BarCount();
    SimulationResult(if n == 0 then [] else PoolAt(sc, capital, n - 1).trades,
                     seq(n, i requires 0 <= i < n => EquityAt(sc, capital, i)),
                     if n == 0 then capital else EquityAt(sc, capital, n - 1))
  }

  // ---- the loops

  function PoolOf(cash: real, quantity: array<real>, avgCost: array<real>, trades: seq<TradeRecord>): (p: Pool)
    reads quantity, avgCost
  {
    Pool(cash, quantity[..], avgCost[..], trades)
  }

  method SettleSells(slots: seq<Slot>, quantity: array<real>, avgCost: array<real>, cash0: real, trades0: seq<TradeRecord>)
    returns (cash: real, trades: seq<TradeRecord>)
    requires quantity != avgCost && quantity.Length == avgCost.Length == |slots|
    modifies quantity, avgCost
    ensures PoolOf(cash, quantity, avgCost, trades)
            == Sells(slots, |slots|, old(PoolOf(cash0, quantity, avgCost, trades0)))
  {
    hide Proceeds, SaleOf;
    cash, trades := cash0, trades0;
    for s := 0 to |slots|
      invariant PoolOf(cash, quantity, avgCost, trades) == Sells(slots, s, old(PoolOf(cash0, quantity, avgCost, trades0)))
    {
      if slots[s].signal != SignalSell || quantity[s] == 0.0 {
        continue;
      }
      cash := cash + Proceeds(slots[s], quantity[s]);
      trades := trades + [SaleOf(slots[s], quantity[s], avgCost[s])];
      quantity[s], avgCost[s] := 0.0, 0.0;
    }
  }

  method FillBuys(slots: seq<Slot>, target: real, quantity: array<real>, avgCost: array<real>, cash0: real,
                  trades0: seq<TradeRecord>)
    returns (cash: real, trades: seq<TradeRecord>)
    requires quantity != avgCost && quantity.Length == avgCost.Length == |slots|
    requires AllBuyable(slots)
    modifies quantity, avgCost
    ensures PoolOf(cash, quantity, avgCost, trades)
            == Buys(slots, |slots|, target, old(PoolOf(cash0, quantity, avgCost, trades0)))
  {
    hide PurchaseOf;
    cash, trades := cash0, trades0;
    for s := 0 to |slots|
      invariant PoolOf(cash, quantity, avgCost, trades)
                == Buys(slots, s, target, old(PoolOf(cash0, quantity, avgCost, trades0)))
    {
      if slots[s].signal != SignalBuy || quantity[s] != 0.0 {
        continue;
      }
      var spend := Spend(cash, target);
      if spend <= 0.0 {
        continue;
      }
      quantity[s] := spend / slots[s].open;
      avgCost[s] := slots[s].open;
      cash := cash - spend;
      trades := trades + [PurchaseOf(slots[s], quantity[s])];
    }
  }

  method Mark(cash: real, quantity: array<real>, prices: seq<real>) returns (total: real)
    requires quantity.Length == |prices|
    ensures total == cash + Worth(quantity[..], prices, |prices|)
  {
    total := cash;
    for s := 0 to |prices|
      invariant total == cash + Worth(quantity[..], prices, s)
    {
      total := total + quantity[s] * prices[s];
    }
  }

  method TradeOpen(slots: seq<Slot>, quantity: array<real>, avgCost: array<real>, cash0: real, trades0: seq<TradeRecord>)
    returns (cash: real, trades: seq<TradeRecord>)
    requires quantity != avgCost && quantity.Length == avgCost.Length == |slots| && slots != []
    requires AllBuyable(slots)
    modifies quantity, avgCost
    ensures PoolOf(cash, quantity, avgCost, trades) == AtOpen(slots, old(PoolOf(cash0, quantity, avgCost, trades0)))
  {
    hide Sells, Buys, Worth;
    cash, trades := SettleSells(slots, quantity, avgCost, cash0, trades0);
    var equityAtOpen := Mark(cash, quantity, Opens(slots));
    var target := equityAtOpen / |slots| as real;
    cash, trades := FillBuys(slots, target, quantity, avgCost, cash, trades);
  }

  /** The simulation. Opens are positive prices; the four steps run bar by bar over arrays updated in place. */
  method SimulatePortfolio(sc: Scenario, startingCapital: real) returns (r: SimulationResult)
    requires Tradable(sc)
    ensures r == Simulated(sc, startingCapital)
    ensures var curve := r.equityCurve;
            r.finalEquity == if curve == [] then startingCapital else curve[|curve| - 1]
  {
    hide AtOpen, Worth;
    var n, barCount := |sc.symbols|, sc.BarCount();
    var cash, trades := startingCapital, [];
    var quantity, avgCost := new real[n](_ => 0.0), new real[n](_ => 0.0);
    var equity := new real[barCount](_ => 0.0);
    assert quantity[..] == avgCost[..] == ZeroReals(n);
    for i := 0 to barCount
      invariant PoolOf(cash, quantity, avgCost, trades)
                == if i == 0 then Pool(startingCapital, ZeroReals(n), ZeroReals(n), []) else PoolAt(sc, startingCapital, i - 1)
      invariant forall k :: 0 <= k < i ==> equity[k] == EquityAt(sc, startingCapital, k)
    {
      if i > 0 {
        cash, trades := TradeOpen(sc.OpenOf(i), quantity, avgCost, cash, trades);
      }
      var total := Mark(cash, quantity, sc.ClosesAt(i));
      equity[i] := total;
    }
    var final := startingCapital;
    if barCount > 0 {
      final := equity[barCount - 1];
    }
    r := SimulationResult(trades, equity[..], final);
    assert r.equityCurve == Simulated(sc, startingCapital).equityCurve;
  }
}
