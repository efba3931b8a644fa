/** What the simulated pool conserves: nothing is created, lost or borrowed, whatever the signals say. */
module Conservation {
  import opened Wrappers
  import opened Market
  import opened Strategies
  import opened Simulator

  ghost predicate PositiveOpens(slots: seq<Slot>) {
    forall s :: 0 <= s < |slots| ==> slots[s].open > 0.0
  }

  ghost predicate PositivePrices(sc: Scenario) {
    sc.Aligned() && forall s, i :: 0 <= s < |sc.symbols| && 0 <= i < sc.BarCount() ==>
      sc.bars[s][i].open > 0.0 && sc.bars[s][i].close > 0.0
  }

  lemma {:induction false} WorthUpdate(quantity: seq<real>, prices: seq<real>, n: nat, s: nat, x: real)
    requires s < n <= |quantity| && n <= |prices|
    ensures Worth(quantity[s := x], prices, n) == Worth(quantity, prices, n) - quantity[s] * prices[s] + x * prices[s]
  {
    if n - 1 == s {
      WorthFrame(quantity, quantity[s := x], prices, prices, n - 1);
    } else {
      WorthUpdate(quantity, prices, n - 1, s, x);
    }
  }

  lemma {:induction false} WorthFrame(q: seq<real>, r: seq<real>, a: seq<real>, b: seq<real>, n: nat)
    requires n <= |q| && n <= |r| && n <= |a| && n <= |b|
    requires forall k :: 0 <= k < n ==> q[k] == r[k] && a[k] == b[k]
    ensures Worth(q, a, n) == Worth(r, b, n)
  {
    if n > 0 {
      WorthFrame(q, r, a, b, n - 1);
    }
  }

  lemma {:induction false} WorthBothUpdate(q: seq<real>, a: seq<real>, n: nat, s: nat, x: real, y: real)
    requires s < n <= |q| && n <= |a|
    ensures Worth(q[s := x], a[s := y], n) == Worth(q, a, n) - q[s] * a[s] + x * y
  {
    if n - 1 == s {
      WorthFrame(q, q[s := x], a, a[s := y], n - 1);
    } else {
      WorthBothUpdate(q, a, n - 1, s, x, y);
    }
  }

  // ---- at the open, a fill changes what is held and not what it is worth

  lemma SellKeepsEquity(slots: seq<Slot>, s: nat, p: Pool)
    requires s < |slots| && Fits(p, |slots|)
    ensures EquityOf(SellOne(slots, s, p), Opens(slots)) == EquityOf(p, Opens(slots))
  {
    WorthUpdate(p.quantity, Opens(slots), |slots|, s, 0.0);
  }

  lemma BuyKeepsEquity(slots: seq<Slot>, s: nat, target: real, p: Pool)
    requires s < |slots| && Fits(p, |slots|) && Buyable(slots[s])
    ensures EquityOf(BuyOne(slots, s, target, p), Opens(slots)) == EquityOf(p, Opens(slots))
  {
    if slots[s].signal == SignalBuy && p.quantity[s] == 0.0 {
      var bought := Spend(p.cash, target) / slots[s].open;
      WorthUpdate(p.quantity, Opens(slots), |slots|, s, bought);
      assert bought * slots[s].open == Spend(p.cash, target);
    }
  }

  lemma {:induction false} SellsKeepEquity(slots: seq<Slot>, n: nat, p: Pool)
    requires n <= |slots| && Fits(p, |slots|)
    ensures EquityOf(Sells(slots, n, p), Opens(slots)) == EquityOf(p, Opens(slots))
  {
    if n > 0 {
      hide SellOne, EquityOf;
      SellsKeepEquity(slots, n - 1, p);
      SellKeepsEquity(slots, n - 1, Sells(slots, n - 1, p));
    }
  }

  lemma {:induction false} BuysKeepEquity(slots: seq<Slot>, n: nat, target: real, p: Pool)
    requires n <= |slots| && Fits(p, |slots|) && AllBuyable(slots)
    ensures EquityOf(Buys(slots, n, target, p), Opens(slots)) == EquityOf(p, Opens(slots))
  {
    if n > 0 {
      hide BuyOne, EquityOf;
      BuysKeepEquity(slots, n - 1, target, p);
      BuyKeepsEquity(slots, n - 1, target, Buys(slots, n - 1, target, p));
    }
  }

  /** The bar's one target is the target recomputed before any sell, between any two sells, between any two buys, or
      after them all. */
  lemma TargetIsStable(slots: seq<Slot>, p: Pool, m: nat, n: nat)
    requires slots != [] && m <= |slots| && n <= |slots| && Fits(p, |slots|) && AllBuyable(slots)
    ensures var sold := Sells(slots, |slots|, p);
            var target := Target(slots, sold);
            Target(slots, Sells(slots, m, p)) == target && Target(slots, Buys(slots, n, target, sold)) == target
  {
    hide EquityOf;
    var sold := Sells(slots, |slots|, p);
    SellsKeepEquity(slots, m, p);
    SellsKeepEquity(slots, |slots|, p);
    BuysKeepEquity(slots, n, Target(slots, sold), sold);
  }

  // ---- nothing is borrowed

  ghost predicate Solvent(p: Pool) {
    p.cash >= 0.0 && forall s :: 0 <= s < |p.quantity| ==> p.quantity[s] >= 0.0
  }

  lemma SellKeepsSolvent(slots: seq<Slot>, s: nat, p: Pool)
    requires s < |slots| && Fits(p, |slots|) && Solvent(p) && slots[s].open > 0.0
    ensures Solvent(SellOne(slots, s, p))
  {
    assert p.quantity[s] * slots[s].open >= 0.0;
  }

  lemma BuyKeepsSolvent(slots: seq<Slot>, s: nat, target: real, p: Pool)
    requires s < |slots| && Fits(p, |slots|) && Solvent(p) && slots[s].open > 0.0
    ensures Solvent(BuyOne(slots, s, target, p))
  {}

  lemma {:induction false} OpenKeepsSolvent(slots: seq<Slot>, n: nat, target: real, p: Pool)
    requires n <= |slots| && Fits(p, |slots|) && Solvent(p) && PositiveOpens(slots)
    ensures Solvent(Sells(slots, n, p)) && Solvent(Buys(slots, n, target, p))
  {
    if n > 0 {
      hide SellOne, BuyOne, Solvent;
      OpenKeepsSolvent(slots, n - 1, target, p);
      SellKeepsSolvent(slots, n - 1, Sells(slots, n - 1, p));
      BuyKeepsSolvent(slots, n - 1, target, Buys(slots, n - 1, target, p));
    }
  }

  // ---- every gain is somewhere

  function RealizedGains(trades: seq<TradeRecord>): real {
    if trades == [] then 0.0
    else
      var last := trades[|trades| - 1];
      RealizedGains(trades[..|trades| - 1]) + if last.realizedPL.Some? then last.realizedPL.value else 0.0
  }

  lemma GainsStep(trades: seq<TradeRecord>, t: TradeRecord)
    ensures RealizedGains(trades + [t]) == RealizedGains(trades) + if t.realizedPL.Some? then t.realizedPL.value else 0.0
  {
    assert (trades + [t])[..|trades|] == trades;
  }

  /** Cash plus what the open positions cost, less what has been realized: the capital put in. */
  function PutIn(p: Pool): real
    requires Fits(p, |p.quantity|)
  {
    p.cash + Worth(p.quantity, p.avgCost, |p.quantity|) - RealizedGains(p.trades)
  }

  lemma SaleSplits(slot: Slot, quantity: real, avgCost: real)
    ensures SaleOf(slot, quantity, avgCost).realizedPL == Some(Proceeds(slot, quantity) - quantity * avgCost)
  {
    assert (slot.open - avgCost) * quantity == quantity * slot.open - quantity * avgCost;
  }

  lemma SellKeepsPutIn(slots: seq<Slot>, s: nat, p: Pool)
    requires s < |slots| && Fits(p, |slots|)
    ensures PutIn(SellOne(slots, s, p)) == PutIn(p)
  {
    hide SaleOf, Proceeds, RealizedGains, Worth;
    var sale := SaleOf(slots[s], p.quantity[s], p.avgCost[s]);
    WorthBothUpdate(p.quantity, p.avgCost, |slots|, s, 0.0, 0.0);
    SaleSplits(slots[s], p.quantity[s], p.avgCost[s]);
    GainsStep(p.trades, sale);
  }

  lemma BuyKeepsPutIn(slots: seq<Slot>, s: nat, target: real, p: Pool)
    requires s < |slots| && Fits(p, |slots|) && Buyable(slots[s])
    ensures PutIn(BuyOne(slots, s, target, p)) == PutIn(p)
  {
    if slots[s].signal == SignalBuy && p.quantity[s] == 0.0 {
      var spend := Spend(p.cash, target);
      var bought := spend / slots[s].open;
      WorthBothUpdate(p.quantity, p.avgCost, |slots|, s, bought, slots[s].open);
      GainsStep(p.trades, PurchaseOf(slots[s], bought));
      assert bought * slots[s].open == spend;
      assert p.quantity[s] * p.avgCost[s] == 0.0;
    }
  }

  lemma {:induction false} OpenKeepsPutIn(slots: seq<Slot>, n: nat, target: real, p: Pool)
    requires n <= |slots| && Fits(p, |slots|) && AllBuyable(slots)
    ensures PutIn(Sells(slots, n, p)) == PutIn(p) && PutIn(Buys(slots, n, target, p)) == PutIn(p)
  {
    if n > 0 {
      hide SellOne, BuyOne, PutIn;
      OpenKeepsPutIn(slots, n - 1, target, p);
      SellKeepsPutIn(slots, n - 1, Sells(slots, n - 1, p));
      BuyKeepsPutIn(slots, n - 1, target, Buys(slots, n - 1, target, p));
    }
  }

  lemma {:induction false} NothingHeld(quantity: seq<real>, prices: seq<real>, n: nat)
    requires n <= |quantity| && n <= |prices| && forall s :: 0 <= s < n ==> quantity[s] == 0.0
    ensures Worth(quantity, prices, n) == 0.0
  {
    if n > 0 {
      NothingHeld(quantity, prices, n - 1);
    }
  }

  lemma BarKeeps(slots: seq<Slot>, p: Pool)
    requires slots != [] && Fits(p, |slots|) && PositiveOpens(slots) && Solvent(p)
    ensures AllBuyable(slots) && Solvent(AtOpen(slots, p)) && PutIn(AtOpen(slots, p)) == PutIn(p)
    ensures EquityOf(AtOpen(slots, p), Opens(slots)) == EquityOf(p, Opens(slots))
  {
    hide Sells, Buys, PutIn, EquityOf, Solvent;
    var sold := Sells(slots, |slots|, p);
    var target := Target(slots, sold);
    OpenKeepsSolvent(slots, |slots|, target, p);
    OpenKeepsSolvent(slots, |slots|, target, sold);
    OpenKeepsPutIn(slots, |slots|, target, p);
    OpenKeepsPutIn(slots, |slots|, target, sold);
    SellsKeepEquity(slots, |slots|, p);
    BuysKeepEquity(slots, |slots|, target, sold);
  }

  lemma {:induction false} PoolKeeps(sc: Scenario, capital: real, i: nat)
    requires PositivePrices(sc) && capital >= 0.0 && i < sc.BarCount()
    ensures Tradable(sc) && Solvent(PoolAt(sc, capital, i)) && PutIn(PoolAt(sc, capital, i)) == capital
  {
    var zero := ZeroReals(|sc.symbols|);
    if i == 0 {
      NothingHeld(zero, zero, |zero|);
    } else {
      hide AtOpen, PutIn, Solvent;
      PoolKeeps(sc, capital, i - 1);
      BarKeeps(sc.OpenOf(i), PoolAt(sc, capital, i - 1));
    }
  }

  // ---- the equity curve explained

  /** What the open positions stand above or below their cost. */
  function Unrealized(p: Pool, closes: seq<real>, n: nat): real
    requires n <= |p.quantity| && n <= |p.avgCost| && n <= |closes|
  {
    if n == 0 then 0.0
    else Unrealized(p, closes, n - 1) + (closes[n - 1] - p.avgCost[n - 1]) * p.quantity[n - 1]
  }

  lemma {:induction false} UnrealizedIsDifference(p: Pool, closes: seq<real>, n: nat)
    requires n <= |p.quantity| && n <= |p.avgCost| && n <= |closes|
    ensures Unrealized(p, closes, n) == Worth(p.quantity, closes, n) - Worth(p.quantity, p.avgCost, n)
  {
    if n > 0 {
      UnrealizedIsDifference(p, closes, n - 1);
      assert (closes[n - 1] - p.avgCost[n - 1]) * p.quantity[n - 1]
          == p.quantity[n - 1] * closes[n - 1] - p.quantity[n - 1] * p.avgCost[n - 1];
    }
  }

  /** Conservation. At every bar of every run, cash and every quantity are at least zero, and equity is the
      starting capital, plus the P/L realized so far, plus what the open positions stand above their cost. */
  lemma EquityIsExplained(sc: Scenario, capital: real, i: nat)
    requires PositivePrices(sc) && capital >= 0.0 && i < sc.BarCount()
    ensures Tradable(sc)
    ensures var p := PoolAt(sc, capital, i);
            && Solvent(p)
            && EquityAt(sc, capital, i) == capital + RealizedGains(p.trades) + Unrealized(p, sc.ClosesAt(i), |sc.symbols|)
  {
    hide PoolAt, RealizedGains;
    PoolKeeps(sc, capital, i);
    UnrealizedIsDifference(PoolAt(sc, capital, i), sc.ClosesAt(i), |sc.symbols|);
  }

  /** Trading at an open moves no equity: what the curve does between two closes is what prices did. */
  lemma OpensMoveNoEquity(sc: Scenario, capital: real, i: nat)
    requires PositivePrices(sc) && capital >= 0.0 && 0 < i < sc.BarCount()
    ensures Tradable(sc)
    ensures EquityOf(PoolAt(sc, capital, i), Opens(sc.OpenOf(i))) == EquityOf(PoolAt(sc, capital, i - 1), Opens(sc.OpenOf(i)))
  {
    hide AtOpen, EquityOf, Solvent;
    PoolKeeps(sc, capital, i - 1);
    BarKeeps(sc.OpenOf(i), PoolAt(sc, capital, i - 1));
  }
}
