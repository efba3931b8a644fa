/** One pool for all symbols: who gets how much of it at a bar's open. */
module SharedPool {
  import opened Numeric
  import opened Wrappers
  import opened Market
  import opened Strategies
  import opened Simulator
  import opened Conservation

  /** What a position comes to at its open. */
  function StakeOf(slots: seq<Slot>, p: Pool, s: nat): real
    requires s < |slots| && Fits(p, |slots|)
  {
    p.quantity[s] * slots[s].open
  }

  predicate DueToBuy(slots: seq<Slot>, p: Pool, s: nat)
    requires s < |slots| && Fits(p, |slots|)
  {
    slots[s].signal == SignalBuy && p.quantity[s] == 0.0
  }

  predicate DueToSell(slots: seq<Slot>, p: Pool, s: nat)
    requires s < |slots| && Fits(p, |slots|)
  {
    slots[s].signal == SignalSell && p.quantity[s] != 0.0
  }

  /** What a symbol comes out of an open with: nothing if it was due to be sold; if it was due to be bought, a stake of
      at most an equal share, and less only because the pool ran dry; what it had otherwise. */
  ghost predicate GetsItsDue(slots: seq<Slot>, before: Pool, after: Pool, share: real, s: nat)
    requires s < |slots| && Fits(before, |slots|) && Fits(after, |slots|)
  {
    if DueToSell(slots, before, s) then after.quantity[s] == 0.0
    else if DueToBuy(slots, before, s)
    then
      && 0.0 <= StakeOf(slots, after, s) <= share && (StakeOf(slots, after, s) < share ==> after.cash == 0.0)
      && after.avgCost[s] == if after.quantity[s] == 0.0 then before.avgCost[s] else slots[s].open
    else after.quantity[s] == before.quantity[s] && after.avgCost[s] == before.avgCost[s]
  }

  /** The pool is spent in symbol order: a symbol that got less than its share leaves nothing to the ones after it. */
  ghost predicate InSymbolOrder(slots: seq<Slot>, before: Pool, after: Pool, share: real)
    requires Fits(before, |slots|) && Fits(after, |slots|)
  {
    forall s, t ::
      (0 <= s < t < |slots| && DueToBuy(slots, before, s) && DueToBuy(slots, before, t)
       && StakeOf(slots, after, s) < share) ==> after.quantity[t] == 0.0
  }

  // ---- the sells

  lemma {:induction false} SoldOut(slots: seq<Slot>, n: nat, p: Pool)
    requires n <= |slots| && Fits(p, |slots|)
    ensures var sold := Sells(slots, n, p);
            forall s :: 0 <= s < |slots| ==>
              && sold.quantity[s] == (if s < n && DueToSell(slots, p, s) then 0.0 else p.quantity[s])
              && (s >= n || !DueToSell(slots, p, s) ==> sold.avgCost[s] == p.avgCost[s])
  {
    if n > 0 {
      hide Proceeds, SaleOf;
      SoldOut(slots, n - 1, p);
    }
  }

  // ---- the buys

  /** Where the buys stand after the first n symbols. */
  ghost predicate BoughtSoFar(slots: seq<Slot>, before: Pool, after: Pool, share: real, n: nat)
    requires n <= |slots| && Fits(before, |slots|) && Fits(after, |slots|)
  {
    && after.cash >= 0.0
    && (forall s :: 0 <= s < |slots| && (s >= n || !DueToBuy(slots, before, s)) ==>
          after.quantity[s] == before.quantity[s] && after.avgCost[s] == before.avgCost[s])
    && (forall s :: 0 <= s < n && DueToBuy(slots, before, s) ==> GetsItsDue(slots, before, after, share, s))
    && forall s, t ::
         (0 <= s < t < n && DueToBuy(slots, before, s) && DueToBuy(slots, before, t)
          && StakeOf(slots, after, s) < share) ==> after.quantity[t] == 0.0
  }

  lemma QuotientTimes(x: real, y: real)
    requires y != 0.0
    ensures (x / y) * y == x
  {}

  lemma StakeIsSpent(slots: seq<Slot>, s: nat, share: real, p: Pool)
    requires s < |slots| && Fits(p, |slots|) && slots[s].open > 0.0 && share >= 0.0 && p.cash >= 0.0
    requires DueToBuy(slots, p, s)
    ensures var q := BuyOne(slots, s, share, p);
            && q.cash == p.cash - StakeOf(slots, q, s) && q.cash >= 0.0
            && 0.0 <= StakeOf(slots, q, s) <= share && (StakeOf(slots, q, s) < share ==> q.cash == 0.0)
            && (p.cash == 0.0 ==> q == p)
            && q.avgCost[s] == if q.quantity[s] == 0.0 then p.avgCost[s] else slots[s].open
  {
    hide PurchaseOf;
    var spend := Spend(p.cash, share);
    if spend > 0.0 {
      QuotientTimes(spend, slots[s].open);
    }
  }

  lemma {:induction false} BuysShare(slots: seq<Slot>, n: nat, share: real, p: Pool)
    requires n <= |slots| && Fits(p, |slots|) && PositiveOpens(slots) && share >= 0.0 && p.cash >= 0.0
    ensures AllBuyable(slots) && BoughtSoFar(slots, p, Buys(slots, n, share, p), share, n)
  {
    if n > 0 {
      hide BuyOne, Spend;
      BuysShare(slots, n - 1, share, p);
      BuyStep(slots, n - 1, share, p, Buys(slots, n - 1, share, p));
    }
  }

  lemma BuyStep(slots: seq<Slot>, s: nat, share: real, p: Pool, so_far: Pool)
    requires s < |slots| && Fits(p, |slots|) && Fits(so_far, |slots|) && PositiveOpens(slots) && share >= 0.0
    requires BoughtSoFar(slots, p, so_far, share, s)
    ensures Buyable(slots[s]) && BoughtSoFar(slots, p, BuyOne(slots, s, share, so_far), share, s + 1)
  {
    var q := BuyOne(slots, s, share, so_far);
    if DueToBuy(slots, p, s) {
      StakeIsSpent(slots, s, share, so_far);
      hide Spend, PurchaseOf;
    }
  }

  lemma {:induction false} WorthNonnegative(quantity: seq<real>, prices: seq<real>, n: nat)
    requires n <= |quantity| && n <= |prices|
    requires forall s :: 0 <= s < n ==> quantity[s] >= 0.0 && prices[s] >= 0.0
    ensures Worth(quantity, prices, n) >= 0.0
  {
    if n > 0 {
      WorthNonnegative(quantity, prices, n - 1);
      ProductNonnegative(quantity[n - 1], prices[n - 1]);
    }
  }

  lemma ShareIsNonnegative(slots: seq<Slot>, p: Pool)
    requires slots != [] && Fits(p, |slots|) && PositiveOpens(slots) && Solvent(p)
    ensures EquityOf(p, Opens(slots)) >= 0.0 && EquityOf(p, Opens(slots)) / |slots| as real >= 0.0
  {
    WorthNonnegative(p.quantity, Opens(slots), |slots|);
  }

  /** The pool is shared. At an open each symbol due to be bought gets a stake of at most the equity at that open over
      the number of symbols, and exactly that while cash remains, in symbol order; each due to be sold is sold out; every
      other one is left alone; and the equity at the open is what it was. */
  lemma PoolIsShared(slots: seq<Slot>, p: Pool)
    requires slots != [] && Fits(p, |slots|) && PositiveOpens(slots) && Solvent(p)
    ensures AllBuyable(slots)
    ensures var after, share := AtOpen(slots, p), EquityOf(p, Opens(slots)) / |slots| as real;
            && after.cash >= 0.0 && EquityOf(after, Opens(slots)) == EquityOf(p, Opens(slots))
            && (forall s :: 0 <= s < |slots| ==> GetsItsDue(slots, p, after, share, s))
            && InSymbolOrder(slots, p, after, share)
  {
    hide Sells, Buys, EquityOf;
    var sold := Sells(slots, |slots|, p);
    var share := EquityOf(p, Opens(slots)) / |slots| as real;
    BarKeeps(slots, p);
    SellsKeepEquity(slots, |slots|, p);
    ShareIsNonnegative(slots, p);
    SoldOut(slots, |slots|, p);
    OpenKeepsSolvent(slots, |slots|, share, p);
    BuysShare(slots, |slots|, share, sold);
    var after := Buys(slots, |slots|, share, sold);
    assert after == AtOpen(slots, p);
    hide AtOpen;
    forall s | 0 <= s < |slots| ensures DueToBuy(slots, sold, s) <==> DueToBuy(slots, p, s) {}
    forall s | 0 <= s < |slots| ensures GetsItsDue(slots, p, after, share, s) {}
  }

  // ---- what the log says of it

  function Gain(price: real, basis: real, quantity: real): real {
    (price - basis) * quantity
  }

  /** The sales of an open: each symbol due to be sold, whole, at the open, with what it gained on its basis. */
  function Sales(slots: seq<Slot>, before: Pool, n: nat): seq<TradeRecord>
    requires n <= |slots| && Fits(before, |slots|)
  {
    if n == 0 then []
    else
      var slot, held, basis := slots[n - 1], before.quantity[n - 1], before.avgCost[n - 1];
      Sales(slots, before, n - 1)
      + if DueToSell(slots, before, n - 1)
        then [TradeRecord(slot.symbol, Sell, slot.timestamp, slot.open, held, Some(Gain(slot.open, basis, held)))]
        else []
  }

  /** And its purchases: each symbol due to be bought that came out of it with something. */
  function Purchases(slots: seq<Slot>, before: Pool, after: Pool, n: nat): seq<TradeRecord>
    requires n <= |slots| && Fits(before, |slots|) && Fits(after, |slots|)
  {
    if n == 0 then []
    else
      var slot, bought := slots[n - 1], after.quantity[n - 1];
      Purchases(slots, before, after, n - 1)
      + if DueToBuy(slots, before, n - 1) && bought != 0.0
        then [TradeRecord(slot.symbol, Buy, slot.timestamp, slot.open, bought, None)]
        else []
  }

  lemma SaleGains(slot: Slot, held: real, basis: real)
    ensures SaleOf(slot, held, basis)
            == TradeRecord(slot.symbol, Sell, slot.timestamp, slot.open, held, Some(Gain(slot.open, basis, held)))
  {
    var pl := (slot.open - basis) * held;
    assert SaleOf(slot, held, basis).realizedPL == Some(pl);
    assert Gain(slot.open, basis, held) == pl;
  }

  lemma SellIsLogged(slots: seq<Slot>, s: nat, p: Pool)
    requires s < |slots| && Fits(p, |slots|)
    ensures var slot, held, basis := slots[s], p.quantity[s], p.avgCost[s];
            SellOne(slots, s, p).trades
            == p.trades
               + if DueToSell(slots, p, s)
                 then [TradeRecord(slot.symbol, Sell, slot.timestamp, slot.open, held, Some(Gain(slot.open, basis, held)))]
                 else []
  {
    assert p.trades + [] == p.trades;
    if DueToSell(slots, p, s) {
      assert SellOne(slots, s, p).trades == p.trades + [SaleOf(slots[s], p.quantity[s], p.avgCost[s])];
      SaleGains(slots[s], p.quantity[s], p.avgCost[s]);
    } else {
      assert SellOne(slots, s, p) == p;
    }
  }

  lemma {:induction false} SellsAreLogged(slots: seq<Slot>, n: nat, p: Pool)
    requires n <= |slots| && Fits(p, |slots|)
    ensures Sells(slots, n, p).trades == p.trades + Sales(slots, p, n)
  {
    if n > 0 {
      SellsAreLogged(slots, n - 1, p);
      SoldOut(slots, n - 1, p);
      var earlier := Sells(slots, n - 1, p);
      SellIsLogged(slots, n - 1, earlier);
      hide SellOne, Gain;
      assert DueToSell(slots, earlier, n - 1) <==> DueToSell(slots, p, n - 1);
      assert Sales(slots, p, n - 1) + [] == Sales(slots, p, n - 1);
    }
  }

  lemma {:induction false} PurchasesDependOn(slots: seq<Slot>, before: Pool, a: Pool, b: Pool, n: nat)
    requires n <= |slots| && Fits(before, |slots|) && Fits(a, |slots|) && Fits(b, |slots|)
    requires forall s :: 0 <= s < n ==> a.quantity[s] == b.quantity[s]
    ensures Purchases(slots, before, a, n) == Purchases(slots, before, b, n)
  {
    if n > 0 {
      PurchasesDependOn(slots, before, a, b, n - 1);
    }
  }

  lemma {:induction false} PurchasesOf(slots: seq<Slot>, a: Pool, b: Pool, after: Pool, n: nat)
    requires n <= |slots| && Fits(a, |slots|) && Fits(b, |slots|) && Fits(after, |slots|)
    requires forall s :: 0 <= s < n ==> (DueToBuy(slots, a, s) <==> DueToBuy(slots, b, s))
    ensures Purchases(slots, a, after, n) == Purchases(slots, b, after, n)
  {
    if n > 0 {
      PurchasesOf(slots, a, b, after, n - 1);
    }
  }

  lemma {:induction false} BuysAreLogged(slots: seq<Slot>, n: nat, share: real, p: Pool)
    requires n <= |slots| && Fits(p, |slots|) && PositiveOpens(slots) && share >= 0.0 && p.cash >= 0.0
    ensures AllBuyable(slots)
    ensures var after := Buys(slots, n, share, p); after.trades == p.trades + Purchases(slots, p, after, n)
  {
    if n > 0 {
      var earlier, after := Buys(slots, n - 1, share, p), Buys(slots, n, share, p);
      BuysAreLogged(slots, n - 1, share, p);
      BuysShare(slots, n - 1, share, p);
      BuyTouchesOne(slots, n - 1, share, earlier);
      assert DueToBuy(slots, earlier, n - 1) <==> DueToBuy(slots, p, n - 1);
      hide BuyOne, BoughtSoFar, DueToBuy;
      PurchasesDependOn(slots, p, earlier, after, n - 1);
      BuyIsLogged(slots, n - 1, share, earlier);
      assert Purchases(slots, p, after, n - 1) + [] == Purchases(slots, p, after, n - 1);
    }
  }

  lemma BuyTouchesOne(slots: seq<Slot>, s: nat, share: real, p: Pool)
    requires s < |slots| && Fits(p, |slots|) && Buyable(slots[s])
    ensures forall k :: 0 <= k < |slots| && k != s ==> BuyOne(slots, s, share, p).quantity[k] == p.quantity[k]
  {}

  lemma BuyIsLogged(slots: seq<Slot>, s: nat, share: real, p: Pool)
    requires s < |slots| && Fits(p, |slots|) && PositiveOpens(slots)
    ensures var after, slot := BuyOne(slots, s, share, p), slots[s];
            after.trades == p.trades + if DueToBuy(slots, p, s) && after.quantity[s] != 0.0
                                       then [TradeRecord(slot.symbol, Buy, slot.timestamp, slot.open, after.quantity[s], None)]
                                       else []
  {
    var spend := Spend(p.cash, share);
    if spend > 0.0 {
      QuotientTimes(spend, slots[s].open);
    }
  }

  /** The log grows by exactly the sales and then the purchases, each in symbol order, at the open and for the quantity
      that moved. */
  lemma OpenIsLogged(slots: seq<Slot>, p: Pool)
    requires slots != [] && Fits(p, |slots|) && PositiveOpens(slots) && Solvent(p)
    ensures AllBuyable(slots)
    ensures var after := AtOpen(slots, p);
            after.trades == p.trades + Sales(slots, p, |slots|) + Purchases(slots, p, after, |slots|)
  {
    hide Sells, Buys, EquityOf;
    var sold := Sells(slots, |slots|, p);
    var share := EquityOf(p, Opens(slots)) / |slots| as real;
    SellsKeepEquity(slots, |slots|, p);
    ShareIsNonnegative(slots, p);
    SoldOut(slots, |slots|, p);
    OpenKeepsSolvent(slots, |slots|, share, p);
    SellsAreLogged(slots, |slots|, p);
    BuysAreLogged(slots, |slots|, share, sold);
    PurchasesOf(slots, sold, p, AtOpen(slots, p), |slots|);
  }

  // ---- from a flat pool

  function Buyers(slots: seq<Slot>, n: nat): nat
    requires n <= |slots|
  {
    if n == 0 then 0 else Buyers(slots, n - 1) + if slots[n - 1].signal == SignalBuy then 1 else 0
  }

  lemma {:induction false} BuyersAtMost(slots: seq<Slot>, n: nat)
    requires n <= |slots|
    ensures Buyers(slots, n) <= n
  {
    if n > 0 {
      BuyersAtMost(slots, n - 1);
    }
  }

  function EqualShare(cash: real, n: nat): real
    requires n > 0
  {
    cash / n as real
  }

  /** What m equal shares come to. */
  function Portion(share: real, m: int): real {
    share * m as real
  }

  lemma PortionStep(share: real, m: int)
    requires share > 0.0 && m >= 1
    ensures Portion(share, m) >= share && Portion(share, m) - share == Portion(share, m - 1)
  {
    ProductNonnegative(share, (m - 1) as real);
    assert share * m as real == share * (m - 1) as real + share;
  }

  lemma FullBuy(slots: seq<Slot>, s: nat, share: real, p: Pool)
    requires s < |slots| && Fits(p, |slots|) && slots[s].open > 0.0 && 0.0 < share <= p.cash && p.quantity[s] == 0.0
    ensures var after := BuyOne(slots, s, share, p);
            if slots[s].signal == SignalBuy
            then after.cash == p.cash - share && StakeOf(slots, after, s) == share
                 && after.quantity == p.quantity[s := after.quantity[s]]
            else after == p
  {
    QuotientTimes(share, slots[s].open);
  }

  ghost predicate StakesSoFar(slots: seq<Slot>, after: Pool, share: real, n: nat)
    requires n <= |slots| && Fits(after, |slots|)
  {
    && after.cash == Portion(share, |slots| - Buyers(slots, n))
    && (forall s :: n <= s < |slots| ==> after.quantity[s] == 0.0)
    && forall s :: 0 <= s < n ==> StakeOf(slots, after, s) == if slots[s].signal == SignalBuy then share else 0.0
  }

  lemma {:induction false} EqualStakes(slots: seq<Slot>, n: nat, share: real, p: Pool)
    requires n <= |slots| && Fits(p, |slots|) && PositiveOpens(slots) && share > 0.0
    requires p.cash == Portion(share, |slots|) && forall s :: 0 <= s < |slots| ==> p.quantity[s] == 0.0
    ensures AllBuyable(slots) && StakesSoFar(slots, Buys(slots, n, share, p), share, n)
  {
    if n > 0 {
      hide StakesSoFar, BuyOne;
      EqualStakes(slots, n - 1, share, p);
      StakeStep(slots, n - 1, share, Buys(slots, n - 1, share, p));
    } else {
      assert Buyers(slots, 0) == 0;
    }
  }

  lemma StakeStep(slots: seq<Slot>, s: nat, share: real, p: Pool)
    requires s < |slots| && Fits(p, |slots|) && PositiveOpens(slots) && share > 0.0 && StakesSoFar(slots, p, share, s)
    ensures StakesSoFar(slots, BuyOne(slots, s, share, p), share, s + 1)
  {
    BuyersAtMost(slots, s);
    PortionStep(share, |slots| - Buyers(slots, s));
    FullBuy(slots, s, share, p);
    NoStake(slots, s, p);
    hide Portion, BuyOne;
    var after := BuyOne(slots, s, share, p);
    forall k | 0 <= k < s ensures StakeOf(slots, after, k) == StakeOf(slots, p, k) {}
    hide StakeOf;
  }

  lemma NoStake(slots: seq<Slot>, s: nat, p: Pool)
    requires s < |slots| && Fits(p, |slots|) && p.quantity[s] == 0.0
    ensures StakeOf(slots, p, s) == 0.0
  {}

  /** From a flat pool, k symbols bought at one open get equal stakes of the cash over n, and cash * (n - k) / n is left. */
  lemma FlatPoolSplitsEvenly(slots: seq<Slot>, p: Pool)
    requires slots != [] && Fits(p, |slots|) && PositiveOpens(slots) && p.cash > 0.0
    requires forall s :: 0 <= s < |slots| ==> p.quantity[s] == 0.0
    ensures AllBuyable(slots)
    ensures var after, n, k := AtOpen(slots, p), |slots|, Buyers(slots, |slots|);
            && after.cash == Portion(EqualShare(p.cash, n), n - k)
            && forall s :: 0 <= s < n ==>
                 StakeOf(slots, after, s) == if slots[s].signal == SignalBuy then EqualShare(p.cash, n) else 0.0
  {
    hide Buys, StakeOf, Portion, EqualShare, AtOpen;
    var share := EqualShare(p.cash, |slots|);
    FlatShare(slots, p);
    FlatOpen(slots, p);
    EqualStakes(slots, |slots|, share, p);
  }

  lemma FlatOpen(slots: seq<Slot>, p: Pool)
    requires slots != [] && Fits(p, |slots|) && PositiveOpens(slots) && p.cash > 0.0
    requires forall s :: 0 <= s < |slots| ==> p.quantity[s] == 0.0
    ensures AllBuyable(slots) && AtOpen(slots, p) == Buys(slots, |slots|, EqualShare(p.cash, |slots|), p)
  {
    hide Buys, Sells, Target, Portion, EqualShare;
    FlatShare(slots, p);
    FlatNothingSold(slots, |slots|, p);
  }

  lemma FlatShare(slots: seq<Slot>, p: Pool)
    requires slots != [] && Fits(p, |slots|) && p.cash > 0.0 && forall s :: 0 <= s < |slots| ==> p.quantity[s] == 0.0
    ensures var share := EqualShare(p.cash, |slots|);
            Target(slots, p) == share && share > 0.0 && p.cash == Portion(share, |slots|)
  {
    QuotientTimes(p.cash, |slots| as real);
    NothingHeld(p.quantity, Opens(slots), |slots|);
    FactorPositive(EqualShare(p.cash, |slots|), |slots| as real);
  }

  lemma FactorPositive(x: real, k: real)
    requires k > 0.0 && x * k > 0.0
    ensures x > 0.0
  {}

  lemma {:induction false} FlatNothingSold(slots: seq<Slot>, n: nat, p: Pool)
    requires n <= |slots| && Fits(p, |slots|) && forall s :: 0 <= s < |slots| ==> p.quantity[s] == 0.0
    ensures Sells(slots, n, p) == p
  {
    if n > 0 {
      FlatNothingSold(slots, n - 1, p);
    }
  }

  // ---- at every bar of every run

  /** So it is at every bar of every run, with yesterday's signals and today's opens. */
  lemma EveryOpenIsShared(sc: Scenario, capital: real, i: nat)
    requires PositivePrices(sc) && capital >= 0.0 && 0 < i < sc.BarCount()
    ensures Tradable(sc)
    ensures var slots, before, after := sc.OpenOf(i), PoolAt(sc, capital, i - 1), PoolAt(sc, capital, i);
            var share := EquityOf(before, Opens(slots)) / |slots| as real;
            && (forall s :: 0 <= s < |slots| ==>
                  && slots[s] == Slot(sc.symbols[s], sc.signals[s][i - 1], sc.bars[s][i].timestamp, sc.bars[s][i].open)
                  && GetsItsDue(slots, before, after, share, s))
            && InSymbolOrder(slots, before, after, share)
            && after.trades == before.trades + Sales(slots, before, |slots|) + Purchases(slots, before, after, |slots|)
  {
    hide AtOpen, PutIn, Solvent, Sales, Purchases, GetsItsDue, InSymbolOrder, EquityOf;
    PoolKeeps(sc, capital, i - 1);
    PoolIsShared(sc.OpenOf(i), PoolAt(sc, capital, i - 1));
    OpenIsLogged(sc.OpenOf(i), PoolAt(sc, capital, i - 1));
  }
}
