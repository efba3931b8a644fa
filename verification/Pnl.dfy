/** Profit and loss of the live account: nothing is created or lost between cash, cost basis and realized P/L. */
module Pnl {
  import opened Numeric
  import opened Wrappers
  import opened Market
  import opened Ordering
  import opened Sums
  import opened Ledger
  import opened AccountReconciles

  // ---- cost basis

  function BasisOf(a: Account): string -> real {
    s => Amount(Held(a, s).avgCost, Held(a, s).quantity)
  }

  ghost function Basis(a: Account): real {
    SumOver(BasisOf(a), a.positions.Keys)
  }

  function Realized(trades: seq<TradeRow>): real {
    if trades == [] then 0.0
    else
      var last := trades[|trades| - 1];
      Realized(trades[..|trades| - 1]) + if last.realizedPL.Some? then last.realizedPL.value else 0.0
  }

  /** Cash plus what the open positions cost. */
  ghost function Book(a: Account): real {
    a.balance + Basis(a)
  }

  lemma BasisMoves(a: Account, b: Account, symbol: Symbol)
    requires b.positions.Keys == a.positions.Keys + {symbol}
    requires forall s :: s != symbol ==> Held(b, s) == Held(a, s)
    ensures Basis(b) - Basis(a) == BasisOf(b)(symbol) - BasisOf(a)(symbol)
  {
    var keys := b.positions.Keys;
    SumRemove(BasisOf(b), keys, symbol);
    SumCongruent(BasisOf(a), BasisOf(b), keys - {symbol});
    SumRemove(BasisOf(a), keys, symbol);
    if symbol !in a.positions {
      assert keys - {symbol} == a.positions.Keys;
      assert BasisOf(a)(symbol) == 0.0;
    } else {
      assert keys == a.positions.Keys;
    }
  }

  /** The defining property of the weighted average: the whole position, at its new basis, cost what its
      parts cost. */
  lemma WeightedAvgCostConserves(oldTicks: int, oldAvg: real, fillTicks: int, fillPrice: real)
    requires oldTicks + fillTicks != 0
    ensures Amount(WeightedAvgCost(Shares(oldTicks), oldAvg, Shares(fillTicks), fillPrice), oldTicks + fillTicks)
            == Amount(oldAvg, oldTicks) + Amount(fillPrice, fillTicks)
  {
    var total := Shares(oldTicks) + Shares(fillTicks);
    assert total == Shares(oldTicks + fillTicks) && total != 0.0;
    var cost := oldAvg * Shares(oldTicks) + fillPrice * Shares(fillTicks);
    assert (cost / total) * total == cost;
  }

  /** A sale takes its quantity out at the basis it was held at, and realizes the difference. */
  lemma SaleSplitsBasis(held: int, avg: real, sold: int, price: real)
    ensures Amount(avg, held - sold) == Amount(avg, held) - Amount(avg, sold)
    ensures RealizedPL(avg, price, Shares(sold)) == Amount(price, sold) - Amount(avg, sold)
  {
    assert Shares(held - sold) == Shares(held) - Shares(sold);
    assert avg * (Shares(held) - Shares(sold)) == avg * Shares(held) - avg * Shares(sold);
    assert (price - avg) * Shares(sold) == price * Shares(sold) - avg * Shares(sold);
  }

  // ---- one order

  /** How far storage rounding can put one fill's books out: half a tick on the balance, half a tick on the
      realized P/L, and half a tick per share on the cost basis. Nothing, in exact arithmetic. */
  function FillSlack(column: Column, sharesAfter: real): real {
    if column.Exact? then 0.0 else HALF_TICK * (2.0 + sharesAfter)
  }

  function OrderSlack(column: Column, a: Account, p: OrderParams): real {
    if Fillable(a, p) then FillSlack(column, Shares(Held(Execute(column, a, p), p.symbol).quantity)) else 0.0
  }

  lemma ScaledBound(u: real, v: real, e: real, x: real)
    requires -e <= u - v <= e && x >= 0.0
    ensures -(e * x) <= u * x - v * x <= e * x
  {
    var d := u - v;
    assert (e - d) * x >= 0.0 && (e + d) * x >= 0.0;
    assert u * x - v * x == d * x;
  }

  lemma StoredBasisWithin(column: Column, avg: real, ticks: int)
    requires ticks >= 0
    ensures var e := if column.Exact? then 0.0 else HALF_TICK * Shares(ticks);
            -e <= Amount(Stored(column, avg), ticks) - Amount(avg, ticks) <= e
  {
    StoredWithin(column, avg);
    hide Stored;
    if column == Exact {
      assert Stored(column, avg) == avg;
    } else {
      ScaledBound(Stored(column, avg), avg, HALF_TICK, Shares(ticks));
      assert Amount(Stored(column, avg), ticks) == Stored(column, avg) * Shares(ticks);
      assert Amount(avg, ticks) == avg * Shares(ticks);
    }
  }

  lemma RealizedStep(trades: seq<TradeRow>, t: TradeRow)
    ensures Realized(trades + [t]) == Realized(trades) + if t.realizedPL.Some? then t.realizedPL.value else 0.0
  {
    assert (trades + [t])[..|trades|] == trades;
  }

  lemma FillMovesBook(column: Column, a: Account, p: OrderParams, position: Position, balance: real,
                      realized: Option<real>)
    ensures var b := Fill(column, a, p, position, balance, realized);
            && Book(b) - Book(a) == Stored(column, balance) - a.balance
                                    + Amount(Stored(column, position.avgCost), position.quantity)
                                    - Amount(Held(a, p.symbol).avgCost, Held(a, p.symbol).quantity)
            && Realized(b.trades) - Realized(a.trades)
               == if realized.Some? then Stored(column, realized.value) else 0.0
  {
    hide Stored, Amount, Realized;
    var b := Fill(column, a, p, position, balance, realized);
    BasisMoves(a, b, p.symbol);
    RealizedStep(a.trades, TradeOf(column, p, realized));
  }

  lemma BuyConserves(column: Column, a: Account, p: OrderParams)
    requires p.side == Buy && Affordable(a, p) && NothingNegative(a)
    ensures var b := Execute(column, a, p);
            var slack := OrderSlack(column, a, p);
            -slack <= (Book(b) - Realized(b.trades)) - (Book(a) - Realized(a.trades)) <= slack
  {
    hide WeightedAvgCost, Amount, Stored, Realized, Book, FilledRow, TradeOf;
    var held := Held(a, p.symbol);
    var quantity := held.quantity + p.quantity;
    var avg := WeightedAvgCost(Shares(held.quantity), held.avgCost, Shares(p.quantity), p.price);
    FillMovesBook(column, a, p, Position(quantity, avg), a.balance - Notional(p), None);
    StoredWithin(column, a.balance - Notional(p));
    StoredBasisWithin(column, avg, quantity);
    WeightedAvgCostConserves(held.quantity, held.avgCost, p.quantity, p.price);
  }

  lemma SellConserves(column: Column, a: Account, p: OrderParams)
    requires p.side == Sell && Covered(a, p) && NothingNegative(a)
    ensures var b := Execute(column, a, p);
            var slack := OrderSlack(column, a, p);
            -slack <= (Book(b) - Realized(b.trades)) - (Book(a) - Realized(a.trades)) <= slack
  {
    hide WeightedAvgCost, Amount, Stored, Realized, Book, FilledRow, TradeOf, RealizedPL;
    var held := Held(a, p.symbol);
    var quantity := held.quantity - p.quantity;
    var realized := RealizedPL(held.avgCost, p.price, Shares(p.quantity));
    FillMovesBook(column, a, p, Position(quantity, held.avgCost), a.balance + Notional(p), Some(realized));
    StoredWithin(column, a.balance + Notional(p));
    StoredWithin(column, realized);
    StoredBasisWithin(column, held.avgCost, quantity);
    SaleSplitsBasis(held.quantity, held.avgCost, p.quantity, p.price);
  }

  // ---- every run

  function RunSlack(column: Column, orders: seq<OrderParams>): real {
    if orders == [] then 0.0
    else
      var before := orders[..|orders| - 1];
      RunSlack(column, before) + OrderSlack(column, RunOrders(column, before), orders[|orders| - 1])
  }

  lemma {:induction false} ExactRunsHaveNoSlack(orders: seq<OrderParams>)
    ensures RunSlack(Exact, orders) == 0.0
  {
    if orders != [] {
      ExactRunsHaveNoSlack(orders[..|orders| - 1]);
    }
  }

  /** Conservation. Over every run, cash plus cost basis is the opening balance plus the realized P/L, within
      what storage rounding accounts for, which in exact arithmetic is nothing. */
  lemma {:induction false} ProfitIsConserved(column: Column, orders: seq<OrderParams>)
    ensures var a := RunOrders(column, orders);
            var slack := RunSlack(column, orders);
            -slack <= Book(a) - (Opened().balance + Realized(a.trades)) <= slack
  {
    if orders == [] {
      assert Basis(Opened()) == 0.0;
    } else {
      hide Execute, Book, OrderSlack, Fillable;
      var before, p := orders[..|orders| - 1], orders[|orders| - 1];
      var a := RunOrders(column, before);
      ProfitIsConserved(column, before);
      RunNonnegative(column, Opened().balance, before);
      OrderConserves(column, a, p);
    }
  }

  lemma OrderConserves(column: Column, a: Account, p: OrderParams)
    requires NothingNegative(a)
    ensures var b := Execute(column, a, p);
            var slack := OrderSlack(column, a, p);
            -slack <= (Book(b) - Realized(b.trades)) - (Book(a) - Realized(a.trades)) <= slack
  {
    if p.side == Buy && Affordable(a, p) {
      BuyConserves(column, a, p);
    } else if p.side == Sell && Covered(a, p) {
      SellConserves(column, a, p);
    } else {
      var b := Execute(column, a, p);
      SumCongruent(BasisOf(a), BasisOf(b), a.positions.Keys);
    }
  }

  // ---- the basis stays among the prices paid

  datatype Range = Range(low: real, high: real)

  function Widen(r: Range, price: real): Range {
    Range(if price < r.low then price else r.low, if price > r.high then price else r.high)
  }

  /** The lowest and highest price paid for a symbol since its position was last flat. */
  function PricesSinceFlat(column: Column, orders: seq<OrderParams>, symbol: Symbol): Option<Range> {
    if orders == [] then None
    else
      var before, p := orders[..|orders| - 1], orders[|orders| - 1];
      var a, earlier := RunOrders(column, before), PricesSinceFlat(column, before, symbol);
      if !(p.side == Buy && p.symbol == symbol && Affordable(a, p)) then earlier
      else if earlier.None? || Held(a, symbol).quantity == 0 then Some(Range(p.price, p.price))
      else Some(Widen(earlier.value, p.price))
  }

  lemma WeightedAvgBetween(oldTicks: int, oldAvg: real, fillTicks: int, price: real, low: real, high: real)
    requires oldTicks >= 0 && fillTicks > 0 && low <= price <= high
    requires oldTicks > 0 ==> low <= oldAvg <= high
    ensures low <= WeightedAvgCost(Shares(oldTicks), oldAvg, Shares(fillTicks), price) <= high
  {
    var x, y := Shares(oldTicks), Shares(fillTicks);
    var total := x + y;
    var avg := WeightedAvgCost(x, oldAvg, y, price);
    assert total > 0.0 && x >= 0.0 && y > 0.0;
    assert avg * total == oldAvg * x + price * y;
    ProductNonnegative(price - low, y);
    ProductNonnegative(high - price, y);
    if oldTicks > 0 {
      ProductNonnegative(oldAvg - low, x);
      ProductNonnegative(high - oldAvg, x);
    }
    QuotientBetween(avg, total, low, high);
  }

  lemma QuotientBetween(avg: real, total: real, low: real, high: real)
    requires total > 0.0 && low * total <= avg * total <= high * total
    ensures low <= avg <= high
  {
    assert (avg - low) * total == avg * total - low * total;
    assert (high - avg) * total == high * total - avg * total;
    FactorNonnegative(avg - low, total);
    FactorNonnegative(high - avg, total);
  }

  ghost predicate BasisInRange(column: Column, position: Position, paid: Option<Range>) {
    position.quantity > 0 ==>
      paid.Some? && Stored(column, paid.value.low) <= position.avgCost <= Stored(column, paid.value.high)
  }

  lemma BuyKeepsBasisInRange(column: Column, held: Position, fill: Lot, price: Price, paid: Option<Range>)
    requires held.quantity >= 0 && BasisInRange(column, held, paid)
    ensures var avg := WeightedAvgCost(Shares(held.quantity), held.avgCost, Shares(fill), price);
            var range := if paid.None? || held.quantity == 0 then Range(price, price) else Widen(paid.value, price);
            Stored(column, range.low) <= Stored(column, avg) <= Stored(column, range.high)
  {
    hide WeightedAvgCost, Stored;
    var avg := WeightedAvgCost(Shares(held.quantity), held.avgCost, Shares(fill), price);
    if paid.None? || held.quantity == 0 {
      WeightedAvgBetween(held.quantity, held.avgCost, fill, price, price, price);
    } else {
      var low, high := Stored(column, paid.value.low), Stored(column, paid.value.high);
      var least, most := if price < low then price else low, if price > high then price else high;
      WeightedAvgBetween(held.quantity, held.avgCost, fill, price, least, most);
      StoredMonotone(column, least, avg);
      StoredMonotone(column, avg, most);
      StoredIdempotent(column, paid.value.low);
      StoredIdempotent(column, paid.value.high);
      var range := Widen(paid.value, price);
      StoredMonotone(column, range.low, price);
      StoredMonotone(column, range.low, paid.value.low);
      StoredMonotone(column, price, range.high);
      StoredMonotone(column, paid.value.high, range.high);
    }
  }

  ghost predicate BasesStored(column: Column, a: Account) {
    forall s :: Stored(column, Held(a, s).avgCost) == Held(a, s).avgCost
  }

  lemma OrderStoresBases(column: Column, a: Account, p: OrderParams)
    requires BasesStored(column, a)
    ensures BasesStored(column, Execute(column, a, p))
  {
    hide Stored, WeightedAvgCost, RealizedPL;
    var b, held := Execute(column, a, p), Held(a, p.symbol);
    StoredIdempotent(column, WeightedAvgCost(Shares(held.quantity), held.avgCost, Shares(p.quantity), p.price));
    StoredIdempotent(column, held.avgCost);
    assert forall s :: s != p.symbol ==> Held(b, s) == Held(a, s);
  }

  lemma {:induction false} RunStoresBases(column: Column, orders: seq<OrderParams>)
    ensures BasesStored(column, RunOrders(column, orders))
  {
    if orders == [] {
      assert Stored(column, 0.0) == 0.0;
    } else {
      RunStoresBases(column, orders[..|orders| - 1]);
      OrderStoresBases(column, RunOrders(column, orders[..|orders| - 1]), orders[|orders| - 1]);
    }
  }

  /** Over every run, an open position's cost basis lies between the lowest and the highest price paid since it
      was last flat, as those prices are stored. Sales never move it. */
  lemma {:induction false} BasisAmongPricesPaid(column: Column, orders: seq<OrderParams>, symbol: Symbol)
    ensures BasisInRange(column, Held(RunOrders(column, orders), symbol), PricesSinceFlat(column, orders, symbol))
  {
    if orders != [] {
      var before, p := orders[..|orders| - 1], orders[|orders| - 1];
      var a, paid := RunOrders(column, before), PricesSinceFlat(column, before, symbol);
      BasisAmongPricesPaid(column, before, symbol);
      RunNonnegative(column, Opened().balance, before);
      RunStoresBases(column, before);
      hide Stored, WeightedAvgCost, RealizedPL;
      if p.symbol == symbol && p.side == Buy && Affordable(a, p) {
        BuyKeepsBasisInRange(column, Held(a, symbol), p.quantity, p.price, paid);
      }
    }
  }

  // ---- the portfolio endpoint

  /** One holding priced at the current market, or not priced at all. */
  datatype PricedPosition = PricedPosition(holding: Holding, latestPrice: Option<real>, unrealizedPL: real)

  /** What a quantity stands above its cost at a quote. */
  function Gained(quote: real, cost: real, ticks: int): real {
    (quote - cost) * Shares(ticks)
  }

  /** A price source that may answer for some symbols and fail for others. */
  function PriceOne(h: Holding, quotes: map<Symbol, real>): PricedPosition {
    if h.symbol in quotes
    then PricedPosition(h, Some(quotes[h.symbol]), Gained(quotes[h.symbol], h.avgCost, h.quantity))
    else PricedPosition(h, None, 0.0)
  }

  /** The order in which n concurrent lookups finish: each of them once or more, in any order. */
  ghost predicate Completes(schedule: seq<nat>, n: nat) {
    forall i :: 0 <= i < n <==> i in schedule
  }

  /** Every holding starts unpriced and is overwritten by its own lookup if that answers. A lookup cut off by the
      pricing budget is one that failed. */
  method PriceAll(holdings: seq<Holding>, quotes: map<Symbol, real>, schedule: seq<nat>)
    returns (positions: seq<PricedPosition>)
    requires Completes(schedule, |holdings|)
    ensures |positions| == |holdings| && forall i :: 0 <= i < |holdings| ==> positions[i] == PriceOne(holdings[i], quotes)
  {
    var n := |holdings|;
    var slots := new PricedPosition[n](i requires 0 <= i < n => PricedPosition(holdings[i], None, 0.0));
    for k := 0 to |schedule|
      invariant forall i :: 0 <= i < n ==>
                  slots[i] == if i in schedule[..k] then PriceOne(holdings[i], quotes)
                              else PricedPosition(holdings[i], None, 0.0)
    {
      var i := schedule[k];
      assert i in schedule;
      assert schedule[..k + 1] == schedule[..k] + [i];
      var h := holdings[i];
      if h.symbol in quotes {
        var latest := quotes[h.symbol];
        slots[i] := PricedPosition(h, Some(latest), Gained(latest, h.avgCost, h.quantity));
      }
    }
    assert schedule[..|schedule|] == schedule;
    return slots[..];
  }

  /** What a symbol's row is worth at its quote, or at cost without one. */
  function WorthOf(a: Account, quotes: map<Symbol, real>): string -> real {
    s => if s in quotes then Amount(quotes[s], Held(a, s).quantity) else Amount(Held(a, s).avgCost, Held(a, s).quantity)
  }

  /** What it stands above its cost, where it has a quote. */
  function GainOf(a: Account, quotes: map<Symbol, real>): string -> real {
    s => if s in quotes then Gained(quotes[s], Held(a, s).avgCost, Held(a, s).quantity) else 0.0
  }

  /** The account in one answer. Total equity is the balance plus every open position at its quote, or at cost without
      one; total unrealized P/L is what the quoted ones stand above their cost; and the two differ by exactly cash plus
      cost basis, whichever symbols could be priced. */
  method Portfolio(a: Account, quotes: map<Symbol, real>, schedule: seq<nat>)
    returns (positions: seq<PricedPosition>, totalEquity: real, totalUnrealizedPL: real)
    requires NothingNegative(a) && Completes(schedule, |ListHoldings(a)|)
    ensures |positions| == |ListHoldings(a)|
    ensures forall i :: 0 <= i < |positions| ==>
              var h := ListHoldings(a)[i];
              && positions[i].holding == h
              && positions[i].latestPrice == (if h.symbol in quotes then Some(quotes[h.symbol]) else None)
              && positions[i].unrealizedPL == GainOf(a, quotes)(h.symbol)
    ensures totalEquity == a.balance + SumOver(WorthOf(a, quotes), OpenSymbols(a))
    ensures totalUnrealizedPL == SumOver(GainOf(a, quotes), OpenSymbols(a))
    ensures totalEquity - totalUnrealizedPL == Book(a)
  {
    hide Amount, Shares, Gained, SortedKeys, HoldingsOf, Book;
    var symbols := SortedKeys(OpenSymbols(a));
    var holdings := ListHoldings(a);
    positions := PriceAll(holdings, quotes, schedule);
    totalEquity, totalUnrealizedPL := a.balance, 0.0;
    for i := 0 to |positions|
      invariant totalEquity == a.balance + SumList(WorthOf(a, quotes), symbols[..i])
      invariant totalUnrealizedPL == SumList(GainOf(a, quotes), symbols[..i])
      invariant forall k :: 0 <= k < i ==> positions[k].unrealizedPL == GainOf(a, quotes)(holdings[k].symbol)
    {
      SumStep(WorthOf(a, quotes), symbols, i);
      SumStep(GainOf(a, quotes), symbols, i);
      HoldingAt(a, symbols, i);
      var h := positions[i].holding;
      var value := Amount(h.avgCost, h.quantity);
      if positions[i].latestPrice.Some? {
        value := Amount(positions[i].latestPrice.value, h.quantity);
      }
      totalEquity := totalEquity + value;
      totalUnrealizedPL := totalUnrealizedPL + positions[i].unrealizedPL;
    }
    assert symbols[..|symbols|] == symbols;
    SumListIsSumOver(WorthOf(a, quotes), symbols, OpenSymbols(a));
    SumListIsSumOver(GainOf(a, quotes), symbols, OpenSymbols(a));
    PricingCancels(a, quotes, OpenSymbols(a));
    SumSkipsZeroBasis(a);
  }

  lemma SumStep(f: string -> real, symbols: seq<Symbol>, i: nat)
    requires i < |symbols|
    ensures SumList(f, symbols[..i + 1]) == SumList(f, symbols[..i]) + f(symbols[i])
  {
    assert symbols[..i + 1][..i] == symbols[..i];
  }

  lemma {:induction false} HoldingAt(a: Account, symbols: seq<Symbol>, i: nat)
    requires i < |symbols|
    ensures HoldingsOf(a, symbols)[i] == Holding(symbols[i], Held(a, symbols[i]).quantity, Held(a, symbols[i]).avgCost)
  {
    if i < |symbols| - 1 {
      HoldingAt(a, symbols[..|symbols| - 1], i);
    }
  }

  /** Worth less gain is cost, quoted or not. */
  lemma PricingCancels(a: Account, quotes: map<Symbol, real>, symbols: set<Symbol>)
    ensures SumOver(WorthOf(a, quotes), symbols) - SumOver(GainOf(a, quotes), symbols) == SumOver(BasisOf(a), symbols)
  {
    hide Amount, Gained;
    forall s | s in symbols ensures WorthOf(a, quotes)(s) - GainOf(a, quotes)(s) == BasisOf(a)(s) {
      if s in quotes {
        GainSplits(quotes[s], Held(a, s).avgCost, Held(a, s).quantity);
      }
    }
    SumDifference(WorthOf(a, quotes), GainOf(a, quotes), BasisOf(a), symbols);
  }

  lemma GainSplits(quote: real, cost: real, ticks: int)
    ensures Gained(quote, cost, ticks) == Amount(quote, ticks) - Amount(cost, ticks)
  {
    assert (quote - cost) * Shares(ticks) == quote * Shares(ticks) - cost * Shares(ticks);
  }

  lemma SumSkipsZeroBasis(a: Account)
    requires NothingNegative(a)
    ensures a.balance + SumOver(BasisOf(a), OpenSymbols(a)) == Book(a)
  {
    SumSkipsZeros(BasisOf(a), a.positions.Keys, OpenSymbols(a));
  }

  /** Raising one quote raises both totals by the raise times the shares held, and nothing else; and it touches no total
      at all where nothing is held. */
  lemma QuoteMovesTotals(a: Account, quotes: map<Symbol, real>, symbol: Symbol, raise: real)
    requires symbol in quotes
    ensures var raised := quotes[symbol := quotes[symbol] + raise];
            var moved := if symbol in OpenSymbols(a) then Amount(raise, Held(a, symbol).quantity) else 0.0;
            && SumOver(WorthOf(a, raised), OpenSymbols(a)) == SumOver(WorthOf(a, quotes), OpenSymbols(a)) + moved
            && SumOver(GainOf(a, raised), OpenSymbols(a)) == SumOver(GainOf(a, quotes), OpenSymbols(a)) + moved
  {
    hide Amount, Gained;
    var raised, open := quotes[symbol := quotes[symbol] + raise], OpenSymbols(a);
    var h := Held(a, symbol);
    if symbol in open {
      RaiseAdds(quotes[symbol], raise, h.avgCost, h.quantity);
      SumMoves(WorthOf(a, raised), WorthOf(a, quotes), open, symbol, Amount(raise, h.quantity));
      SumMoves(GainOf(a, raised), GainOf(a, quotes), open, symbol, Amount(raise, h.quantity));
    } else {
      SumCongruent(WorthOf(a, raised), WorthOf(a, quotes), open);
      SumCongruent(GainOf(a, raised), GainOf(a, quotes), open);
    }
  }

  lemma RaiseAdds(quote: real, raise: real, cost: real, ticks: int)
    ensures Amount(quote + raise, ticks) == Amount(quote, ticks) + Amount(raise, ticks)
    ensures Gained(quote + raise, cost, ticks) == Gained(quote, cost, ticks) + Amount(raise, ticks)
  {
    assert (quote + raise) * Shares(ticks) == quote * Shares(ticks) + raise * Shares(ticks);
    assert (quote + raise - cost) * Shares(ticks) == (quote - cost) * Shares(ticks) + raise * Shares(ticks);
  }

  /** Total equity is the opening balance plus realized plus unrealized P/L, whichever symbols could be priced when it
      was asked for: exactly in exact arithmetic, and within the run's slack under four-decimal storage. */
  method PortfolioOfRun(column: Column, orders: seq<OrderParams>, quotes: map<Symbol, real>, schedule: seq<nat>)
    returns (totalEquity: real, totalUnrealizedPL: real)
    requires Completes(schedule, |ListHoldings(RunOrders(column, orders))|)
    ensures var a := RunOrders(column, orders);
            && totalEquity == a.balance + SumOver(WorthOf(a, quotes), OpenSymbols(a))
            && totalUnrealizedPL == SumOver(GainOf(a, quotes), OpenSymbols(a))
    ensures var owed := Opened().balance + Realized(RunOrders(column, orders).trades) + totalUnrealizedPL;
            && -RunSlack(column, orders) <= totalEquity - owed <= RunSlack(column, orders)
            && (column.Exact? ==> totalEquity == owed)
  {
    hide RunFrom, Book, Realized, ListHoldings;
    RunNonnegative(column, Opened().balance, orders);
    ProfitIsConserved(column, orders);
    if column.Exact? {
      ExactRunsHaveNoSlack(orders);
    }
    var positions;
    positions, totalEquity, totalUnrealizedPL := Portfolio(RunOrders(column, orders), quotes, schedule);
  }
}
