/** What each figure of the risk section is. */
module RiskReport {
  import opened Numeric
  import opened Wrappers
  import opened Market
  import opened Ordering
  import opened Reconstruct
  import opened PortfolioMath
  import opened Statistics
  import opened Sections

  // ---- the listed positions

  /** A position as it stands on the last date: the held quantity, at that date's close, as its share of equity. */
  ghost predicate ListsHolding(p: PositionWeight, holdings: Holdings, closes: Closes, date: int, equity: real) {
    && p.symbol in holdings && p.quantity == holdings[p.symbol]
    && p.marketValue == CloseOn(closes, p.symbol, date) * Shares(p.quantity)
    && if equity == 0.0 then p.weightPct == 0.0 else p.weightPct * equity == p.marketValue * 100.0
  }

  lemma {:induction false} ValuedAt(symbols: seq<Symbol>, holdings: Holdings, closes: Closes, date: int, i: nat)
    requires i < |symbols|
    ensures var p := Valued(symbols, holdings, closes, date)[i];
            && p.symbol == symbols[i] && p.quantity == Quantity(holdings, symbols[i])
            && p.marketValue == Amount(CloseOn(closes, symbols[i], date), Quantity(holdings, symbols[i]))
  {
    hide Amount, CloseOn;
    if i < |symbols| - 1 {
      ValuedAt(symbols[..|symbols| - 1], holdings, closes, date, i);
    }
  }

  lemma WeighedLists(p: PositionWeight, equity: real)
    ensures var w := Weighed(p, equity);
            && w.symbol == p.symbol && w.quantity == p.quantity && w.marketValue == p.marketValue
            && if equity == 0.0 then w.weightPct == 0.0 else w.weightPct * equity == p.marketValue * 100.0
  {
    if equity != 0.0 {
      var q := p.marketValue / equity;
      assert q * equity == p.marketValue;
      assert (q * 100.0) * equity == (q * equity) * 100.0;
    }
  }

  /** The positions before they are ranked. */
  function Unranked(r: Reconstruction, closes: Closes): (positions: seq<PositionWeight>)
    requires 0 < |r.dates| == |r.equity| == |r.cash|
    ensures |positions| == |SortedKeys(r.holdings.Keys)|
  {
    var last := |r.dates| - 1;
    Weighted(Valued(SortedKeys(r.holdings.Keys), r.holdings, closes, r.dates[last]), r.equity[last])
  }

  lemma UnrankedLists(r: Reconstruction, closes: Closes, i: nat)
    requires 0 < |r.dates| == |r.equity| == |r.cash| && i < |SortedKeys(r.holdings.Keys)|
    ensures var p, last := Unranked(r, closes)[i], |r.dates| - 1;
            && p.symbol == SortedKeys(r.holdings.Keys)[i]
            && ListsHolding(p, r.holdings, closes, r.dates[last], r.equity[last])
  {
    hide SortedKeys, Valued, CloseOn, Weighed;
    var symbols, last := SortedKeys(r.holdings.Keys), |r.dates| - 1;
    assert symbols[i] in symbols;
    ValuedAt(symbols, r.holdings, closes, r.dates[last], i);
    WeighedLists(Valued(symbols, r.holdings, closes, r.dates[last])[i], r.equity[last]);
  }

  /** Every position listed is a holding as it stands, and every holding is listed, once. */
  lemma PositionsAreHoldings(root: Root, r: Reconstruction, closes: Closes)
    requires MIN_TRADING_DAYS <= |r.dates| == |r.equity| == |r.cash|
    ensures var risk, last := RiskOf(root, r, closes), |r.dates| - 1;
            && |risk.positions| == |r.holdings|
            && (forall p :: p in risk.positions ==> ListsHolding(p, r.holdings, closes, r.dates[last], r.equity[last]))
            && forall s :: s in r.holdings ==> exists p :: p in risk.positions && p.symbol == s
  {
    hide SortedKeys, Valued, Weighted, Ranked, HHI, LargestWeight, VolatilityOf, MaxDrawdown, WeightPct, ListsHolding;
    var positions, symbols := Unranked(r, closes), SortedKeys(r.holdings.Keys);
    var ranked := Ranked(positions);
    RankedIsSorted(positions);
    KeysCounted(r.holdings.Keys);
    assert |r.holdings.Keys| == |r.holdings|;
    assert |multiset(ranked)| == |multiset(positions)|;
    forall p | p in ranked ensures ListsHolding(p, r.holdings, closes, r.dates[|r.dates| - 1], r.equity[|r.dates| - 1]) {
      assert p in multiset(ranked);
      var i :| 0 <= i < |positions| && positions[i] == p;
      UnrankedLists(r, closes, i);
    }
    forall s | s in r.holdings ensures exists p :: p in ranked && p.symbol == s {
      var i :| 0 <= i < |symbols| && symbols[i] == s;
      UnrankedLists(r, closes, i);
      assert positions[i] in multiset(positions);
      assert positions[i] in ranked;
    }
  }

  /** Largest first, and in ascending order of symbol among equals. */
  lemma LargestComeFirst(root: Root, r: Reconstruction, closes: Closes, i: nat, j: nat)
    requires MIN_TRADING_DAYS <= |r.dates| == |r.equity| == |r.cash|
    requires i < j < |RiskOf(root, r, closes).positions|
    ensures var p, q := RiskOf(root, r, closes).positions[i], RiskOf(root, r, closes).positions[j];
            p.marketValue > q.marketValue || (p.marketValue == q.marketValue && AtMost(p.symbol, q.symbol))
  {
    hide Ranked, AtMost, HHI, VolatilityOf, MaxDrawdown, LargestWeight, WeightPct, Valued, Weighted;
    RankedIsSorted(Unranked(r, closes));
    var positions := Ranked(Unranked(r, closes));
    assert RanksBefore(positions[i], positions[j]);
  }

  // ---- the figures beside them

  lemma {:induction false} LargestIsLargest(positions: seq<PositionWeight>)
    ensures var largest := LargestWeight(positions);
            && largest >= 0.0 && (forall p :: p in positions ==> p.weightPct <= largest)
            && (largest == 0.0 || exists p :: p in positions && p.weightPct == largest)
  {
    if positions != [] {
      var last := positions[|positions| - 1];
      LargestIsLargest(positions[..|positions| - 1]);
      assert positions == positions[..|positions| - 1] + [last];
      assert last in positions;
    }
  }

  lemma LargestIgnoresRank(positions: seq<PositionWeight>)
    ensures forall p :: p in Ranked(positions) <==> p in positions
  {
    hide Ranked;
    RankedIsSorted(positions);
    forall p ensures p in Ranked(positions) <==> p in positions {
      assert p in multiset(Ranked(positions)) <==> p in multiset(positions);
    }
  }

  lemma CashWeighs(cash: real, equity: real)
    ensures if equity == 0.0 then WeightPct(cash, equity) == 0.0 else WeightPct(cash, equity) * equity == cash * 100.0
  {
    if equity != 0.0 {
      var q := cash / equity;
      assert q * equity == cash;
      assert (q * 100.0) * equity == (q * equity) * 100.0;
    }
  }

  ghost predicate WorthNothing(equity: seq<real>) {
    forall i :: 0 <= i < |equity| ==> equity[i] == 0.0
  }

  /** The drawdown is the deepest decline between any two points of the curve, earlier to later; the volatility is zero
      exactly where no two daily returns differ; the largest weight bounds every listed one and is one of them, unless
      none is above zero; cash weighs what it is of equity. */
  lemma RiskFiguresAre(root: Root, r: Reconstruction, closes: Closes)
    requires MIN_TRADING_DAYS <= |r.dates| == |r.equity| == |r.cash|
    ensures var risk := RiskOf(root, r, closes);
            && (NeverNegative(r.equity) ==>
                  && NoneDeeper(r.equity, risk.maxDrawdownPct)
                  && (if WorthNothing(r.equity) then risk.maxDrawdownPct == 0.0
                      else Attained(r.equity, risk.maxDrawdownPct)))
            && (ZeroOnlyAtZero(root) ==> (risk.annualizedVolatilityPct == 0.0 <==> Steady(Returns(r.equity))))
            && (forall p :: p in risk.positions ==> p.weightPct <= risk.largestPositionPct)
            && (risk.largestPositionPct == 0.0 || exists p :: p in risk.positions && p.weightPct == risk.largestPositionPct)
            && var cash, equity := r.cash[|r.cash| - 1], r.equity[|r.equity| - 1];
               if equity == 0.0 then risk.cashWeightPct == 0.0 else risk.cashWeightPct * equity == cash * 100.0
  {
    hide Valued, Weighted, Ranked, HHI, LargestWeight, VolatilityOf, MaxDrawdown, WeightPct, Returns, Steady, SharpeOf;
    if NeverNegative(r.equity) {
      OnePassFindsTheWorstPair(r.equity);
    }
    if ZeroOnlyAtZero(root) {
      SteadyIff(root, r.equity);
    }
    hide NeverNegative, NoneDeeper, Attained, ZeroOnlyAtZero;
    LargestIsLargest(Unranked(r, closes));
    LargestIgnoresRank(Unranked(r, closes));
    CashWeighs(r.cash[|r.cash| - 1], r.equity[|r.equity| - 1]);
  }

  // ---- concentration

  /** The sum of the squared market values. */
  function SquaresOf(positions: seq<PositionWeight>): real {
    if positions == [] then 0.0
    else
      var value := positions[|positions| - 1].marketValue;
      SquaresOf(positions[..|positions| - 1]) + value * value
  }

  lemma {:induction false} SquaredSharesAre(positions: seq<PositionWeight>, invested: real)
    requires invested != 0.0
    ensures Total(SquaredShare(invested), positions) * (invested * invested) == SquaresOf(positions)
  {
    if positions != [] {
      var last := positions[|positions| - 1];
      var earlier := Total(SquaredShare(invested), positions[..|positions| - 1]);
      SquaredSharesAre(positions[..|positions| - 1], invested);
      SquareOfQuotient(last.marketValue, invested);
      TotalStep(SquaredShare(invested), positions);
      hide Total, SquareOf, ShareOf, SquaresOf;
      var share := SquaredShare(invested)(last);
      assert (earlier + share) * (invested * invested) == earlier * (invested * invested) + share * (invested * invested);
    }
  }

  lemma SquareOfQuotient(value: real, invested: real)
    requires invested != 0.0
    ensures SquareOf(ShareOf(value, invested)) * (invested * invested) == value * value
  {
    var q := value / invested;
    assert q * invested == value;
    assert (q * q) * (invested * invested) == (q * invested) * (q * invested);
  }

  /** Concentration times the square of what is invested is the sum of the squared market values, and what is invested is
      the sum of the market values; it is zero where nothing is. */
  lemma ConcentrationIs(root: Root, r: Reconstruction, closes: Closes)
    requires MIN_TRADING_DAYS <= |r.dates| == |r.equity| == |r.cash|
    ensures var risk := RiskOf(root, r, closes);
            var invested := Invested(risk.positions);
            if invested == 0.0 then risk.concentrationHHI == 0.0
            else risk.concentrationHHI * (invested * invested) == SquaresOf(risk.positions)
  {
    hide Valued, Ranked, LargestWeight, VolatilityOf, MaxDrawdown, WeightPct, Total, SquaredShare, SquaresOf;
    var valued := Valued(SortedKeys(r.holdings.Keys), r.holdings, closes, r.dates[|r.dates| - 1]);
    RankedAdds(MarketValue, Unranked(r, closes));
    WeighingKeepsValue(valued, r.equity[|r.equity| - 1]);
    if Invested(valued) != 0.0 {
      SquaredSharesAre(Ranked(Unranked(r, closes)), Invested(valued));
    }
  }

  lemma {:induction false} WeighingKeepsValue(positions: seq<PositionWeight>, equity: real)
    ensures Total(MarketValue, Weighted(positions, equity)) == Total(MarketValue, positions)
  {
    if positions != [] {
      hide WeightPct;
      var earlier := positions[..|positions| - 1];
      WeighingKeepsValue(earlier, equity);
      assert Weighted(positions, equity)[..|earlier|] == Weighted(earlier, equity);
    }
  }
}
