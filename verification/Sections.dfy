/** The sections of a portfolio report, each read off the reconstruction and the stored closes. */
module Sections {
  import opened Numeric
  import opened Wrappers
  import opened Market
  import opened Ordering
  import opened Reconstruct
  import opened PortfolioMath
  import opened Statistics

  const MIN_TRADING_DAYS: nat := 2

  // ---- risk

  datatype PositionWeight = PositionWeight(symbol: Symbol, quantity: int, marketValue: real, weightPct: real)

  datatype RiskSection =
    | RiskUnavailable
    | Risk(positions: seq<PositionWeight>, cashWeightPct: real, concentrationHHI: real, largestPositionPct: real,
           annualizedVolatilityPct: real, maxDrawdownPct: real)

  function WeightPct(value: real, equity: real): real {
    if equity != 0.0 then value / equity * 100.0 else 0.0
  }

  /** Every holding at its close, in symbol order; the weights come later. */
  function Valued(symbols: seq<Symbol>, holdings: Holdings, closes: Closes, date: int): (p: seq<PositionWeight>)
    ensures |p| == |symbols|
  {
    if symbols == [] then []
    else
      var last := symbols[|symbols| - 1];
      var value := Amount(CloseOn(closes, last, date), Quantity(holdings, last));
      Valued(symbols[..|symbols| - 1], holdings, closes, date) + [PositionWeight(last, Quantity(holdings, last), value, 0.0)]
  }

  function Weighed(p: PositionWeight, equity: real): PositionWeight {
    p.(weightPct := WeightPct(p.marketValue, equity))
  }

  function Weighted(positions: seq<PositionWeight>, equity: real): (w: seq<PositionWeight>)
    ensures |w| == |positions|
    ensures forall i :: 0 <= i < |positions| ==> w[i] == Weighed(positions[i], equity)
  {
    seq(|positions|, i requires 0 <= i < |positions| => Weighed(positions[i], equity))
  }

  function Total(f: PositionWeight -> real, positions: seq<PositionWeight>): real {
    if positions == [] then 0.0 else Total(f, positions[..|positions| - 1]) + f(positions[|positions| - 1])
  }

  function MarketValue(p: PositionWeight): real { p.marketValue }

  function Weight(p: PositionWeight): real { p.weightPct }

  function Invested(positions: seq<PositionWeight>): real {
    Total(MarketValue, positions)
  }

  function LargestWeight(positions: seq<PositionWeight>): real {
    if positions == [] then 0.0
    else
      var earlier := LargestWeight(positions[..|positions| - 1]);
      var last := positions[|positions| - 1].weightPct;
      if last > earlier then last else earlier
  }

  function ShareOf(value: real, invested: real): real
    requires invested != 0.0
  {
    value / invested
  }

  function SquaredShare(invested: real): PositionWeight -> real
    requires invested != 0.0
  {
    (p: PositionWeight) => SquareOf(ShareOf(p.marketValue, invested))
  }

  function HHI(positions: seq<PositionWeight>, invested: real): real {
    if invested == 0.0 then 0.0 else Total(SquaredShare(invested), positions)
  }

  /** Largest first, the earlier symbol first among equals. */
  predicate RanksBefore(a: PositionWeight, b: PositionWeight) {
    if a.marketValue != b.marketValue then a.marketValue > b.marketValue else AtMost(a.symbol, b.symbol)
  }

  function InsertRanked(sorted: seq<PositionWeight>, p: PositionWeight): seq<PositionWeight> {
    if sorted == [] || RanksBefore(sorted[|sorted| - 1], p) then sorted + [p]
    else InsertRanked(sorted[..|sorted| - 1], p) + [sorted[|sorted| - 1]]
  }

  function Ranked(positions: seq<PositionWeight>): seq<PositionWeight> {
    if positions == [] then [] else InsertRanked(Ranked(positions[..|positions| - 1]), positions[|positions| - 1])
  }

  function RiskOf(root: Root, r: Reconstruction, closes: Closes): RiskSection
    requires |r.dates| == |r.equity| == |r.cash|
  {
    if |r.dates| < MIN_TRADING_DAYS then RiskUnavailable
    else
      var last := |r.dates| - 1;
      var valued := Valued(SortedKeys(r.holdings.Keys), r.holdings, closes, r.dates[last]);
      var positions := Weighted(valued, r.equity[last]);
      Risk(Ranked(positions), WeightPct(r.cash[last], r.equity[last]), HHI(Ranked(positions), Invested(valued)),
           LargestWeight(positions), VolatilityOf(root, r.equity), MaxDrawdown(r.equity))
  }

  method ConcentrationHHI(positions: seq<PositionWeight>, invested: real) returns (hhi: real)
    ensures hhi == HHI(positions, invested)
  {
    hide SquareOf, ShareOf;
    if invested == 0.0 {
      return 0.0;
    }
    hhi := 0.0;
    for i := 0 to |positions|
      invariant hhi == Total(SquaredShare(invested), positions[..i])
    {
      assert positions[..i + 1][..i] == positions[..i];
      var w := ShareOf(positions[i].marketValue, invested);
      hhi := hhi + SquareOf(w);
    }
    assert positions[..|positions|] == positions;
  }

  lemma ValuedStep(symbols: seq<Symbol>, k: nat, holdings: Holdings, closes: Closes, date: int)
    requires k < |symbols|
    ensures var value := Amount(CloseOn(closes, symbols[k], date), Quantity(holdings, symbols[k]));
            var earlier := Valued(symbols[..k], holdings, closes, date);
            && Valued(symbols[..k + 1], holdings, closes, date)
               == earlier + [PositionWeight(symbols[k], Quantity(holdings, symbols[k]), value, 0.0)]
            && Invested(Valued(symbols[..k + 1], holdings, closes, date)) == Invested(earlier) + value
  {
    hide Amount, CloseOn;
    var earlier := Valued(symbols[..k], holdings, closes, date);
    assert symbols[..k + 1][..k] == symbols[..k];
    assert Valued(symbols[..k + 1], holdings, closes, date)[..k] == earlier;
  }

  /** The first pass of the risk section: value each holding, or fail on the first with no close. */
  method ValueHoldings(symbols: seq<Symbol>, holdings: Holdings, closes: Closes, date: int)
    returns (r: Result<seq<PositionWeight>, MissingClose>, invested: real)
    requires forall s :: s in symbols ==> s in holdings
    ensures var unpriced := UnpricedIn(symbols, closes, date);
            if unpriced.Some? then r == Err(MissingClose(unpriced.value, date))
            else r == Ok(Valued(symbols, holdings, closes, date)) && invested == Invested(Valued(symbols, holdings, closes, date))
  {
    hide Amount, UnpricedIn, Valued, Invested, Worth;
    var positions: seq<PositionWeight> := [];
    invested := 0.0;
    NothingValued(holdings, closes, date);
    for k := 0 to |symbols|
      invariant UnpricedIn(symbols[..k], closes, date) == None
      invariant positions == Valued(symbols[..k], holdings, closes, date) && invested == Invested(positions)
    {
      var symbol := symbols[k];
      SymbolStep(symbols, k, holdings, closes, date);
      ValuedStep(symbols, k, holdings, closes, date);
      if symbol !in closes || date !in closes[symbol] {
        UnpricedStays(symbols, k + 1, closes, date);
        return Err(MissingClose(symbol, date)), 0.0;
      }
      var value := Amount(closes[symbol][date], holdings[symbol]);
      invested := invested + value;
      positions := positions + [PositionWeight(symbol, holdings[symbol], value, 0.0)];
    }
    assert symbols[..|symbols|] == symbols;
    return Ok(positions), invested;
  }

  lemma NothingValued(holdings: Holdings, closes: Closes, date: int)
    ensures UnpricedIn([], closes, date) == None
    ensures Valued([], holdings, closes, date) == [] && Invested([]) == 0.0
  {}

  /** The second pass: each position's share of total equity, in place, and the largest of them. */
  method FillWeights(positions0: seq<PositionWeight>, equity: real) returns (positions: seq<PositionWeight>, largest: real)
    ensures positions == Weighted(positions0, equity) && largest == LargestWeight(positions)
  {
    hide WeightPct;
    ghost var target := Weighted(positions0, equity);
    positions := positions0;
    largest := 0.0;
    for i := 0 to |positions0|
      invariant |positions| == |positions0| && largest == LargestWeight(target[..i])
      invariant forall k :: 0 <= k < |positions0| ==> positions[k] == if k < i then target[k] else positions0[k]
    {
      assert target[..i + 1][..i] == target[..i];
      positions := positions[i := Weighed(positions[i], equity)];
      if positions[i].weightPct > largest {
        largest := positions[i].weightPct;
      }
    }
    assert target[..|target|] == target;
  }

  /** The first holding with no close on the last date, when there is a section to compute at all. */
  function RiskGap(r: Reconstruction, closes: Closes): Option<MissingClose> {
    if |r.dates| < MIN_TRADING_DAYS then None
    else
      var asOf := r.dates[|r.dates| - 1];
      var unpriced := UnpricedIn(SortedKeys(r.holdings.Keys), closes, asOf);
      if unpriced.Some? then Some(MissingClose(unpriced.value, asOf)) else None
  }

  method ComputeRisk(root: Root, r: Reconstruction, closes: Closes)
    returns (section: Result<RiskSection, MissingClose>)
    requires |r.dates| == |r.equity| == |r.cash|
    ensures section == if RiskGap(r, closes).Some? then Err(RiskGap(r, closes).value) else Ok(RiskOf(root, r, closes))
  {
    hide SortedKeys, UnpricedIn, Valued, HHI, LargestWeight, Ranked, MaxDrawdown, VolatilityOf, Invested, WeightPct;
    if |r.dates| < MIN_TRADING_DAYS {
      return Ok(RiskUnavailable);
    }
    var last := |r.dates| - 1;
    var valued, invested := ValueHoldings(SortedKeys(r.holdings.Keys), r.holdings, closes, r.dates[last]);
    if valued.Err? {
      return Err(valued.error);
    }
    var positions, largest := FillWeights(valued.value, r.equity[last]);
    var ranked := Ranked(positions);
    var hhi := ConcentrationHHI(ranked, invested);
    var maxDD := MaxDrawdownPct(r.equity);
    var volatility := Volatility(root, r.equity);
    return Ok(Risk(ranked, WeightPct(r.cash[last], r.equity[last]), hhi, largest, volatility, maxDD));
  }

  // ---- the risk figures add up

  lemma TotalStep(f: PositionWeight -> real, positions: seq<PositionWeight>)
    requires positions != []
    ensures Total(f, positions) == Total(f, positions[..|positions| - 1]) + f(positions[|positions| - 1])
  {}

  lemma RankedStep(positions: seq<PositionWeight>)
    requires positions != []
    ensures Ranked(positions) == InsertRanked(Ranked(positions[..|positions| - 1]), positions[|positions| - 1])
  {
    hide InsertRanked;
  }

  lemma TotalAppend(f: PositionWeight -> real, positions: seq<PositionWeight>, p: PositionWeight)
    ensures Total(f, positions + [p]) == Total(f, positions) + f(p)
  {
    assert (positions + [p])[..|positions|] == positions;
  }

  lemma {:induction false} InsertRankedAdds(f: PositionWeight -> real, sorted: seq<PositionWeight>, p: PositionWeight)
    ensures Total(f, InsertRanked(sorted, p)) == Total(f, sorted) + f(p)
  {
    hide RanksBefore, Total;
    TotalAppend(f, sorted, p);
    if sorted != [] && !RanksBefore(sorted[|sorted| - 1], p) {
      var last := sorted[|sorted| - 1];
      InsertRankedAdds(f, sorted[..|sorted| - 1], p);
      TotalStep(f, sorted);
      TotalAppend(f, InsertRanked(sorted[..|sorted| - 1], p), last);
    }
  }

  lemma {:induction false} InsertRankedPermutes(sorted: seq<PositionWeight>, p: PositionWeight)
    ensures multiset(InsertRanked(sorted, p)) == multiset(sorted) + multiset{p}
  {
    hide RanksBefore;
    if sorted != [] && !RanksBefore(sorted[|sorted| - 1], p) {
      InsertRankedPermutes(sorted[..|sorted| - 1], p);
      assert sorted == sorted[..|sorted| - 1] + [sorted[|sorted| - 1]];
    }
  }

  /** Ranking only reorders: every total over the positions is the same afterwards. */
  lemma {:induction false} RankedAdds(f: PositionWeight -> real, positions: seq<PositionWeight>)
    ensures Total(f, Ranked(positions)) == Total(f, positions)
  {
    if positions != [] {
      hide InsertRanked, Ranked, Total;
      RankedAdds(f, positions[..|positions| - 1]);
      RankedStep(positions);
      TotalStep(f, positions);
      InsertRankedAdds(f, Ranked(positions[..|positions| - 1]), positions[|positions| - 1]);
    }
  }

  ghost predicate InRankOrder(positions: seq<PositionWeight>) {
    forall i, j :: 0 <= i < j < |positions| ==> RanksBefore(positions[i], positions[j])
  }

  lemma RanksTransitive(a: PositionWeight, b: PositionWeight, c: PositionWeight)
    requires RanksBefore(a, b) && RanksBefore(b, c)
    ensures RanksBefore(a, c)
  {
    if a.marketValue == b.marketValue == c.marketValue {
      AtMostTransitive(a.symbol, b.symbol, c.symbol);
    }
  }

  lemma {:induction false} InsertKeepsRankOrder(sorted: seq<PositionWeight>, p: PositionWeight)
    requires InRankOrder(sorted)
    ensures InRankOrder(InsertRanked(sorted, p))
  {
    hide RanksBefore;
    if sorted != [] {
      var last := sorted[|sorted| - 1];
      if RanksBefore(last, p) {
        forall i | 0 <= i < |sorted| - 1 ensures RanksBefore(sorted[i], p) {
          RanksTransitive(sorted[i], last, p);
        }
      } else {
        var shorter := InsertRanked(sorted[..|sorted| - 1], p);
        InsertKeepsRankOrder(sorted[..|sorted| - 1], p);
        InsertRankedPermutes(sorted[..|sorted| - 1], p);
        RanksTotal(last, p);
        forall i | 0 <= i < |shorter| ensures RanksBefore(shorter[i], last) {
          assert shorter[i] in multiset(shorter);
          assert shorter[i] == p || shorter[i] in sorted[..|sorted| - 1];
        }
      }
    }
  }

  lemma RanksTotal(a: PositionWeight, b: PositionWeight)
    ensures RanksBefore(a, b) || RanksBefore(b, a)
  {
    AtMostTotal(a.symbol, b.symbol);
  }

  /** The positions come out largest first, symbol by symbol among equals, none lost and none added. */
  lemma {:induction false} RankedIsSorted(positions: seq<PositionWeight>)
    ensures InRankOrder(Ranked(positions)) && multiset(Ranked(positions)) == multiset(positions)
  {
    if positions != [] {
      hide InsertRanked, RanksBefore;
      var earlier, last := positions[..|positions| - 1], positions[|positions| - 1];
      RankedIsSorted(earlier);
      InsertKeepsRankOrder(Ranked(earlier), last);
      InsertRankedPermutes(Ranked(earlier), last);
      assert positions == earlier + [last];
    }
  }

  lemma {:induction false} WeightsAreShares(positions: seq<PositionWeight>, equity: real)
    requires equity != 0.0
    ensures Total(Weight, Weighted(positions, equity)) == Invested(positions) / equity * 100.0
  {
    if positions != [] {
      var earlier, last := positions[..|positions| - 1], positions[|positions| - 1];
      WeightsAreShares(earlier, equity);
      assert Weighted(positions, equity)[..|positions| - 1] == Weighted(earlier, equity);
      SharesAdd(Invested(earlier), last.marketValue, equity);
    }
  }

  lemma SharesAdd(x: real, y: real, equity: real)
    requires equity != 0.0
    ensures (x + y) / equity * 100.0 == x / equity * 100.0 + y / equity * 100.0
  {
    var a, b := x / equity, y / equity;
    assert a * equity == x && b * equity == y;
    QuotientIs(x + y, equity, a + b);
  }

  lemma {:induction false} InvestedIsWorth(symbols: seq<Symbol>, holdings: Holdings, closes: Closes, date: int)
    ensures Invested(Valued(symbols, holdings, closes, date)) == Worth(symbols, holdings, closes, date)
  {
    if symbols != [] {
      hide Amount, CloseOn;
      InvestedIsWorth(symbols[..|symbols| - 1], holdings, closes, date);
      ValuedStep(symbols, |symbols| - 1, holdings, closes, date);
      assert symbols[..|symbols| - 1 + 1] == symbols;
    }
  }

  /** A curve whose last point is cash plus the holdings at that day's closes. */
  ghost predicate MarkedAtEnd(r: Reconstruction, closes: Closes) {
    && |r.dates| == |r.equity| == |r.cash|
    && (r.dates != [] ==> var last := |r.dates| - 1;
          r.equity[last] == Equity(r.cash[last], r.holdings, closes, r.dates[last]))
  }

  /** The weights are shares of the whole: positions and cash come to exactly a hundred percent. */
  lemma WeightsSumToHundred(root: Root, r: Reconstruction, closes: Closes)
    requires MarkedAtEnd(r, closes) && |r.dates| >= MIN_TRADING_DAYS && r.equity[|r.equity| - 1] != 0.0
    ensures var risk := RiskOf(root, r, closes); Total(Weight, risk.positions) + risk.cashWeightPct == 100.0
  {
    hide SortedKeys, Total, Valued, Worth, HHI, LargestWeight, MaxDrawdown, Ranked;
    var last := |r.dates| - 1;
    var symbols, equity, cash := SortedKeys(r.holdings.Keys), r.equity[last], r.cash[last];
    var valued := Valued(symbols, r.holdings, closes, r.dates[last]);
    RankedAdds(Weight, Weighted(valued, equity));
    WeightsAreShares(valued, equity);
    InvestedIsWorth(symbols, r.holdings, closes, r.dates[last]);
    SharesAdd(Invested(valued), cash, equity);
    QuotientIs(equity, equity, 1.0);
  }

  // ---- concentration

  ghost predicate PositiveValues(positions: seq<PositionWeight>) {
    forall i :: 0 <= i < |positions| ==> positions[i].marketValue > 0.0
  }

  lemma {:induction false} InvestedCovers(positions: seq<PositionWeight>)
    requires PositiveValues(positions)
    ensures Invested(positions) >= 0.0 && (positions != [] ==> Invested(positions) > 0.0)
    ensures forall i :: 0 <= i < |positions| ==> positions[i].marketValue <= Invested(positions)
  {
    if positions != [] {
      InvestedCovers(positions[..|positions| - 1]);
      assert forall i :: 0 <= i < |positions| - 1 ==> positions[i] == positions[..|positions| - 1][i];
    }
  }

  function Share(invested: real): PositionWeight -> real
    requires invested != 0.0
  {
    (p: PositionWeight) => ShareOf(p.marketValue, invested)
  }

  /** A line that touches the parabola at c, and is nowhere above it. */
  function Tangent(c: real, w: real): real {
    2.0 * c * w - c * c
  }

  lemma SquareOfShare(value: real, invested: real, c: real)
    requires invested > 0.0 && 0.0 < value <= invested
    ensures var w := ShareOf(value, invested); Tangent(c, w) <= SquareOf(w) <= w
  {
    var w := ShareOf(value, invested);
    assert w * invested == value;
    FactorNonnegative(1.0 - w, invested);
    assert w >= 0.0;
    assert (w - c) * (w - c) >= 0.0;
    assert w * (1.0 - w) >= 0.0;
  }

  lemma {:induction false} SharesAddUp(positions: seq<PositionWeight>, invested: real)
    requires invested != 0.0
    ensures Total(Share(invested), positions) == ShareOf(Invested(positions), invested)
  {
    if positions != [] {
      hide Total, ShareOf;
      TotalStep(Share(invested), positions);
      TotalStep(MarketValue, positions);
      SharesAddUp(positions[..|positions| - 1], invested);
      ShareAdds(Invested(positions[..|positions| - 1]), positions[|positions| - 1].marketValue, invested);
    }
  }

  lemma ShareAdds(x: real, y: real, invested: real)
    requires invested != 0.0
    ensures ShareOf(x + y, invested) == ShareOf(x, invested) + ShareOf(y, invested)
  {
    var a, b := x / invested, y / invested;
    assert a * invested == x && b * invested == y;
    QuotientIs(x + y, invested, a + b);
  }

  /** The tangent's total, for n shares that come to total. */
  function Line(c: real, n: real, total: real): real {
    2.0 * c * total - n * (c * c)
  }

  lemma LineStep(c: real, n: real, total: real, w: real)
    ensures Line(c, n + 1.0, total + w) == Line(c, n, total) + Tangent(c, w)
  {
    assert 2.0 * c * (total + w) == 2.0 * c * total + 2.0 * c * w;
    assert (n + 1.0) * (c * c) == n * (c * c) + c * c;
  }

  lemma {:induction false} SquaresBound(positions: seq<PositionWeight>, invested: real, c: real)
    requires invested > 0.0 && PositiveValues(positions)
    requires forall i :: 0 <= i < |positions| ==> positions[i].marketValue <= invested
    ensures var squares, shares := Total(SquaredShare(invested), positions), Total(Share(invested), positions);
            Line(c, |positions| as real, shares) <= squares <= shares
  {
    if positions == [] {
      assert Line(c, 0.0, 0.0) == 0.0;
    } else {
      hide Total, SquareOf, ShareOf, Line, Tangent;
      var earlier, last := positions[..|positions| - 1], positions[|positions| - 1];
      SquaresBound(earlier, invested, c);
      SquareOfShare(last.marketValue, invested, c);
      TotalStep(SquaredShare(invested), positions);
      TotalStep(Share(invested), positions);
      LineStep(c, |earlier| as real, Total(Share(invested), earlier), ShareOf(last.marketValue, invested));
    }
  }

  /** Concentration runs from 1/n, when n holdings are equal, up to 1, and is 1 for a single holding. */
  lemma ConcentrationRange(positions: seq<PositionWeight>)
    requires positions != [] && PositiveValues(positions)
    ensures var hhi := HHI(Ranked(positions), Invested(positions));
            1.0 / |positions| as real <= hhi <= 1.0 && (|positions| == 1 ==> hhi == 1.0)
  {
    hide Total, Ranked, Line;
    InvestedCovers(positions);
    var invested, n := Invested(positions), |positions| as real;
    RankedAdds(SquaredShare(invested), positions);
    SquaresBound(positions, invested, 1.0 / n);
    SharesAddUp(positions, invested);
    QuotientIs(invested, invested, 1.0);
    LineAtMean(n);
  }

  lemma LineAtMean(n: real)
    requires n >= 1.0
    ensures Line(1.0 / n, n, 1.0) == 1.0 / n
  {
    var c := 1.0 / n;
    assert n * c == 1.0;
    assert n * (c * c) == (n * c) * c;
  }
}
