/** The token vocabulary of one report: built once, offered to the model and substituted back. */
module Placeholders {
  import opened Wrappers
  import opened Text
  import opened Values
  import opened Narrative
  import opened Drafts

  // ---- the report, as far as it has figures

  datatype PositionView = PositionView(symbol: string, quantity: real, marketValue: real, weightPct: real)

  datatype RiskView = RiskView(ok: bool, positions: seq<PositionView>, cashWeightPct: real, concentrationHHI: real,
                               largestPositionPct: real, annualizedVolatilityPct: real, maxDrawdownPct: real)

  datatype BenchmarkView = BenchmarkView(symbol: string, returnPct: real, excessReturnPct: real, sharpe: real)

  datatype BenchmarkingView = BenchmarkingView(ok: bool, portfolioReturnPct: real, portfolioSharpe: real,
                                               benchmarks: seq<BenchmarkView>)

  datatype FindingView = FindingView(code: string, turnoverRatio: real, occurrences: nat)

  datatype BehaviorView = BehaviorView(ok: bool, tradeCount: nat, findings: seq<FindingView>)

  datatype ReportView = ReportView(asOfDate: string, startDate: string, tradingDays: nat, risk: RiskView,
                                   benchmarking: BenchmarkingView, behavior: BehaviorView)

  // ---- names

  predicate SafeChar(c: char) {
    'A' <= c <= 'Z' || 'a' <= c <= 'z' || IsDigit(c) || c == '.' || c == '_' || c == '-'
  }

  /** What may appear inside a token name. */
  predicate SafeName(s: string) {
    1 <= |s| <= 32 && forall i :: 0 <= i < |s| ==> SafeChar(s[i])
  }

  datatype WindowField = AsOfDate | StartDate | TradingDays

  function WindowName(f: WindowField): string {
    match f
    case AsOfDate => "as_of_date"
    case StartDate => "window.start_date"
    case TradingDays => "window.trading_days"
  }

  datatype RiskField = PositionCount | CashWeight | Concentration | LargestWeight | Volatility | MaxDrawdown | LargestSymbol

  function RiskName(f: RiskField): string {
    match f
    case PositionCount => "risk.position_count"
    case CashWeight => "risk.cash_weight_pct"
    case Concentration => "risk.concentration_hhi"
    case LargestWeight => "risk.largest_position_pct"
    case Volatility => "risk.annualized_volatility_pct"
    case MaxDrawdown => "risk.max_drawdown_pct"
    case LargestSymbol => "risk.largest_position_symbol"
  }

  datatype BenchmarkingField = PortfolioReturn | PortfolioSharpe | BenchmarkCount

  function BenchmarkingName(f: BenchmarkingField): string {
    match f
    case PortfolioReturn => "benchmarking.portfolio_return_pct"
    case PortfolioSharpe => "benchmarking.portfolio_sharpe"
    case BenchmarkCount => "benchmarking.benchmark_count"
  }

  datatype BehaviorField = TradeCount | FindingCount

  function BehaviorName(f: BehaviorField): string {
    match f
    case TradeCount => "behavior.trade_count"
    case FindingCount => "behavior.finding_count"
  }

  datatype ItemField = WeightPct | MarketValue | Quantity | ReturnPct | ExcessReturnPct | SharpeRatio | TurnoverRatio | Occurrences

  function FieldName(f: ItemField): string {
    match f
    case WeightPct => "weight_pct"
    case MarketValue => "market_value"
    case Quantity => "quantity"
    case ReturnPct => "return_pct"
    case ExcessReturnPct => "excess_return_pct"
    case SharpeRatio => "sharpe"
    case TurnoverRatio => "turnover_ratio"
    case Occurrences => "occurrences"
  }

  function PositionToken(symbol: string, f: ItemField): string { "risk.positions." + symbol + "." + FieldName(f) }
  function BenchmarkToken(symbol: string, f: ItemField): string { "benchmarking." + symbol + "." + FieldName(f) }
  function FindingToken(code: string, f: ItemField): string { "behavior.findings." + code + "." + FieldName(f) }

  // ---- the vocabulary, section by section

  function Offer(on: bool, name: string, v: Value): Vocabulary {
    if on then map[name := v] else map[]
  }

  function WindowTokens(r: ReportView): Vocabulary {
    Offer(r.asOfDate != "", WindowName(AsOfDate), Txt(Date, r.asOfDate))
    + Offer(r.startDate != "", WindowName(StartDate), Txt(Date, r.startDate))
    + map[WindowName(TradingDays) := Num(Count, r.tradingDays as real)]
  }

  /** The heaviest holding by weight, the first of equals. */
  function Largest(positions: seq<PositionView>): (p: PositionView)
    requires positions != []
    ensures p in positions && forall q :: q in positions ==> q.weightPct <= p.weightPct
  {
    var last := positions[|positions| - 1];
    assert positions == positions[..|positions| - 1] + [last];
    if |positions| == 1 then last
    else
      var earlier := Largest(positions[..|positions| - 1]);
      if last.weightPct > earlier.weightPct then last else earlier
  }

  function OnePosition(p: PositionView): Vocabulary {
    if !SafeName(p.symbol) then map[]
    else map[PositionToken(p.symbol, WeightPct) := Num(Percent, p.weightPct)]
         + map[PositionToken(p.symbol, MarketValue) := Num(Money, p.marketValue)]
         + map[PositionToken(p.symbol, ItemField.Quantity) := Num(Kind.Quantity, p.quantity)]
  }

  function PositionTokens(positions: seq<PositionView>): Vocabulary {
    if positions == [] then map[] else PositionTokens(positions[..|positions| - 1]) + OnePosition(positions[|positions| - 1])
  }

  function RiskFigures(risk: RiskView): Vocabulary {
    map[RiskName(PositionCount) := Num(Count, |risk.positions| as real),
        RiskName(CashWeight) := Num(Percent, risk.cashWeightPct),
        RiskName(Concentration) := Num(Index, risk.concentrationHHI),
        RiskName(LargestWeight) := Num(Percent, risk.largestPositionPct),
        RiskName(Volatility) := Num(Percent, risk.annualizedVolatilityPct),
        RiskName(MaxDrawdown) := Num(Percent, risk.maxDrawdownPct)]
  }

  /** Nothing is the largest of nothing. */
  function LargestToken(positions: seq<PositionView>): Vocabulary {
    if positions == [] then map[]
    else Offer(SafeName(Largest(positions).symbol), RiskName(LargestSymbol), Txt(SymbolName, Largest(positions).symbol))
  }

  function RiskTokens(risk: RiskView): Vocabulary {
    if !risk.ok then map[] else RiskFigures(risk) + LargestToken(risk.positions) + PositionTokens(risk.positions)
  }

  function OneBenchmark(b: BenchmarkView): Vocabulary {
    if !SafeName(b.symbol) then map[]
    else map[BenchmarkToken(b.symbol, ReturnPct) := Num(SignedPercent, b.returnPct)]
         + map[BenchmarkToken(b.symbol, ExcessReturnPct) := Num(SignedPercent, b.excessReturnPct)]
         + map[BenchmarkToken(b.symbol, SharpeRatio) := Num(Ratio, b.sharpe)]
  }

  function BenchmarkTokens(benchmarks: seq<BenchmarkView>): Vocabulary {
    if benchmarks == [] then map[]
    else BenchmarkTokens(benchmarks[..|benchmarks| - 1]) + OneBenchmark(benchmarks[|benchmarks| - 1])
  }

  function BenchmarkingFigures(b: BenchmarkingView): Vocabulary {
    map[BenchmarkingName(PortfolioReturn) := Num(SignedPercent, b.portfolioReturnPct),
        BenchmarkingName(PortfolioSharpe) := Num(Ratio, b.portfolioSharpe),
        BenchmarkingName(BenchmarkCount) := Num(Count, |b.benchmarks| as real)]
  }

  function BenchmarkingTokens(b: BenchmarkingView): Vocabulary {
    if !b.ok then map[] else BenchmarkingFigures(b) + BenchmarkTokens(b.benchmarks)
  }

  /** A zero here means absent, as it does on the wire. */
  function OneFinding(f: FindingView): Vocabulary {
    if !SafeName(f.code) then map[]
    else Offer(f.turnoverRatio != 0.0, FindingToken(f.code, TurnoverRatio), Num(Ratio, f.turnoverRatio))
         + Offer(f.occurrences != 0, FindingToken(f.code, Occurrences), Num(Count, f.occurrences as real))
  }

  function FindingTokens(findings: seq<FindingView>): Vocabulary {
    if findings == [] then map[] else FindingTokens(findings[..|findings| - 1]) + OneFinding(findings[|findings| - 1])
  }

  function BehaviorFigures(b: BehaviorView): Vocabulary {
    map[BehaviorName(TradeCount) := Num(Count, b.tradeCount as real),
        BehaviorName(FindingCount) := Num(Count, |b.findings| as real)]
  }

  function BehaviorTokens(b: BehaviorView): Vocabulary {
    if !b.ok then map[] else BehaviorFigures(b) + FindingTokens(b.findings)
  }

  predicate AnyComputed(r: ReportView) { r.risk.ok || r.benchmarking.ok || r.behavior.ok }

  function VocabularyOf(r: ReportView): Vocabulary {
    (if AnyComputed(r) then WindowTokens(r) else map[]) + RiskTokens(r.risk) + BenchmarkingTokens(r.benchmarking)
    + BehaviorTokens(r.behavior)
  }

  // ---- the loops

  method LargestPosition(positions: seq<PositionView>) returns (largest: Option<PositionView>)
    ensures largest == if positions == [] then None else Some(Largest(positions))
  {
    if |positions| == 0 {
      return None;
    }
    var best := positions[0];
    for i := 1 to |positions|
      invariant best == Largest(positions[..i])
    {
      assert positions[..i + 1][..i] == positions[..i];
      if positions[i].weightPct > best.weightPct {
        best := positions[i];
      }
    }
    assert positions[..|positions|] == positions;
    return Some(best);
  }

  method AddPositions(out0: Vocabulary, positions: seq<PositionView>) returns (out: Vocabulary)
    ensures out == out0 + PositionTokens(positions)
  {
    hide PositionToken, SafeName, Num, Offer;
    out := out0;
    assert out0 + map[] == out0;
    for i := 0 to |positions|
      invariant out == out0 + PositionTokens(positions[..i])
    {
      var p := positions[i];
      assert positions[..i + 1][..i] == positions[..i];
      MergeAssociates(out0, PositionTokens(positions[..i]), OnePosition(p));
      ghost var before := out;
      if !SafeName(p.symbol) {
        assert before + map[] == before;
        continue;
      }
      out := out[PositionToken(p.symbol, WeightPct) := Num(Percent, p.weightPct)];
      out := out[PositionToken(p.symbol, MarketValue) := Num(Money, p.marketValue)];
      out := out[PositionToken(p.symbol, ItemField.Quantity) := Num(Kind.Quantity, p.quantity)];
      MergeThree(before, PositionToken(p.symbol, WeightPct), Num(Percent, p.weightPct),
                 PositionToken(p.symbol, MarketValue), Num(Money, p.marketValue),
                 PositionToken(p.symbol, ItemField.Quantity), Num(Kind.Quantity, p.quantity));
    }
    assert positions[..|positions|] == positions;
  }

  lemma MergeThree(m: Vocabulary, a: string, x: Value, b: string, y: Value, c: string, z: Value)
    ensures m + (map[a := x] + map[b := y] + map[c := z]) == m[a := x][b := y][c := z]
  {}

  lemma MergeOffers(m: Vocabulary, first: bool, a: string, x: Value, second: bool, b: string, y: Value)
    ensures var one := if first then m[a := x] else m;
            m + (Offer(first, a, x) + Offer(second, b, y)) == if second then one[b := y] else one
  {}

  lemma MergeAssociates(a: Vocabulary, b: Vocabulary, c: Vocabulary)
    ensures a + (b + c) == a + b + c
  {}

  method AddBenchmarks(out0: Vocabulary, benchmarks: seq<BenchmarkView>) returns (out: Vocabulary)
    ensures out == out0 + BenchmarkTokens(benchmarks)
  {
    hide BenchmarkToken, SafeName, Num, Offer;
    out := out0;
    assert out0 + map[] == out0;
    for i := 0 to |benchmarks|
      invariant out == out0 + BenchmarkTokens(benchmarks[..i])
    {
      var b := benchmarks[i];
      assert benchmarks[..i + 1][..i] == benchmarks[..i];
      MergeAssociates(out0, BenchmarkTokens(benchmarks[..i]), OneBenchmark(b));
      ghost var before := out;
      if !SafeName(b.symbol) {
        assert before + map[] == before;
        continue;
      }
      out := out[BenchmarkToken(b.symbol, ReturnPct) := Num(SignedPercent, b.returnPct)];
      out := out[BenchmarkToken(b.symbol, ExcessReturnPct) := Num(SignedPercent, b.excessReturnPct)];
      out := out[BenchmarkToken(b.symbol, SharpeRatio) := Num(Ratio, b.sharpe)];
      MergeThree(before, BenchmarkToken(b.symbol, ReturnPct), Num(SignedPercent, b.returnPct),
                 BenchmarkToken(b.symbol, ExcessReturnPct), Num(SignedPercent, b.excessReturnPct),
                 BenchmarkToken(b.symbol, SharpeRatio), Num(Ratio, b.sharpe));
    }
    assert benchmarks[..|benchmarks|] == benchmarks;
  }

  method AddFindings(out0: Vocabulary, findings: seq<FindingView>) returns (out: Vocabulary)
    ensures out == out0 + FindingTokens(findings)
  {
    hide FindingToken, SafeName, Num, Offer;
    out := out0;
    assert out0 + map[] == out0;
    for i := 0 to |findings|
      invariant out == out0 + FindingTokens(findings[..i])
    {
      var f := findings[i];
      assert findings[..i + 1][..i] == findings[..i];
      MergeAssociates(out0, FindingTokens(findings[..i]), OneFinding(f));
      ghost var before := out;
      if !SafeName(f.code) {
        assert before + map[] == before;
        continue;
      }
      if f.turnoverRatio != 0.0 {
        out := out[FindingToken(f.code, TurnoverRatio) := Num(Ratio, f.turnoverRatio)];
      }
      if f.occurrences != 0 {
        out := out[FindingToken(f.code, Occurrences) := Num(Count, f.occurrences as real)];
      }
      MergeOffers(before, f.turnoverRatio != 0.0, FindingToken(f.code, TurnoverRatio), Num(Ratio, f.turnoverRatio),
                  f.occurrences != 0, FindingToken(f.code, Occurrences), Num(Count, f.occurrences as real));
    }
    assert findings[..|findings|] == findings;
  }

  method AddRisk(out0: Vocabulary, risk: RiskView) returns (out: Vocabulary)
    requires risk.ok
    ensures out == out0 + RiskTokens(risk)
  {
    hide PositionTokens, RiskName, RiskFigures, SafeName;
    out := out0 + RiskFigures(risk);
    var largest := LargestPosition(risk.positions);
    if largest.Some? && SafeName(largest.value.symbol) {
      out := out[RiskName(LargestSymbol) := Txt(SymbolName, largest.value.symbol)];
    }
    assert out == out0 + (RiskFigures(risk) + LargestToken(risk.positions));
    MergeAssociates(out0, RiskFigures(risk) + LargestToken(risk.positions), PositionTokens(risk.positions));
    out := AddPositions(out, risk.positions);
  }

  method BuildVocabulary(r: ReportView) returns (out: Vocabulary)
    ensures out == VocabularyOf(r)
  {
    hide BenchmarkTokens, FindingTokens, BenchmarkingFigures, BehaviorFigures, RiskTokens, WindowTokens;
    out := map[];
    if r.risk.ok || r.benchmarking.ok || r.behavior.ok {
      out := WindowTokens(r);
    }
    if r.risk.ok {
      out := AddRisk(out, r.risk);
    } else {
      NoRiskTokens(out, r.risk);
    }
    ghost var withRisk := out;
    if r.benchmarking.ok {
      MergeAssociates(withRisk, BenchmarkingFigures(r.benchmarking), BenchmarkTokens(r.benchmarking.benchmarks));
      out := AddBenchmarks(out + BenchmarkingFigures(r.benchmarking), r.benchmarking.benchmarks);
    }
    ghost var withBenchmarks := out;
    assert withBenchmarks == withRisk + BenchmarkingTokens(r.benchmarking);
    if r.behavior.ok {
      MergeAssociates(withBenchmarks, BehaviorFigures(r.behavior), FindingTokens(r.behavior.findings));
      out := AddFindings(out + BehaviorFigures(r.behavior), r.behavior.findings);
    }
    assert out == withBenchmarks + BehaviorTokens(r.behavior);
  }

  lemma NoRiskTokens(out: Vocabulary, risk: RiskView)
    requires !risk.ok
    ensures out + RiskTokens(risk) == out
  {}

  // ---- what the vocabulary promises

  /** Dates as the report writes them, where it writes them. */
  ghost predicate DatesWellFormed(r: ReportView) {
    && (r.asOfDate != "" ==> ParseDate(r.asOfDate).Some?)
    && (r.startDate != "" ==> ParseDate(r.startDate).Some?)
  }

  ghost predicate Sound(vocab: Vocabulary) {
    forall name :: name in vocab ==> Plain(name) && Renderable(vocab[name])
  }

  lemma SafeIsPlain(s: string)
    requires SafeName(s)
    ensures Plain(s)
  {}

  lemma QuantityFieldsArePlain(f: ItemField)
    requires f.WeightPct? || f.MarketValue? || f.Quantity? || f.Occurrences?
    ensures Plain(FieldName(f))
  {}

  lemma RatioFieldsArePlain(f: ItemField)
    requires !(f.WeightPct? || f.MarketValue? || f.Quantity? || f.Occurrences?)
    ensures Plain(FieldName(f))
  {}

  lemma RiskPrefixIsPlain()
    ensures Plain("risk.positions.") && Plain(".")
  {}

  lemma BenchmarkingPrefixIsPlain()
    ensures Plain("benchmarking.")
  {}

  lemma BehaviorPrefixIsPlain()
    ensures Plain("behavior.findings.")
  {}

  lemma PrefixesArePlain()
    ensures Plain("risk.positions.") && Plain("benchmarking.") && Plain("behavior.findings.") && Plain(".")
  {
    hide Plain;
    RiskPrefixIsPlain();
    BenchmarkingPrefixIsPlain();
    BehaviorPrefixIsPlain();
  }

  lemma ItemTokensArePlain(s: string, f: ItemField)
    requires SafeName(s)
    ensures Plain(PositionToken(s, f)) && Plain(BenchmarkToken(s, f)) && Plain(FindingToken(s, f))
  {
    SafeIsPlain(s);
    PrefixesArePlain();
    if f.WeightPct? || f.MarketValue? || f.Quantity? || f.Occurrences? {
      QuantityFieldsArePlain(f);
    } else {
      RatioFieldsArePlain(f);
    }
    hide FieldName;
  }

  lemma NumberIsRenderable(kind: Kind, n: real)
    requires IsNumeric(kind)
    ensures Renderable(Num(kind, n))
  {}

  lemma OneIsSound(name: string, v: Value)
    requires Plain(name) && Renderable(v)
    ensures Sound(map[name := v])
  {}

  lemma NoneIsSound()
    ensures Sound(map[])
  {}

  lemma NumberIsSound(name: string, kind: Kind, n: real)
    requires Plain(name) && IsNumeric(kind)
    ensures Sound(map[name := Num(kind, n)])
  {
    NumberIsRenderable(kind, n);
    OneIsSound(name, Num(kind, n));
  }

  lemma OfferIsSound(on: bool, name: string, v: Value)
    requires on ==> Plain(name) && Renderable(v)
    ensures Sound(Offer(on, name, v))
  {
    if on {
      OneIsSound(name, v);
    }
  }

  lemma MergeIsSound(a: Vocabulary, b: Vocabulary)
    requires Sound(a) && Sound(b)
    ensures Sound(a + b)
  {
    hide Plain, Renderable;
  }

  lemma PositionIsSound(p: PositionView)
    ensures Sound(OnePosition(p))
  {
    hide SafeName, PositionToken, Sound, Num;
    NoneIsSound();
    if SafeName(p.symbol) {
      forall f { ItemTokensArePlain(p.symbol, f); }
      var a := map[PositionToken(p.symbol, WeightPct) := Num(Percent, p.weightPct)];
      var b := map[PositionToken(p.symbol, MarketValue) := Num(Money, p.marketValue)];
      var c := map[PositionToken(p.symbol, ItemField.Quantity) := Num(Kind.Quantity, p.quantity)];
      NumberIsSound(PositionToken(p.symbol, WeightPct), Percent, p.weightPct);
      NumberIsSound(PositionToken(p.symbol, MarketValue), Money, p.marketValue);
      NumberIsSound(PositionToken(p.symbol, ItemField.Quantity), Kind.Quantity, p.quantity);
      MergeIsSound(a, b);
      MergeIsSound(a + b, c);
    }
  }

  lemma BenchmarkIsSound(b: BenchmarkView)
    ensures Sound(OneBenchmark(b))
  {
    hide SafeName, BenchmarkToken, Sound, Num;
    NoneIsSound();
    if SafeName(b.symbol) {
      forall f { ItemTokensArePlain(b.symbol, f); }
      var x := map[BenchmarkToken(b.symbol, ReturnPct) := Num(SignedPercent, b.returnPct)];
      var y := map[BenchmarkToken(b.symbol, ExcessReturnPct) := Num(SignedPercent, b.excessReturnPct)];
      var z := map[BenchmarkToken(b.symbol, SharpeRatio) := Num(Ratio, b.sharpe)];
      NumberIsSound(BenchmarkToken(b.symbol, ReturnPct), SignedPercent, b.returnPct);
      NumberIsSound(BenchmarkToken(b.symbol, ExcessReturnPct), SignedPercent, b.excessReturnPct);
      NumberIsSound(BenchmarkToken(b.symbol, SharpeRatio), Ratio, b.sharpe);
      MergeIsSound(x, y);
      MergeIsSound(x + y, z);
    }
  }

  lemma FindingIsSound(f: FindingView)
    ensures Sound(OneFinding(f))
  {
    hide SafeName, FindingToken, Sound, Num, Offer;
    NoneIsSound();
    if SafeName(f.code) {
      forall field { ItemTokensArePlain(f.code, field); }
      NumberIsRenderable(Ratio, f.turnoverRatio);
      NumberIsRenderable(Count, f.occurrences as real);
      var x := Offer(f.turnoverRatio != 0.0, FindingToken(f.code, TurnoverRatio), Num(Ratio, f.turnoverRatio));
      var y := Offer(f.occurrences != 0, FindingToken(f.code, Occurrences), Num(Count, f.occurrences as real));
      OfferIsSound(f.turnoverRatio != 0.0, FindingToken(f.code, TurnoverRatio), Num(Ratio, f.turnoverRatio));
      OfferIsSound(f.occurrences != 0, FindingToken(f.code, Occurrences), Num(Count, f.occurrences as real));
      MergeIsSound(x, y);
    }
  }

  lemma {:induction false} PositionsSound(positions: seq<PositionView>)
    ensures Sound(PositionTokens(positions))
  {
    hide Sound, OnePosition;
    NoneIsSound();
    if positions != [] {
      PositionsSound(positions[..|positions| - 1]);
      PositionIsSound(positions[|positions| - 1]);
      MergeIsSound(PositionTokens(positions[..|positions| - 1]), OnePosition(positions[|positions| - 1]));
    }
  }

  lemma {:induction false} BenchmarksSound(benchmarks: seq<BenchmarkView>)
    ensures Sound(BenchmarkTokens(benchmarks))
  {
    hide Sound, OneBenchmark;
    NoneIsSound();
    if benchmarks != [] {
      BenchmarksSound(benchmarks[..|benchmarks| - 1]);
      BenchmarkIsSound(benchmarks[|benchmarks| - 1]);
      MergeIsSound(BenchmarkTokens(benchmarks[..|benchmarks| - 1]), OneBenchmark(benchmarks[|benchmarks| - 1]));
    }
  }

  lemma {:induction false} FindingsSound(findings: seq<FindingView>)
    ensures Sound(FindingTokens(findings))
  {
    hide Sound, OneFinding;
    NoneIsSound();
    if findings != [] {
      FindingsSound(findings[..|findings| - 1]);
      FindingIsSound(findings[|findings| - 1]);
      MergeIsSound(FindingTokens(findings[..|findings| - 1]), OneFinding(findings[|findings| - 1]));
    }
  }

  lemma WindowNamesArePlain(f: WindowField)
    ensures Plain(WindowName(f))
  {}

  lemma CountAndCashArePlain()
    ensures Plain("risk.position_count") && Plain("risk.cash_weight_pct")
  {}

  lemma ConcentrationIsPlain()
    ensures Plain("risk.concentration_hhi")
  {}

  lemma LargestNamesArePlain()
    ensures Plain("risk.largest_position_pct") && Plain("risk.largest_position_symbol")
  {}

  lemma VolatilityIsPlain()
    ensures Plain("risk.annualized_volatility_pct")
  {}

  lemma DrawdownIsPlain()
    ensures Plain("risk.max_drawdown_pct")
  {}

  lemma RiskNamesArePlain(f: RiskField)
    ensures Plain(RiskName(f))
  {
    hide Plain;
    CountAndCashArePlain();
    ConcentrationIsPlain();
    LargestNamesArePlain();
    VolatilityIsPlain();
    DrawdownIsPlain();
  }

  lemma PortfolioReturnIsPlain()
    ensures Plain("benchmarking.portfolio_return_pct")
  {}

  lemma PortfolioSharpeIsPlain()
    ensures Plain("benchmarking.portfolio_sharpe")
  {}

  lemma BenchmarkCountIsPlain()
    ensures Plain("benchmarking.benchmark_count")
  {}

  lemma BenchmarkingNamesArePlain(f: BenchmarkingField)
    ensures Plain(BenchmarkingName(f))
  {
    hide Plain;
    PortfolioReturnIsPlain();
    PortfolioSharpeIsPlain();
    BenchmarkCountIsPlain();
  }

  lemma BehaviorNamesArePlain(f: BehaviorField)
    ensures Plain(BehaviorName(f))
  {}

  lemma FigureNamesArePlain()
    ensures forall f :: Plain(WindowName(f))
    ensures forall f :: Plain(RiskName(f))
    ensures forall f :: Plain(BenchmarkingName(f))
    ensures forall f :: Plain(BehaviorName(f))
  {
    hide Plain, WindowName, RiskName, BenchmarkingName, BehaviorName;
    forall f ensures Plain(WindowName(f)) { WindowNamesArePlain(f); }
    forall f ensures Plain(RiskName(f)) { RiskNamesArePlain(f); }
    forall f ensures Plain(BenchmarkingName(f)) { BenchmarkingNamesArePlain(f); }
    forall f ensures Plain(BehaviorName(f)) { BehaviorNamesArePlain(f); }
  }

  lemma SectionFiguresSound(r: ReportView)
    ensures Sound(RiskFigures(r.risk)) && Sound(BenchmarkingFigures(r.benchmarking)) && Sound(BehaviorFigures(r.behavior))
  {
    hide Plain, WindowName, RiskName, BenchmarkingName, BehaviorName, Renderable, Num;
    FigureNamesArePlain();
    forall kind, n | IsNumeric(kind) ensures Renderable(Num(kind, n)) { NumberIsRenderable(kind, n); }
  }

  lemma WindowTokensSound(r: ReportView)
    requires DatesWellFormed(r)
    ensures Sound(WindowTokens(r))
  {
    hide Plain, WindowName, ParseDate, Offer, Sound;
    FigureNamesArePlain();
    OfferIsSound(r.asOfDate != "", WindowName(AsOfDate), Txt(Date, r.asOfDate));
    OfferIsSound(r.startDate != "", WindowName(StartDate), Txt(Date, r.startDate));
    NumberIsSound(WindowName(TradingDays), Count, r.tradingDays as real);
    var asOf, start := Offer(r.asOfDate != "", WindowName(AsOfDate), Txt(Date, r.asOfDate)),
                       Offer(r.startDate != "", WindowName(StartDate), Txt(Date, r.startDate));
    MergeIsSound(asOf, start);
    MergeIsSound(asOf + start, map[WindowName(TradingDays) := Num(Count, r.tradingDays as real)]);
  }

  lemma LargestTokenSound(positions: seq<PositionView>)
    ensures Sound(LargestToken(positions))
  {
    hide RiskName, SafeName, Sound, Offer;
    NoneIsSound();
    if positions != [] {
      var symbol := Largest(positions).symbol;
      RiskNamesArePlain(LargestSymbol);
      if SafeName(symbol) {
        SafeIsPlain(symbol);
      }
      OfferIsSound(SafeName(symbol), RiskName(LargestSymbol), Txt(SymbolName, symbol));
    }
  }

  /** Whatever symbols and codes reach it, a report whose dates are well formed offers only tokens that can be written
      and values that can be rendered. */
  lemma VocabularyIsSound(r: ReportView)
    requires DatesWellFormed(r)
    ensures Sound(VocabularyOf(r)) && AllRenderable(VocabularyOf(r))
  {
    hide Sound, WindowTokens, RiskFigures, LargestToken, PositionTokens, BenchmarkingFigures, BenchmarkTokens,
         BehaviorFigures, FindingTokens, DatesWellFormed;
    NoneIsSound();
    WindowTokensSound(r);
    SectionFiguresSound(r);
    LargestTokenSound(r.risk.positions);
    PositionsSound(r.risk.positions);
    BenchmarksSound(r.benchmarking.benchmarks);
    FindingsSound(r.behavior.findings);
    var window := if AnyComputed(r) then WindowTokens(r) else map[];
    MergeIsSound(RiskFigures(r.risk), LargestToken(r.risk.positions));
    MergeIsSound(RiskFigures(r.risk) + LargestToken(r.risk.positions), PositionTokens(r.risk.positions));
    MergeIsSound(BenchmarkingFigures(r.benchmarking), BenchmarkTokens(r.benchmarking.benchmarks));
    MergeIsSound(BehaviorFigures(r.behavior), FindingTokens(r.behavior.findings));
    MergeIsSound(window, RiskTokens(r.risk));
    MergeIsSound(window + RiskTokens(r.risk), BenchmarkingTokens(r.benchmarking));
    MergeIsSound(window + RiskTokens(r.risk) + BenchmarkingTokens(r.benchmarking), BehaviorTokens(r.behavior));
    SoundIsRenderable(VocabularyOf(r));
  }

  lemma SoundIsRenderable(vocab: Vocabulary)
    requires Sound(vocab)
    ensures AllRenderable(vocab)
  {}

  /** A report with nothing computed offers nothing, and only such a report. */
  lemma EmptyIffNothingComputed(r: ReportView)
    ensures VocabularyOf(r) == map[] <==> !AnyComputed(r)
  {
    hide RiskFigures, LargestToken, PositionTokens, BenchmarkingFigures, BenchmarkTokens, BehaviorFigures, FindingTokens, WindowName;
    if AnyComputed(r) {
      assert WindowName(TradingDays) in VocabularyOf(r);
    }
  }

  lemma TokenAlone(name: string)
    requires Plain(name)
    ensures ScanPieces("{" + name + "}") == Some([Literal(""), Token(name), Literal("")])
  {
    hide IndexOf;
    var s := "{" + name + "}";
    FirstIndex(s, '{', 0);
    assert s[0..] == s && s[..|name| + 1] == "{" + name && s[|name| + 1] == '}';
    FirstIndex(s, '}', |name| + 1);
    var tail := s[0 + (|name| + 1) + 1..];
    assert tail == "";
    assert IndexOf(tail, '{').None?;
    assert ScanPieces(tail) == Some([Literal(tail)]);
    assert s[0 + 1..0 + (|name| + 1)] == name && s[..0] == "";
    assert [Literal(""), Token(name)] + [Literal("")] == [Literal(""), Token(name), Literal("")];
  }

  /** A token the prompt advertises always renders: to its own value, formatted, and nothing else. */
  lemma AdvertisedAlwaysRenders(r: ReportView, name: string)
    requires DatesWellFormed(r) && name in VocabularyOf(r)
    ensures FormatOf(VocabularyOf(r)[name]).Ok?
    ensures Rendered("{" + name + "}", VocabularyOf(r)) == FormatToRendered(FormatOf(VocabularyOf(r)[name]))
  {
    hide VocabularyOf, FormatOf, Renderable, ScanPieces, Rendered;
    var vocab := VocabularyOf(r);
    VocabularyIsSound(r);
    RenderableIsPlain(vocab[name]);
    TokenAlone(name);
    var pieces := [Literal(""), Token(name), Literal("")];
    assert Offered(pieces, vocab);
    RenderedIsSubstituted("{" + name + "}", vocab);
    assert pieces == [Literal(""), Token(name)] + [Literal("")];
    SubstitutedPair("", name, [Literal("")], vocab);
    assert Substituted([Literal("")], vocab) == "" by { assert [Literal("")][1..] == []; }
    var value := FormatOf(vocab[name]).value;
    assert "" + value + "" == value;
  }

  function FormatToRendered(f: Result<string, FormatError>): Result<string, RenderError>
    requires f.Ok?
  {
    Ok(f.value)
  }

  /** The pipeline from report to prose: its one impossible outcome is impossible for every model, every answer and
      every report whose dates are well formed. */
  method Narrate(r: ReportView, model: Model, p: Prompt) returns (out: Result<Sections, GenerateError>, calls: nat)
    ensures calls <= 2 && (calls == 0 <==> !AnyComputed(r))
    ensures DatesWellFormed(r) ==> !(out.Err? && out.error.RenderMismatch?)
  {
    hide VocabularyOf, AllRenderable;
    var vocab := BuildVocabulary(r);
    EmptyIffNothingComputed(r);
    if DatesWellFormed(r) {
      VocabularyIsSound(r);
    }
    var asked;
    out, calls, asked := Generate(model, p, vocab);
  }
}
