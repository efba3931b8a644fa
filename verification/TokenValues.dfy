/** Which value stands under which token. */
module TokenValues {
  import opened Wrappers
  import opened Values
  import opened Placeholders

  // ---- the sections keep out of each other's way

  /** Every name of a section has these two letters in it, first and third. */
  ghost predicate Marked(vocab: Vocabulary, first: char, third: char) {
    forall name :: name in vocab ==> |name| > 2 && name[0] == first && name[2] == third
  }

  lemma MarkedMerge(a: Vocabulary, b: Vocabulary, first: char, third: char)
    requires Marked(a, first, third) && Marked(b, first, third)
    ensures Marked(a + b, first, third)
  {}

  ghost predicate Begins(vocab: Vocabulary, prefix: string) {
    forall name :: name in vocab ==> prefix <= name
  }

  lemma PositionTokenBegins(symbol: string, f: ItemField)
    ensures "risk.positions." <= PositionToken(symbol, f)
  {
    hide FieldName;
  }

  lemma BenchmarkTokenBegins(symbol: string, f: ItemField)
    ensures "benchmarking." <= BenchmarkToken(symbol, f) && '.' in BenchmarkToken(symbol, f)[13..]
  {
    hide FieldName;
    var s := BenchmarkToken(symbol, f);
    assert s == "benchmarking." + (symbol + "." + FieldName(f));
    assert s[13..] == symbol + "." + FieldName(f);
    assert (symbol + "." + FieldName(f))[|symbol|] == '.';
  }

  lemma FindingTokenBegins(code: string, f: ItemField)
    ensures "behavior.findings." <= FindingToken(code, f)
  {
    hide FieldName;
  }

  lemma {:induction false} PositionsBegin(positions: seq<PositionView>)
    ensures Begins(PositionTokens(positions), "risk.positions.")
  {
    if positions != [] {
      hide PositionToken, SafeName, Num;
      PositionsBegin(positions[..|positions| - 1]);
      forall symbol, f { PositionTokenBegins(symbol, f); }
    }
  }

  ghost predicate Dotted(vocab: Vocabulary) {
    forall name :: name in vocab ==> "benchmarking." <= name && '.' in name[13..]
  }

  lemma {:induction false} BenchmarksBegin(benchmarks: seq<BenchmarkView>)
    ensures Dotted(BenchmarkTokens(benchmarks))
  {
    if benchmarks != [] {
      hide BenchmarkToken, SafeName, Num;
      BenchmarksBegin(benchmarks[..|benchmarks| - 1]);
      forall symbol, f { BenchmarkTokenBegins(symbol, f); }
    }
  }

  lemma {:induction false} FindingsBegin(findings: seq<FindingView>)
    ensures Begins(FindingTokens(findings), "behavior.findings.")
  {
    if findings != [] {
      hide FindingToken, SafeName, Num;
      FindingsBegin(findings[..|findings| - 1]);
      forall code, f { FindingTokenBegins(code, f); }
    }
  }

  // ---- the figures' names

  lemma RiskNameIs(f: RiskField)
    ensures |RiskName(f)| == match f
                             case PositionCount => 19
                             case CashWeight => 20
                             case Concentration => 22
                             case LargestWeight => 25
                             case Volatility => 30
                             case MaxDrawdown => 21
                             case LargestSymbol => 28
    ensures RiskName(f)[0] == 'r' && RiskName(f)[2] == 's'
    ensures RiskName(f)[5] != 'p' || RiskName(f)[13] == '_'
  {}

  lemma DiffersAt(prefix: string, s: string, i: nat)
    requires i < |prefix| && i < |s| && prefix[i] != s[i]
    ensures !(prefix <= s)
  {}

  lemma RiskNameIsNoPosition(f: RiskField)
    ensures !("risk.positions." <= RiskName(f))
  {
    RiskNameIs(f);
    hide RiskName;
    DiffersAt("risk.positions.", RiskName(f), if RiskName(f)[5] != 'p' then 5 else 13);
  }

  lemma BenchmarkingNameIs(f: BenchmarkingField)
    ensures |BenchmarkingName(f)| == match f
                                     case PortfolioReturn => 33
                                     case PortfolioSharpe => 29
                                     case BenchmarkCount => 28
    ensures BenchmarkingName(f)[0] == 'b' && BenchmarkingName(f)[2] == 'n'
  {}

  lemma NoDotInReturn()
    ensures BenchmarkingName(PortfolioReturn)[13..] == "portfolio_return_pct" && '.' !in "portfolio_return_pct"
  {}

  lemma NoDotInSharpe()
    ensures BenchmarkingName(PortfolioSharpe)[13..] == "portfolio_sharpe" && '.' !in "portfolio_sharpe"
  {}

  lemma NoDotInCount()
    ensures BenchmarkingName(BenchmarkCount)[13..] == "benchmark_count" && '.' !in "benchmark_count"
  {}

  lemma BenchmarkingNameHasNoDot(f: BenchmarkingField)
    ensures |BenchmarkingName(f)| > 13 && '.' !in BenchmarkingName(f)[13..]
  {
    BenchmarkingNameIs(f);
    NoDotInReturn();
    NoDotInSharpe();
    NoDotInCount();
    hide BenchmarkingName;
  }

  lemma BehaviorNameIs(f: BehaviorField)
    ensures |BehaviorName(f)| == match f case TradeCount => 20 case FindingCount => 22
    ensures BehaviorName(f)[0] == 'b' && BehaviorName(f)[2] == 'h'
    ensures BehaviorName(f)[9] != 'f' || BehaviorName(f)[16] == '_'
  {}

  lemma BehaviorNameIsNoFinding(f: BehaviorField)
    ensures !("behavior.findings." <= BehaviorName(f))
  {
    BehaviorNameIs(f);
    hide BehaviorName;
    DiffersAt("behavior.findings.", BehaviorName(f), if BehaviorName(f)[9] != 'f' then 9 else 16);
  }

  lemma WindowNameIs(f: WindowField)
    ensures |WindowName(f)| == match f case AsOfDate => 10 case StartDate => 17 case TradingDays => 19
    ensures WindowName(f)[0] == 'a' || WindowName(f)[0] == 'w'
  {}

  // ---- each section, as it stands in its own map

  lemma RiskFiguresSay(risk: RiskView)
    ensures var says := RiskFigures(risk);
            && says.Keys == (set f: RiskField | f != LargestSymbol :: RiskName(f))
            && says[RiskName(PositionCount)] == Num(Count, |risk.positions| as real)
            && says[RiskName(CashWeight)] == Num(Percent, risk.cashWeightPct)
            && says[RiskName(Concentration)] == Num(Index, risk.concentrationHHI)
            && says[RiskName(LargestWeight)] == Num(Percent, risk.largestPositionPct)
            && says[RiskName(Volatility)] == Num(Percent, risk.annualizedVolatilityPct)
            && says[RiskName(MaxDrawdown)] == Num(Percent, risk.maxDrawdownPct)
  {
    hide RiskName, Num;
    RiskNamesDiffer();
  }

  lemma RiskNamesDiffer()
    ensures forall f: RiskField, g: RiskField :: f != g ==> RiskName(f) != RiskName(g)
  {
    hide RiskName;
    forall f: RiskField, g: RiskField | f != g ensures RiskName(f) != RiskName(g) {
      RiskNameIs(f);
      RiskNameIs(g);
    }
  }

  /** A figure of a section that its items cannot be mistaken for stands as it is. */
  lemma FigureStands(figures: Vocabulary, others: Vocabulary, items: Vocabulary, name: string)
    requires name in figures && name !in others && name !in items
    ensures name in figures + others + items && (figures + others + items)[name] == figures[name]
  {}

  lemma RiskFigureStands(risk: RiskView, f: RiskField)
    requires risk.ok && f != LargestSymbol
    ensures RiskName(f) in RiskFigures(risk) && RiskName(f) in RiskTokens(risk)
    ensures RiskTokens(risk)[RiskName(f)] == RiskFigures(risk)[RiskName(f)]
  {
    hide RiskName, PositionTokens, SafeName, Num, Txt, RiskFigures;
    RiskFiguresSay(risk);
    RiskNamesDiffer();
    RiskNameIsNoPosition(f);
    PositionsBegin(risk.positions);
    FigureStands(RiskFigures(risk), LargestToken(risk.positions), PositionTokens(risk.positions), RiskName(f));
  }

  lemma LargestSays(risk: RiskView)
    requires risk.ok && risk.positions != [] && SafeName(Largest(risk.positions).symbol)
    ensures var says := RiskTokens(risk);
            && RiskName(LargestSymbol) in says
            && says[RiskName(LargestSymbol)] == Txt(SymbolName, Largest(risk.positions).symbol)
  {
    hide RiskName, PositionTokens, SafeName, Num, Txt, RiskFigures;
    RiskNameIsNoPosition(LargestSymbol);
    PositionsBegin(risk.positions);
  }

  lemma BenchmarkingSays(b: BenchmarkingView)
    requires b.ok
    ensures var says := BenchmarkingTokens(b);
            && BenchmarkingName(PortfolioReturn) in says
            && says[BenchmarkingName(PortfolioReturn)] == Num(SignedPercent, b.portfolioReturnPct)
            && BenchmarkingName(PortfolioSharpe) in says
            && says[BenchmarkingName(PortfolioSharpe)] == Num(Ratio, b.portfolioSharpe)
            && BenchmarkingName(BenchmarkCount) in says
            && says[BenchmarkingName(BenchmarkCount)] == Num(Count, |b.benchmarks| as real)
  {
    hide BenchmarkingName, BenchmarkTokens, SafeName, Num, Txt;
    forall f { BenchmarkingNameIs(f); }
    forall f { BenchmarkingNameHasNoDot(f); }
    BenchmarksBegin(b.benchmarks);
  }

  lemma BehaviorSays(b: BehaviorView)
    requires b.ok
    ensures var says := BehaviorTokens(b);
            && BehaviorName(TradeCount) in says && says[BehaviorName(TradeCount)] == Num(Count, b.tradeCount as real)
            && BehaviorName(FindingCount) in says && says[BehaviorName(FindingCount)] == Num(Count, |b.findings| as real)
  {
    hide BehaviorName, FindingTokens, SafeName, Num, Txt;
    forall f { BehaviorNameIs(f); }
    forall f { BehaviorNameIsNoFinding(f); }
    FindingsBegin(b.findings);
  }

  lemma WindowSays(r: ReportView)
    ensures var says := WindowTokens(r);
            && (r.asOfDate != "" ==> WindowName(AsOfDate) in says && says[WindowName(AsOfDate)] == Txt(Date, r.asOfDate))
            && (r.startDate != "" ==> WindowName(StartDate) in says && says[WindowName(StartDate)] == Txt(Date, r.startDate))
            && WindowName(TradingDays) in says && says[WindowName(TradingDays)] == Num(Count, r.tradingDays as real)
  {
    hide WindowName, Num, Txt;
    forall f { WindowNameIs(f); }
  }

  // ---- no section overwrites another

  lemma PrefixMarks(vocab: Vocabulary, prefix: string)
    requires Begins(vocab, prefix) && |prefix| > 2
    ensures Marked(vocab, prefix[0], prefix[2])
  {}

  lemma RiskIsMarked(risk: RiskView)
    ensures Marked(RiskTokens(risk), 'r', 's')
  {
    hide RiskName, PositionTokens, SafeName, Num, Txt, RiskFigures, Marked;
    RiskFiguresMarked(risk);
    LargestMarked(risk.positions);
    PositionsBegin(risk.positions);
    PrefixMarks(PositionTokens(risk.positions), "risk.positions.");
    MarkedMerge(RiskFigures(risk), LargestToken(risk.positions), 'r', 's');
    MarkedMerge(RiskFigures(risk) + LargestToken(risk.positions), PositionTokens(risk.positions), 'r', 's');
    NoneMarked('r', 's');
  }

  lemma RiskFiguresMarked(risk: RiskView)
    ensures Marked(RiskFigures(risk), 'r', 's')
  {
    hide RiskName, RiskFigures;
    RiskFiguresSay(risk);
    forall f { RiskNameIs(f); }
  }

  lemma LargestMarked(positions: seq<PositionView>)
    ensures Marked(LargestToken(positions), 'r', 's')
  {
    hide RiskName, SafeName, Txt;
    RiskNameIs(LargestSymbol);
  }

  lemma NoneMarked(first: char, third: char)
    ensures Marked(map[], first, third)
  {}

  lemma BenchmarkingIsMarked(b: BenchmarkingView)
    ensures Marked(BenchmarkingTokens(b), 'b', 'n')
  {
    hide BenchmarkingName, BenchmarkTokens, SafeName, Num, Txt;
    forall f { BenchmarkingNameIs(f); }
    BenchmarksBegin(b.benchmarks);
    PrefixMarks(BenchmarkTokens(b.benchmarks), "benchmarking.");
  }

  lemma BehaviorIsMarked(b: BehaviorView)
    ensures Marked(BehaviorTokens(b), 'b', 'h')
  {
    hide BehaviorName, FindingTokens, SafeName, Num, Txt;
    forall f { BehaviorNameIs(f); }
    FindingsBegin(b.findings);
    PrefixMarks(FindingTokens(b.findings), "behavior.findings.");
  }

  lemma WindowIsApart(r: ReportView)
    ensures forall name :: name in WindowTokens(r) ==> |name| > 2 && (name[0] == 'a' || name[0] == 'w')
  {
    hide WindowName, Num, Txt;
    forall f { WindowNameIs(f); }
  }

  /** Every section's own tokens stand in the whole vocabulary as they stand in the section. */
  lemma SectionsStand(r: ReportView)
    ensures var vocab := VocabularyOf(r);
            && (AnyComputed(r) ==> forall n :: n in WindowTokens(r) ==> n in vocab && vocab[n] == WindowTokens(r)[n])
            && (forall n :: n in RiskTokens(r.risk) ==> n in vocab && vocab[n] == RiskTokens(r.risk)[n])
            && (forall n :: n in BenchmarkingTokens(r.benchmarking) ==>
                  n in vocab && vocab[n] == BenchmarkingTokens(r.benchmarking)[n])
            && forall n :: n in BehaviorTokens(r.behavior) ==> n in vocab && vocab[n] == BehaviorTokens(r.behavior)[n]
  {
    hide WindowTokens, RiskTokens, BenchmarkingTokens, BehaviorTokens;
    WindowIsApart(r);
    RiskIsMarked(r.risk);
    BenchmarkingIsMarked(r.benchmarking);
    BehaviorIsMarked(r.behavior);
  }

  // ---- so every figure stands under its own name

  ghost predicate StandsFor(vocab: Vocabulary, name: string, v: Value) {
    name in vocab && vocab[name] == v
  }

  /** The figures of the risk section, each under its own name in the whole vocabulary. */
  lemma RiskTokensSay(r: ReportView)
    requires r.risk.ok
    ensures var vocab, risk := VocabularyOf(r), r.risk;
            && StandsFor(vocab, "risk.position_count", Num(Count, |risk.positions| as real))
            && StandsFor(vocab, "risk.cash_weight_pct", Num(Percent, risk.cashWeightPct))
            && StandsFor(vocab, "risk.concentration_hhi", Num(Index, risk.concentrationHHI))
            && StandsFor(vocab, "risk.largest_position_pct", Num(Percent, risk.largestPositionPct))
            && StandsFor(vocab, "risk.annualized_volatility_pct", Num(Percent, risk.annualizedVolatilityPct))
            && StandsFor(vocab, "risk.max_drawdown_pct", Num(Percent, risk.maxDrawdownPct))
            && (risk.positions != [] && SafeName(Largest(risk.positions).symbol) ==>
                  StandsFor(vocab, "risk.largest_position_symbol", Txt(SymbolName, Largest(risk.positions).symbol)))
  {
    hide VocabularyOf, RiskTokens, RiskFigures, WindowTokens, BenchmarkingTokens, BehaviorTokens, SafeName, Num, Txt;
    SectionsStand(r);
    RiskFiguresSay(r.risk);
    RiskFigureStands(r.risk, PositionCount);
    RiskFigureStands(r.risk, CashWeight);
    RiskFigureStands(r.risk, Concentration);
    RiskFigureStands(r.risk, LargestWeight);
    RiskFigureStands(r.risk, Volatility);
    RiskFigureStands(r.risk, MaxDrawdown);
    if r.risk.positions != [] && SafeName(Largest(r.risk.positions).symbol) {
      LargestSays(r.risk);
    }
  }

  /** The figures of the benchmarking section. */
  lemma BenchmarkingTokensSay(r: ReportView)
    requires r.benchmarking.ok
    ensures var vocab, b := VocabularyOf(r), r.benchmarking;
            && StandsFor(vocab, "benchmarking.portfolio_return_pct", Num(SignedPercent, b.portfolioReturnPct))
            && StandsFor(vocab, "benchmarking.portfolio_sharpe", Num(Ratio, b.portfolioSharpe))
            && StandsFor(vocab, "benchmarking.benchmark_count", Num(Count, |b.benchmarks| as real))
  {
    hide VocabularyOf, RiskTokens, WindowTokens, BenchmarkingTokens, BehaviorTokens, Num;
    SectionsStand(r);
    BenchmarkingSays(r.benchmarking);
  }

  /** The figures of the behaviour section. */
  lemma BehaviorTokensSay(r: ReportView)
    requires r.behavior.ok
    ensures var vocab, b := VocabularyOf(r), r.behavior;
            && StandsFor(vocab, "behavior.trade_count", Num(Count, b.tradeCount as real))
            && StandsFor(vocab, "behavior.finding_count", Num(Count, |b.findings| as real))
  {
    hide VocabularyOf, RiskTokens, WindowTokens, BenchmarkingTokens, BehaviorTokens, Num;
    SectionsStand(r);
    BehaviorSays(r.behavior);
  }

  /** The window of the report. */
  lemma WindowTokensSay(r: ReportView)
    requires AnyComputed(r)
    ensures var vocab := VocabularyOf(r);
            && (r.asOfDate != "" ==> StandsFor(vocab, "as_of_date", Txt(Date, r.asOfDate)))
            && (r.startDate != "" ==> StandsFor(vocab, "window.start_date", Txt(Date, r.startDate)))
            && StandsFor(vocab, "window.trading_days", Num(Count, r.tradingDays as real))
  {
    hide VocabularyOf, RiskTokens, WindowTokens, BenchmarkingTokens, BehaviorTokens, Num, Txt;
    SectionsStand(r);
    WindowSays(r);
  }

  // ---- and every item's

  lemma DotFree(f: ItemField)
    ensures '.' !in FieldName(f) && |FieldName(f)| > 0
  {
    DotFreeWeights();
    DotFreeReturns();
    DotFreeRest();
  }

  lemma DotFreeWeights()
    ensures '.' !in "weight_pct" && '.' !in "market_value" && '.' !in "quantity"
  {}

  lemma DotFreeReturns()
    ensures '.' !in "return_pct" && '.' !in "excess_return_pct" && '.' !in "sharpe"
  {}

  lemma DotFreeRest()
    ensures '.' !in "turnover_ratio" && '.' !in "occurrences"
  {}

  lemma FieldNameIs(f: ItemField)
    ensures |FieldName(f)| == match f
                              case WeightPct => 10
                              case MarketValue => 12
                              case Quantity => 8
                              case ReturnPct => 10
                              case ExcessReturnPct => 17
                              case SharpeRatio => 6
                              case TurnoverRatio => 14
                              case Occurrences => 11
    ensures FieldName(f)[0] == 'w' <==> f.WeightPct?
  {}

  lemma FieldNamesDiffer(f: ItemField, g: ItemField)
    requires FieldName(f) == FieldName(g)
    ensures f == g
  {
    FieldNameIs(f);
    FieldNameIs(g);
    hide FieldName;
  }

  lemma LastDot(x: string, f: string, i: nat)
    requires '.' !in f && i < |x + "." + f| && (x + "." + f)[i] == '.'
    ensures i <= |x|
  {
    var s := x + "." + f;
    assert forall k :: |x| < k < |s| ==> s[k] == f[k - |x| - 1];
  }

  /** What stands before the last dot and what stands after it. */
  lemma SplitsAtLastDot(x: string, f: string, y: string, g: string)
    requires '.' !in f && '.' !in g && x + "." + f == y + "." + g
    ensures x == y && f == g
  {
    var s := x + "." + f;
    assert s == y + "." + g && s[|x|] == '.' && s[|y|] == '.';
    LastDot(x, f, |y|);
    LastDot(y, g, |x|);
    assert s[..|x|] == x && s[..|y|] == y && s[|x| + 1..] == f && s[|y| + 1..] == g;
  }

  lemma AfterPrefix(prefix: string, a: string, b: string)
    requires prefix + a == prefix + b
    ensures a == b
  {
    assert (prefix + a)[|prefix|..] == a && (prefix + b)[|prefix|..] == b;
  }

  lemma NamesDiffer(prefix: string, x: string, f: string, y: string, g: string)
    requires '.' !in f && '.' !in g && prefix + x + "." + f == prefix + y + "." + g
    ensures x == y && f == g
  {
    assert prefix + x + "." + f == prefix + (x + "." + f);
    assert prefix + y + "." + g == prefix + (y + "." + g);
    AfterPrefix(prefix, x + "." + f, y + "." + g);
    SplitsAtLastDot(x, f, y, g);
  }

  lemma PositionTokensDiffer(x: string, f: ItemField, y: string, g: ItemField)
    ensures PositionToken(x, f) == PositionToken(y, g) ==> x == y && f == g
  {
    if PositionToken(x, f) == PositionToken(y, g) {
      DotFree(f);
      DotFree(g);
      NamesDiffer("risk.positions.", x, FieldName(f), y, FieldName(g));
      FieldNamesDiffer(f, g);
    }
  }

  lemma BenchmarkTokensDiffer(x: string, f: ItemField, y: string, g: ItemField)
    ensures BenchmarkToken(x, f) == BenchmarkToken(y, g) ==> x == y && f == g
  {
    if BenchmarkToken(x, f) == BenchmarkToken(y, g) {
      DotFree(f);
      DotFree(g);
      NamesDiffer("benchmarking.", x, FieldName(f), y, FieldName(g));
      FieldNamesDiffer(f, g);
    }
  }

  lemma FindingTokensDiffer(x: string, f: ItemField, y: string, g: ItemField)
    ensures FindingToken(x, f) == FindingToken(y, g) ==> x == y && f == g
  {
    if FindingToken(x, f) == FindingToken(y, g) {
      DotFree(f);
      DotFree(g);
      NamesDiffer("behavior.findings.", x, FieldName(f), y, FieldName(g));
      FieldNamesDiffer(f, g);
    }
  }

  lemma OnePositionSays(p: PositionView)
    requires SafeName(p.symbol)
    ensures var says := OnePosition(p);
            && StandsFor(says, PositionToken(p.symbol, WeightPct), Num(Percent, p.weightPct))
            && StandsFor(says, PositionToken(p.symbol, MarketValue), Num(Money, p.marketValue))
            && StandsFor(says, PositionToken(p.symbol, ItemField.Quantity), Num(Kind.Quantity, p.quantity))
  {
    hide PositionToken, SafeName, Num;
    forall x, f, y, g { PositionTokensDiffer(x, f, y, g); }
  }

  lemma OnePositionSkips(p: PositionView, symbol: string, f: ItemField)
    requires p.symbol != symbol
    ensures PositionToken(symbol, f) !in OnePosition(p)
  {
    hide PositionToken, SafeName, Num;
    forall g { PositionTokensDiffer(symbol, f, p.symbol, g); }
  }

  lemma StandsAfter(earlier: Vocabulary, later: Vocabulary, name: string, v: Value)
    requires StandsFor(later, name, v) || (StandsFor(earlier, name, v) && name !in later)
    ensures StandsFor(earlier + later, name, v)
  {}

  lemma {:induction false} PositionStands(positions: seq<PositionView>, i: nat, f: ItemField, v: Value)
    requires i < |positions| && StandsFor(OnePosition(positions[i]), PositionToken(positions[i].symbol, f), v)
    requires forall j :: i < j < |positions| ==> positions[j].symbol != positions[i].symbol
    ensures StandsFor(PositionTokens(positions), PositionToken(positions[i].symbol, f), v)
  {
    hide PositionToken, OnePosition, StandsFor;
    var front, last := positions[..|positions| - 1], positions[|positions| - 1];
    if i < |positions| - 1 {
      PositionStands(front, i, f, v);
      OnePositionSkips(last, positions[i].symbol, f);
    }
    StandsAfter(PositionTokens(front), OnePosition(last), PositionToken(positions[i].symbol, f), v);
  }

  lemma OneBenchmarkSays(b: BenchmarkView)
    requires SafeName(b.symbol)
    ensures var says := OneBenchmark(b);
            && StandsFor(says, BenchmarkToken(b.symbol, ReturnPct), Num(SignedPercent, b.returnPct))
            && StandsFor(says, BenchmarkToken(b.symbol, ExcessReturnPct), Num(SignedPercent, b.excessReturnPct))
            && StandsFor(says, BenchmarkToken(b.symbol, SharpeRatio), Num(Ratio, b.sharpe))
  {
    hide BenchmarkToken, SafeName, Num;
    forall x, f, y, g { BenchmarkTokensDiffer(x, f, y, g); }
  }

  lemma OneBenchmarkSkips(b: BenchmarkView, symbol: string, f: ItemField)
    requires b.symbol != symbol
    ensures BenchmarkToken(symbol, f) !in OneBenchmark(b)
  {
    hide BenchmarkToken, SafeName, Num;
    forall g { BenchmarkTokensDiffer(symbol, f, b.symbol, g); }
  }

  lemma {:induction false} BenchmarkStands(benchmarks: seq<BenchmarkView>, i: nat, f: ItemField, v: Value)
    requires i < |benchmarks| && StandsFor(OneBenchmark(benchmarks[i]), BenchmarkToken(benchmarks[i].symbol, f), v)
    requires forall j :: i < j < |benchmarks| ==> benchmarks[j].symbol != benchmarks[i].symbol
    ensures StandsFor(BenchmarkTokens(benchmarks), BenchmarkToken(benchmarks[i].symbol, f), v)
  {
    hide BenchmarkToken, OneBenchmark, StandsFor;
    var front, last := benchmarks[..|benchmarks| - 1], benchmarks[|benchmarks| - 1];
    if i < |benchmarks| - 1 {
      BenchmarkStands(front, i, f, v);
      OneBenchmarkSkips(last, benchmarks[i].symbol, f);
    }
    StandsAfter(BenchmarkTokens(front), OneBenchmark(last), BenchmarkToken(benchmarks[i].symbol, f), v);
  }

  lemma {:induction false} FindingStands(findings: seq<FindingView>, i: nat)
    requires i < |findings| && SafeName(findings[i].code)
    requires forall j :: i < j < |findings| ==> findings[j].code != findings[i].code
    ensures var says, f := FindingTokens(findings), findings[i];
            && (f.turnoverRatio != 0.0 ==> StandsFor(says, FindingToken(f.code, TurnoverRatio), Num(Ratio, f.turnoverRatio)))
            && (f.occurrences != 0 ==> StandsFor(says, FindingToken(f.code, Occurrences), Num(Count, f.occurrences as real)))
  {
    hide FindingToken, SafeName, Num;
    forall x, f, y, g { FindingTokensDiffer(x, f, y, g); }
    if i < |findings| - 1 {
      FindingStands(findings[..|findings| - 1], i);
    }
  }

  /** A listed position's figures stand under its own symbol, the last one's where two share a symbol. */
  lemma PositionTokensSay(r: ReportView, i: nat)
    requires r.risk.ok && i < |r.risk.positions| && SafeName(r.risk.positions[i].symbol)
    requires forall j :: i < j < |r.risk.positions| ==> r.risk.positions[j].symbol != r.risk.positions[i].symbol
    ensures var vocab, p := VocabularyOf(r), r.risk.positions[i];
            && StandsFor(vocab, "risk.positions." + p.symbol + ".weight_pct", Num(Percent, p.weightPct))
            && StandsFor(vocab, "risk.positions." + p.symbol + ".market_value", Num(Money, p.marketValue))
            && StandsFor(vocab, "risk.positions." + p.symbol + ".quantity", Num(Kind.Quantity, p.quantity))
  {
    hide VocabularyOf, RiskFigures, LargestToken, PositionTokens, WindowTokens, BenchmarkingTokens, BehaviorTokens;
    hide SafeName, Num;
    var p := r.risk.positions[i];
    OnePositionSays(p);
    PositionStands(r.risk.positions, i, WeightPct, Num(Percent, p.weightPct));
    PositionStands(r.risk.positions, i, MarketValue, Num(Money, p.marketValue));
    PositionStands(r.risk.positions, i, ItemField.Quantity, Num(Kind.Quantity, p.quantity));
    SectionsStand(r);
    PositionNames(p.symbol);
    hide PositionToken;
  }

  lemma JoinDot(a: string, b: string)
    ensures a + "." + b == a + ("." + b)
  {}

  lemma PositionNames(symbol: string)
    ensures PositionToken(symbol, WeightPct) == "risk.positions." + symbol + ".weight_pct"
    ensures PositionToken(symbol, MarketValue) == "risk.positions." + symbol + ".market_value"
    ensures PositionToken(symbol, ItemField.Quantity) == "risk.positions." + symbol + ".quantity"
  {
    JoinDot("risk.positions." + symbol, "weight_pct");
    JoinDot("risk.positions." + symbol, "market_value");
    JoinDot("risk.positions." + symbol, "quantity");
    assert "." + "weight_pct" == ".weight_pct";
    assert "." + "market_value" == ".market_value";
    assert "." + "quantity" == ".quantity";
  }

  /** A benchmark's figures stand under its own symbol. */
  lemma BenchmarkTokensSay(r: ReportView, i: nat)
    requires r.benchmarking.ok && i < |r.benchmarking.benchmarks| && SafeName(r.benchmarking.benchmarks[i].symbol)
    requires var all := r.benchmarking.benchmarks; forall j :: i < j < |all| ==> all[j].symbol != all[i].symbol
    ensures var vocab, b := VocabularyOf(r), r.benchmarking.benchmarks[i];
            && StandsFor(vocab, "benchmarking." + b.symbol + ".return_pct", Num(SignedPercent, b.returnPct))
            && StandsFor(vocab, "benchmarking." + b.symbol + ".excess_return_pct", Num(SignedPercent, b.excessReturnPct))
            && StandsFor(vocab, "benchmarking." + b.symbol + ".sharpe", Num(Ratio, b.sharpe))
  {
    hide VocabularyOf, BenchmarkingFigures, BenchmarkTokens, RiskTokens, WindowTokens, BehaviorTokens, SafeName, Num;
    var b := r.benchmarking.benchmarks[i];
    OneBenchmarkSays(b);
    BenchmarkStands(r.benchmarking.benchmarks, i, ReturnPct, Num(SignedPercent, b.returnPct));
    BenchmarkStands(r.benchmarking.benchmarks, i, ExcessReturnPct, Num(SignedPercent, b.excessReturnPct));
    BenchmarkStands(r.benchmarking.benchmarks, i, SharpeRatio, Num(Ratio, b.sharpe));
    SectionsStand(r);
    BenchmarkNames(b.symbol);
    hide BenchmarkToken;
  }

  lemma BenchmarkNames(symbol: string)
    ensures BenchmarkToken(symbol, ReturnPct) == "benchmarking." + symbol + ".return_pct"
    ensures BenchmarkToken(symbol, ExcessReturnPct) == "benchmarking." + symbol + ".excess_return_pct"
    ensures BenchmarkToken(symbol, SharpeRatio) == "benchmarking." + symbol + ".sharpe"
  {
    JoinDot("benchmarking." + symbol, "return_pct");
    JoinDot("benchmarking." + symbol, "excess_return_pct");
    JoinDot("benchmarking." + symbol, "sharpe");
    assert "." + "return_pct" == ".return_pct";
    assert "." + "excess_return_pct" == ".excess_return_pct";
    assert "." + "sharpe" == ".sharpe";
  }

  /** And a finding's under its own code, where it has them. */
  lemma FindingTokensSay(r: ReportView, i: nat)
    requires r.behavior.ok && i < |r.behavior.findings| && SafeName(r.behavior.findings[i].code)
    requires var all := r.behavior.findings; forall j :: i < j < |all| ==> all[j].code != all[i].code
    ensures var vocab, f := VocabularyOf(r), r.behavior.findings[i];
            && (f.turnoverRatio != 0.0 ==>
                  StandsFor(vocab, "behavior.findings." + f.code + ".turnover_ratio", Num(Ratio, f.turnoverRatio)))
            && (f.occurrences != 0 ==>
                  StandsFor(vocab, "behavior.findings." + f.code + ".occurrences", Num(Count, f.occurrences as real)))
  {
    hide VocabularyOf, BehaviorFigures, FindingTokens, RiskTokens, WindowTokens, BenchmarkingTokens, SafeName, Num;
    var f := r.behavior.findings[i];
    FindingStands(r.behavior.findings, i);
    SectionsStand(r);
    FindingNames(f.code);
    hide FindingToken;
  }

  lemma FindingNames(code: string)
    ensures FindingToken(code, TurnoverRatio) == "behavior.findings." + code + ".turnover_ratio"
    ensures FindingToken(code, Occurrences) == "behavior.findings." + code + ".occurrences"
  {
    JoinDot("behavior.findings." + code, "turnover_ratio");
    JoinDot("behavior.findings." + code, "occurrences");
    assert "." + "turnover_ratio" == ".turnover_ratio";
    assert "." + "occurrences" == ".occurrences";
  }
}
