/** The report pipeline: one calendar, and every section read only on its days. */
module Insights {
  import opened Numeric
  import opened Wrappers
  import opened Market
  import opened Ordering
  import opened Sums
  import opened Calendar
  import opened Reconstruct
  import opened Reconcile
  import opened PortfolioMath
  import opened Statistics
  import opened Sections

  const BENCHMARK_SYMBOLS: seq<Symbol> := ["SPY", "QQQ"]

  // ---- which symbols, and their bars

  function SymbolsOf(trades: seq<Trade>): set<Symbol> {
    Traded(trades) + set s | s in BENCHMARK_SYMBOLS
  }

  /** Every symbol ever traded, and both benchmarks. */
  method ReconstructionSymbols(trades: seq<Trade>) returns (symbols: seq<Symbol>)
    ensures symbols == SortedKeys(SymbolsOf(trades))
  {
    var unique: set<Symbol> := {};
    for i := 0 to |trades|
      invariant unique == Traded(trades[..i])
    {
      assert trades[..i + 1] == trades[..i] + [trades[i]];
      unique := unique + {trades[i].symbol};
    }
    assert trades[..|trades|] == trades;
    for i := 0 to |BENCHMARK_SYMBOLS|
      invariant unique == Traded(trades) + set s | s in BENCHMARK_SYMBOLS[..i]
    {
      assert BENCHMARK_SYMBOLS[..i + 1] == BENCHMARK_SYMBOLS[..i] + [BENCHMARK_SYMBOLS[i]];
      unique := unique + {BENCHMARK_SYMBOLS[i]};
    }
    assert BENCHMARK_SYMBOLS[..|BENCHMARK_SYMBOLS|] == BENCHMARK_SYMBOLS;
    return SortedKeys(unique);
  }

  datatype SymbolUnavailable = SymbolUnavailable(symbol: Symbol)

  /** The first symbol, in order, whose fetch failed. */
  function FirstUnavailable(ordered: seq<Symbol>, answers: map<Symbol, seq<Bar>>): Option<Symbol> {
    if ordered == [] then None
    else
      var earlier := FirstUnavailable(ordered[..|ordered| - 1], answers);
      var last := ordered[|ordered| - 1];
      if earlier.Some? then earlier else if last in answers then None else Some(last)
  }

  lemma {:induction false} UnavailableStays(ordered: seq<Symbol>, answers: map<Symbol, seq<Bar>>, k: nat)
    requires k <= |ordered| && FirstUnavailable(ordered[..k], answers).Some?
    ensures FirstUnavailable(ordered, answers) == FirstUnavailable(ordered[..k], answers)
    decreases |ordered|
  {
    if k == |ordered| {
      assert ordered[..k] == ordered;
    } else {
      assert ordered[..|ordered| - 1][..k] == ordered[..k];
      UnavailableStays(ordered[..|ordered| - 1], answers, k);
    }
  }

  /** Every symbol's slot filled once, in whatever order the fetches finish. */
  method FetchAll(ordered: seq<Symbol>, answers: map<Symbol, seq<Bar>>, schedule: seq<nat>)
    returns (bars: seq<seq<Bar>>, errs: seq<bool>)
    requires forall i :: 0 <= i < |ordered| <==> i in schedule
    ensures |bars| == |errs| == |ordered|
    ensures forall i :: 0 <= i < |ordered| ==>
              errs[i] == (ordered[i] !in answers) && (!errs[i] ==> bars[i] == answers[ordered[i]])
  {
    var n := |ordered|;
    var got, failed := new seq<Bar>[n](_ => []), new bool[n](_ => false);
    for k := 0 to |schedule|
      invariant forall i :: 0 <= i < n && i in schedule[..k] ==>
                  failed[i] == (ordered[i] !in answers) && (!failed[i] ==> got[i] == answers[ordered[i]])
    {
      var i := schedule[k];
      assert i in schedule;
      assert schedule[..k + 1] == schedule[..k] + [i];
      failed[i] := ordered[i] !in answers;
      if !failed[i] {
        got[i] := answers[ordered[i]];
      }
    }
    assert schedule[..|schedule|] == schedule;
    return got[..], failed[..];
  }

  /** The scan that names one failure: always the first in symbol order. */
  method FirstError(ordered: seq<Symbol>, answers: map<Symbol, seq<Bar>>, errs: seq<bool>) returns (failed: Option<Symbol>)
    requires |errs| == |ordered| && forall i :: 0 <= i < |ordered| ==> errs[i] == (ordered[i] !in answers)
    ensures failed == FirstUnavailable(ordered, answers)
    ensures failed.None? ==> forall s :: s in ordered ==> s in answers
  {
    for k := 0 to |ordered|
      invariant FirstUnavailable(ordered[..k], answers) == None
      invariant forall i :: 0 <= i < k ==> ordered[i] in answers
    {
      assert ordered[..k + 1][..k] == ordered[..k];
      if errs[k] {
        UnavailableStays(ordered, answers, k + 1);
        return Some(ordered[k]);
      }
    }
    assert ordered[..|ordered|] == ordered;
    return None;
  }

  method Collect(ordered: seq<Symbol>, bars: seq<seq<Bar>>, answers: map<Symbol, seq<Bar>>) returns (out: map<Symbol, seq<Bar>>)
    requires |bars| == |ordered| && forall i :: 0 <= i < |ordered| ==> ordered[i] in answers && bars[i] == answers[ordered[i]]
    ensures forall s :: s in out <==> s in ordered
    ensures forall s :: s in out ==> s in answers && out[s] == answers[s]
  {
    out := map[];
    for k := 0 to |ordered|
      invariant forall s :: s in out <==> s in ordered[..k]
      invariant forall s :: s in out ==> s in answers && out[s] == answers[s]
    {
      assert ordered[..k + 1] == ordered[..k] + [ordered[k]];
      out := out[ordered[k] := bars[k]];
    }
    assert ordered[..|ordered|] == ordered;
  }

  /** Concurrent fetches, finishing in whatever order the schedule says; neither the bars nor the failure reported
      depends on it. A symbol market-data cannot answer for is missing from answers. */
  method FetchHistories(symbols: set<Symbol>, answers: map<Symbol, seq<Bar>>, schedule: seq<nat>)
    returns (r: Result<map<Symbol, seq<Bar>>, SymbolUnavailable>)
    requires forall i :: 0 <= i < |SortedKeys(symbols)| <==> i in schedule
    ensures var failed := FirstUnavailable(SortedKeys(symbols), answers);
            r == if failed.Some? then Err(SymbolUnavailable(failed.value))
                 else Ok(map s | s in symbols && s in answers :: answers[s])
    ensures r.Ok? ==> r.value.Keys == symbols
  {
    hide SortedKeys, FirstUnavailable;
    var ordered := SortedKeys(symbols);
    var bars, errs := FetchAll(ordered, answers, schedule);
    var failed := FirstError(ordered, answers, errs);
    if failed.Some? {
      return Err(SymbolUnavailable(failed.value));
    }
    assert forall i :: 0 <= i < |ordered| ==> ordered[i] in ordered;
    var out := Collect(ordered, bars, answers);
    assert out == map s | s in symbols && s in answers :: answers[s];
    return Ok(out);
  }

  // ---- benchmarks

  function FirstUnpricedDate(symbol: Symbol, dates: seq<int>, closes: Closes): Option<int> {
    if dates == [] then None
    else
      var earlier := FirstUnpricedDate(symbol, dates[..|dates| - 1], closes);
      var last := dates[|dates| - 1];
      if earlier.Some? then earlier else if Priced(closes, symbol, last) then None else Some(last)
  }

  function ClosesOn(symbol: Symbol, dates: seq<int>, closes: Closes): (curve: seq<real>)
    ensures |curve| == |dates|
  {
    seq(|dates|, i requires 0 <= i < |dates| => CloseOn(closes, symbol, dates[i]))
  }

  /** Holding one symbol across exactly these dates, opened at a close that is a price. */
  function BoughtAndHeld(symbol: Symbol, dates: seq<int>, closes: Closes): Result<seq<real>, MissingClose>
    requires dates != []
  {
    if CloseOn(closes, symbol, dates[0]) == 0.0 then Err(MissingClose(symbol, dates[0]))
    else
      var gap := FirstUnpricedDate(symbol, dates, closes);
      if gap.Some? then Err(MissingClose(symbol, gap.value)) else Ok(ClosesOn(symbol, dates, closes))
  }

  lemma {:induction false} UnpricedDateStays(symbol: Symbol, dates: seq<int>, closes: Closes, k: nat)
    requires k <= |dates| && FirstUnpricedDate(symbol, dates[..k], closes).Some?
    ensures FirstUnpricedDate(symbol, dates, closes) == FirstUnpricedDate(symbol, dates[..k], closes)
    decreases |dates|
  {
    if k == |dates| {
      assert dates[..k] == dates;
    } else {
      assert dates[..|dates| - 1][..k] == dates[..k];
      UnpricedDateStays(symbol, dates[..|dates| - 1], closes, k);
    }
  }

  method BuyAndHold(symbol: Symbol, dates: seq<int>, closes: Closes) returns (r: Result<seq<real>, MissingClose>)
    requires dates != []
    ensures r == BoughtAndHeld(symbol, dates, closes)
  {
    if !Priced(closes, symbol, dates[0]) || closes[symbol][dates[0]] == 0.0 {
      return Err(MissingClose(symbol, dates[0]));
    }
    var curve := new real[|dates|](_ => 0.0);
    for i := 0 to |dates|
      invariant FirstUnpricedDate(symbol, dates[..i], closes) == None
      invariant forall k :: 0 <= k < i ==> curve[k] == CloseOn(closes, symbol, dates[k])
    {
      assert dates[..i + 1][..i] == dates[..i];
      if !Priced(closes, symbol, dates[i]) {
        UnpricedDateStays(symbol, dates, closes, i + 1);
        return Err(MissingClose(symbol, dates[i]));
      }
      curve[i] := closes[symbol][dates[i]];
    }
    assert dates[..|dates|] == dates;
    assert curve[..] == ClosesOn(symbol, dates, closes);
    return Ok(curve[..]);
  }

  datatype Benchmark = Benchmark(symbol: Symbol, name: string, returnPct: real, excessReturnPct: real,
                                 sharpe: real)

  /** A benchmark with no label of its own is labelled with its symbol. */
  function Label(symbol: Symbol): string {
    if symbol == "SPY" then "S&P 500" else if symbol == "QQQ" then "NASDAQ 100" else symbol
  }

  datatype BenchmarkingSection =
    | BenchmarkingUnavailable
    | Benchmarking(portfolioReturnPct: real, portfolioSharpe: real, benchmarks: seq<Benchmark>)

  function RowsFor(root: Root, symbols: seq<Symbol>, dates: seq<int>, closes: Closes, portfolioReturn: real)
    : Result<seq<Benchmark>, MissingClose>
    requires dates != []
  {
    if symbols == [] then Ok([])
    else
      var last := symbols[|symbols| - 1];
      match RowsFor(root, symbols[..|symbols| - 1], dates, closes, portfolioReturn)
      case Err(e) => Err(e)
      case Ok(rows) =>
        match BoughtAndHeld(last, dates, closes)
        case Err(e) => Err(e)
        case Ok(curve) =>
          var benchmarkReturn := TotalReturnPct(curve);
          Ok(rows + [Benchmark(last, Label(last), benchmarkReturn, portfolioReturn - benchmarkReturn, SharpeOf(root, curve))])
  }

  function BenchmarkingOf(root: Root, r: Reconstruction, closes: Closes): Result<BenchmarkingSection, MissingClose> {
    if |r.dates| < MIN_TRADING_DAYS then Ok(BenchmarkingUnavailable)
    else
      match RowsFor(root, BENCHMARK_SYMBOLS, r.dates, closes, TotalReturnPct(r.equity))
      case Err(e) => Err(e)
      case Ok(rows) => Ok(Benchmarking(TotalReturnPct(r.equity), SharpeOf(root, r.equity), rows))
  }

  method ComputeBenchmarking(root: Root, r: Reconstruction, closes: Closes)
    returns (section: Result<BenchmarkingSection, MissingClose>)
    ensures section == BenchmarkingOf(root, r, closes)
  {
    hide BoughtAndHeld, TotalReturnPct, Label, SharpeOf;
    if |r.dates| < MIN_TRADING_DAYS {
      return Ok(BenchmarkingUnavailable);
    }
    var portfolioReturn := TotalReturnPct(r.equity);
    var benchmarks: seq<Benchmark> := [];
    for i := 0 to |BENCHMARK_SYMBOLS|
      invariant RowsFor(root, BENCHMARK_SYMBOLS[..i], r.dates, closes, portfolioReturn) == Ok(benchmarks)
    {
      assert BENCHMARK_SYMBOLS[..i + 1][..i] == BENCHMARK_SYMBOLS[..i];
      var curve := BuyAndHold(BENCHMARK_SYMBOLS[i], r.dates, closes);
      if curve.Err? {
        RowsStay(root, BENCHMARK_SYMBOLS, i + 1, r.dates, closes, portfolioReturn);
        return Err(curve.error);
      }
      var benchmarkReturn := TotalReturnPct(curve.value);
      var sharpe := Sharpe(root, curve.value);
      benchmarks := benchmarks + [Benchmark(BENCHMARK_SYMBOLS[i], Label(BENCHMARK_SYMBOLS[i]), benchmarkReturn,
                                            portfolioReturn - benchmarkReturn, sharpe)];
    }
    assert BENCHMARK_SYMBOLS[..|BENCHMARK_SYMBOLS|] == BENCHMARK_SYMBOLS;
    var portfolioSharpe := Sharpe(root, r.equity);
    return Ok(Benchmarking(portfolioReturn, portfolioSharpe, benchmarks));
  }

  lemma {:induction false} RowsStay(root: Root, symbols: seq<Symbol>, k: nat, dates: seq<int>, closes: Closes,
                                    portfolioReturn: real)
    requires dates != [] && k <= |symbols| && RowsFor(root, symbols[..k], dates, closes, portfolioReturn).Err?
    ensures RowsFor(root, symbols, dates, closes, portfolioReturn) == RowsFor(root, symbols[..k], dates, closes, portfolioReturn)
    decreases |symbols|
  {
    if k == |symbols| {
      assert symbols[..k] == symbols;
    } else {
      assert symbols[..|symbols| - 1][..k] == symbols[..k];
      RowsStay(root, symbols[..|symbols| - 1], k, dates, closes, portfolioReturn);
    }
  }

  /** Each benchmark in its place, measured over its own closes on the portfolio's dates, with what the portfolio made
      beyond it: what it made and the excess come to the portfolio's return. */
  lemma {:induction false} RowsAre(root: Root, symbols: seq<Symbol>, dates: seq<int>, closes: Closes, portfolioReturn: real)
    requires dates != [] && RowsFor(root, symbols, dates, closes, portfolioReturn).Ok?
    ensures var rows := RowsFor(root, symbols, dates, closes, portfolioReturn).value;
            && |rows| == |symbols|
            && forall i :: 0 <= i < |rows| ==>
                 var curve := ClosesOn(symbols[i], dates, closes);
                 && rows[i].symbol == symbols[i] && rows[i].name == Label(symbols[i])
                 && rows[i].returnPct == TotalReturnPct(curve) && rows[i].sharpe == SharpeOf(root, curve)
                 && rows[i].returnPct + rows[i].excessReturnPct == portfolioReturn
  {
    if symbols != [] {
      hide SharpeOf, TotalReturnPct, Label;
      RowsAre(root, symbols[..|symbols| - 1], dates, closes, portfolioReturn);
    }
  }

  // ---- overtrading

  const OVERTRADING_WINDOW_DAYS: int := 30
  const OVERTRADING_TURNOVER_RATIO: real := 2.0

  /** The days that count: after the window's start, up to the last date of the curve. */
  predicate Recent(day: int, asOf: int) {
    asOf - OVERTRADING_WINDOW_DAYS < day <= asOf
  }

  function RecentTrades(trades: seq<Trade>, asOf: int): seq<Trade> {
    if trades == [] then []
    else
      var last := trades[|trades| - 1];
      RecentTrades(trades[..|trades| - 1], asOf) + if Recent(Day(last.executedAt), asOf) then [last] else []
  }

  function ValueTraded(trades: seq<Trade>): real {
    if trades == [] then 0.0
    else ValueTraded(trades[..|trades| - 1]) + Amount(trades[|trades| - 1].price, trades[|trades| - 1].quantity)
  }

  function Ids(trades: seq<Trade>): (ids: seq<nat>)
    ensures |ids| == |trades|
  {
    if trades == [] then [] else Ids(trades[..|trades| - 1]) + [trades[|trades| - 1].id]
  }

  /** The equity of the curve's dates after the window's start. */
  function RecentEquity(dates: seq<int>, equity: seq<real>, asOf: int): (e: seq<real>)
    requires |dates| == |equity|
    ensures |e| <= |dates|
  {
    if dates == [] then []
    else
      var last := |dates| - 1;
      RecentEquity(dates[..last], equity[..last], asOf)
      + if dates[last] > asOf - OVERTRADING_WINDOW_DAYS then [equity[last]] else []
  }

  datatype TurnoverFinding = TurnoverFinding(turnoverRatio: real, evidence: seq<nat>)

  /** Value traded over the mean equity of the same days; nothing where there is no such ratio. */
  function Turnover(traded: real, equity: seq<real>): Option<real> {
    if equity == [] || Sum(equity) == 0.0 then None else Some(traded / (Sum(equity) / |equity| as real))
  }

  function OvertradingOf(trades: seq<Trade>, r: Reconstruction): Option<TurnoverFinding>
    requires |r.dates| == |r.equity|
  {
    if r.dates == [] then None
    else
      var asOf := r.dates[|r.dates| - 1];
      var recent := RecentTrades(trades, asOf);
      var turnover := Turnover(ValueTraded(recent), RecentEquity(r.dates, r.equity, asOf));
      if recent == [] || turnover.None? || turnover.value <= OVERTRADING_TURNOVER_RATIO then None
      else Some(TurnoverFinding(turnover.value, Ids(recent)))
  }

  /** The last thirty days, the as-of date among them. */
  lemma {:induction false} RecentIs(trades: seq<Trade>, asOf: int, t: Trade)
    ensures multiset(RecentTrades(trades, asOf))[t] == if 0 <= asOf - Day(t.executedAt) < 30 then multiset(trades)[t] else 0
  {
    if trades != [] {
      RecentIs(trades[..|trades| - 1], asOf, t);
      assert trades == trades[..|trades| - 1] + [trades[|trades| - 1]];
    }
  }

  /** On an ascending curve they are its last points, those less than thirty days old. */
  lemma {:induction false} RecentEquityIs(dates: seq<int>, equity: seq<real>, asOf: int, k: nat)
    requires |dates| == |equity| && k <= |dates|
    requires forall i :: 0 <= i < |dates| ==> (i >= k <==> asOf - dates[i] < 30)
    ensures RecentEquity(dates, equity, asOf) == equity[k..]
  {
    if dates != [] {
      var last := |dates| - 1;
      if k <= last {
        RecentEquityIs(dates[..last], equity[..last], asOf, k);
        assert equity[k..] == equity[..last][k..] + [equity[last]];
      } else {
        RecentEquityIs(dates[..last], equity[..last], asOf, last);
      }
    }
  }

  lemma RecentStep(trades: seq<Trade>, k: nat, asOf: int)
    requires k < |trades|
    ensures var earlier := RecentTrades(trades[..k], asOf);
            RecentTrades(trades[..k + 1], asOf)
            == if Recent(Day(trades[k].executedAt), asOf) then earlier + [trades[k]] else earlier
    ensures var earlier := RecentTrades(trades[..k], asOf);
            && ValueTraded(earlier + [trades[k]]) == ValueTraded(earlier) + Amount(trades[k].price, trades[k].quantity)
            && Ids(earlier + [trades[k]]) == Ids(earlier) + [trades[k].id]
  {
    hide Recent, Amount;
    var earlier := RecentTrades(trades[..k], asOf);
    assert trades[..k + 1][..k] == trades[..k];
    assert (earlier + [trades[k]])[..|earlier|] == earlier;
  }

  lemma RecentEquityStep(dates: seq<int>, equity: seq<real>, k: nat, asOf: int)
    requires |dates| == |equity| && k < |dates|
    ensures var earlier := RecentEquity(dates[..k], equity[..k], asOf);
            var later := RecentEquity(dates[..k + 1], equity[..k + 1], asOf);
            later == if dates[k] > asOf - OVERTRADING_WINDOW_DAYS then earlier + [equity[k]] else earlier
    ensures var earlier := RecentEquity(dates[..k], equity[..k], asOf);
            Sum(earlier + [equity[k]]) == Sum(earlier) + equity[k]
  {
    var earlier := RecentEquity(dates[..k], equity[..k], asOf);
    assert dates[..k + 1][..k] == dates[..k] && equity[..k + 1][..k] == equity[..k];
    assert (earlier + [equity[k]])[..|earlier|] == earlier;
  }

  method Overtrading(trades: seq<Trade>, r: Reconstruction) returns (finding: Option<TurnoverFinding>)
    requires |r.dates| == |r.equity|
    ensures finding == OvertradingOf(trades, r)
  {
    hide RecentTrades, ValueTraded, Ids, RecentEquity, Sum, Amount, Recent;
    if |r.dates| == 0 {
      return None;
    }
    var asOf := r.dates[|r.dates| - 1];
    var traded := 0.0;
    var ids: seq<nat> := [];
    NothingRecent(asOf);
    for k := 0 to |trades|
      invariant traded == ValueTraded(RecentTrades(trades[..k], asOf)) && ids == Ids(RecentTrades(trades[..k], asOf))
    {
      RecentStep(trades, k, asOf);
      if Recent(Day(trades[k].executedAt), asOf) {
        traded := traded + Amount(trades[k].price, trades[k].quantity);
        ids := ids + [trades[k].id];
      }
    }
    assert trades[..|trades|] == trades;
    if |ids| == 0 {
      return None;
    }
    var sum, days := 0.0, 0;
    for k := 0 to |r.dates|
      invariant sum == Sum(RecentEquity(r.dates[..k], r.equity[..k], asOf))
      invariant days == |RecentEquity(r.dates[..k], r.equity[..k], asOf)|
    {
      RecentEquityStep(r.dates, r.equity, k, asOf);
      if r.dates[k] > asOf - OVERTRADING_WINDOW_DAYS {
        sum := sum + r.equity[k];
        days := days + 1;
      }
    }
    assert r.dates[..|r.dates|] == r.dates && r.equity[..|r.equity|] == r.equity;
    if days == 0 || sum == 0.0 {
      return None;
    }
    var turnover := traded / (sum / days as real);
    if turnover <= OVERTRADING_TURNOVER_RATIO {
      return None;
    }
    return Some(TurnoverFinding(turnover, ids));
  }

  lemma NothingRecent(asOf: int)
    ensures RecentTrades([], asOf) == [] && ValueTraded([]) == 0.0 && Ids([]) == []
    ensures RecentEquity([], [], asOf) == [] && Sum([]) == 0.0
  {}

  lemma RatioAbove(traded: real, sum: real, days: nat)
    requires sum > 0.0 && days > 0
    ensures traded / (sum / days as real) > OVERTRADING_TURNOVER_RATIO
            <==> traded * days as real > OVERTRADING_TURNOVER_RATIO * sum
    ensures traded / (sum / days as real) * sum == traded * days as real
  {
    var mean := sum / days as real;
    assert mean * days as real == sum;
    assert mean > 0.0 by { if mean <= 0.0 { ProductNonnegative(-mean, days as real); } }
    var q := traded / mean;
    assert q * mean == traded;
    assert traded * days as real == q * sum by {
      assert q * mean * days as real == q * (mean * days as real);
    }
    if q > OVERTRADING_TURNOVER_RATIO {
      assert (q - OVERTRADING_TURNOVER_RATIO) * sum > 0.0;
    } else {
      ProductNonnegative(OVERTRADING_TURNOVER_RATIO - q, sum);
    }
  }

  lemma {:induction false} SumPositive(values: seq<real>)
    requires values != [] && forall i :: 0 <= i < |values| ==> values[i] > 0.0
    ensures Sum(values) > 0.0
  {
    if |values| > 1 {
      SumPositive(values[..|values| - 1]);
    }
  }

  lemma {:induction false} RecentEquityMembers(dates: seq<int>, equity: seq<real>, asOf: int)
    requires |dates| == |equity| && forall i :: 0 <= i < |equity| ==> equity[i] > 0.0
    ensures forall i :: 0 <= i < |RecentEquity(dates, equity, asOf)| ==> RecentEquity(dates, equity, asOf)[i] > 0.0
    ensures dates != [] && dates[|dates| - 1] == asOf ==> RecentEquity(dates, equity, asOf) != []
  {
    if dates != [] {
      RecentEquityMembers(dates[..|dates| - 1], equity[..|dates| - 1], asOf);
    }
  }

  /** On a curve that is always worth something the rule fires exactly when some trade is recent and the value traded
      is more than twice the mean equity over the same days; its evidence is exactly the recent trades, in order. */
  lemma OvertradingFiresIff(trades: seq<Trade>, r: Reconstruction)
    requires |r.dates| == |r.equity| && r.dates != [] && forall i :: 0 <= i < |r.equity| ==> r.equity[i] > 0.0
    ensures var asOf, finding := r.dates[|r.dates| - 1], OvertradingOf(trades, r);
            var recent, equity := RecentTrades(trades, asOf), RecentEquity(r.dates, r.equity, asOf);
            && |equity| > 0
            && (finding.Some? <==>
                  recent != [] && ValueTraded(recent) * |equity| as real > OVERTRADING_TURNOVER_RATIO * Sum(equity))
            && (finding.Some? ==>
                  && finding.value.evidence == Ids(recent)
                  && finding.value.turnoverRatio * Sum(equity) == ValueTraded(recent) * |equity| as real)
  {
    hide RecentTrades, ValueTraded, Ids, RecentEquity, Sum;
    var asOf := r.dates[|r.dates| - 1];
    var equity := RecentEquity(r.dates, r.equity, asOf);
    RecentEquityMembers(r.dates, r.equity, asOf);
    SumPositive(equity);
    RatioAbove(ValueTraded(RecentTrades(trades, asOf)), Sum(equity), |equity|);
  }

  // ---- panic selling

  const PANIC_SELL_DROP_PCT: real := 5.0
  const PANIC_SELL_MIN_OCCURRENCES: nat := 3
  const PANIC_SELL_MIN_SHARE_OF_SELLS: real := 0.30

  /** How many dates of an ascending calendar come before a day. */
  function FirstAtOrAfter(dates: seq<int>, day: int): (i: nat)
    ensures i <= |dates|
  {
    if dates == [] then 0
    else if dates[|dates| - 1] < day then |dates|
    else FirstAtOrAfter(dates[..|dates| - 1], day)
  }

  lemma {:induction false} FirstAtOrAfterSplits(dates: seq<int>, day: int)
    requires DatesAscend(dates)
    ensures var i := FirstAtOrAfter(dates, day);
            && (forall k :: 0 <= k < i ==> dates[k] < day)
            && (forall k :: i <= k < |dates| ==> day <= dates[k])
  {
    if dates != [] && !(dates[|dates| - 1] < day) {
      FirstAtOrAfterSplits(dates[..|dates| - 1], day);
      assert forall k :: 0 <= k < |dates| - 1 ==> dates[k] == dates[..|dates| - 1][k];
    }
  }

  /** The standard library's search over a monotone predicate. */
  method SearchDay(dates: seq<int>, day: int) returns (i: nat)
    requires DatesAscend(dates)
    ensures i == FirstAtOrAfter(dates, day)
  {
    i := 0;
    var j := |dates|;
    while i < j
      invariant 0 <= i <= j <= |dates|
      invariant forall k :: 0 <= k < i ==> dates[k] < day
      invariant forall k :: j <= k < |dates| ==> day <= dates[k]
    {
      var h := (i + j) / 2;
      if dates[h] < day {
        i := h + 1;
      } else {
        j := h;
      }
    }
    FirstAtOrAfterSplits(dates, day);
    ghost var f := FirstAtOrAfter(dates, day);
    assert f < |dates| ==> day <= dates[f];
    assert i < |dates| ==> day <= dates[i];
  }

  /** The two sessions before a day: the last calendar date strictly before it, and the one before that. */
  method PriorSessions(tradeDay: int, calendar: seq<int>) returns (prev: int, before: int, ok: bool)
    requires DatesAscend(calendar)
    ensures ok <==> FirstAtOrAfter(calendar, tradeDay) >= 2
    ensures ok ==> var i := FirstAtOrAfter(calendar, tradeDay); prev == calendar[i - 1] && before == calendar[i - 2]
  {
    var i := SearchDay(calendar, tradeDay);
    if i < 2 {
      return 0, 0, false;
    }
    return calendar[i - 1], calendar[i - 2], true;
  }

  function Dropped(symbol: Symbol, prev: int, before: int, closes: Closes): Result<bool, MissingClose> {
    if !Priced(closes, symbol, prev) then Err(MissingClose(symbol, prev))
    else if CloseOn(closes, symbol, before) == 0.0 then Err(MissingClose(symbol, before))
    else Ok(CloseOn(closes, symbol, prev) <= CloseOn(closes, symbol, before) * (1.0 - PANIC_SELL_DROP_PCT / 100.0))
  }

  datatype Judgement = NotJudged | Calm | Panicked

  /** What the rule makes of one trade. A sell nobody can judge is not counted at all; one at a profit is counted
      and needs no prices. */
  function Judge(t: Trade, dates: seq<int>, closes: Closes): Result<Judgement, MissingClose>
    requires dates != []
  {
    var i := FirstAtOrAfter(dates, Day(t.executedAt));
    if t.side != Sell || Day(t.executedAt) > dates[|dates| - 1] || i < 2 then Ok(NotJudged)
    else if t.realizedPL.None? || t.realizedPL.value >= 0.0 then Ok(Calm)
    else match Dropped(t.symbol, dates[i - 1], dates[i - 2], closes)
      case Err(e) => Err(e)
      case Ok(dropped) => Ok(if dropped then Panicked else Calm)
  }

  datatype Tally = Tally(sells: nat, evidence: seq<nat>)

  function TallyOf(trades: seq<Trade>, dates: seq<int>, closes: Closes): (r: Result<Tally, MissingClose>)
    requires dates != []
    ensures r.Ok? ==> |r.value.evidence| <= r.value.sells
  {
    if trades == [] then Ok(Tally(0, []))
    else
      var last := trades[|trades| - 1];
      match TallyOf(trades[..|trades| - 1], dates, closes)
      case Err(e) => Err(e)
      case Ok(tally) =>
        match Judge(last, dates, closes)
        case Err(e) => Err(e)
        case Ok(NotJudged) => Ok(tally)
        case Ok(Calm) => Ok(tally.(sells := tally.sells + 1))
        case Ok(Panicked) => Ok(Tally(tally.sells + 1, tally.evidence + [last.id]))
  }

  datatype PanicFinding = PanicFinding(occurrences: nat, evidence: seq<nat>)

  function FindingOf(tally: Tally): Option<PanicFinding>
    requires |tally.evidence| <= tally.sells
  {
    var n := |tally.evidence|;
    if n == 0 then None
    else
      var share := n as real / tally.sells as real;
      if n < PANIC_SELL_MIN_OCCURRENCES && share < PANIC_SELL_MIN_SHARE_OF_SELLS then None
      else Some(PanicFinding(n, tally.evidence))
  }

  /** The rule fires on three panic sales, or on one when they are three in ten of the judgeable ones or more. */
  lemma PanicFiresIff(tally: Tally)
    requires |tally.evidence| <= tally.sells
    ensures var n, finding := |tally.evidence|, FindingOf(tally);
            && (finding.Some? <==> n >= 1 && (n >= 3 || 10 * n >= 3 * tally.sells))
            && (finding.Some? ==> finding.value == PanicFinding(n, tally.evidence))
  {
    var n := |tally.evidence|;
    if n > 0 {
      var share := n as real / tally.sells as real;
      assert share * tally.sells as real == n as real;
      ShareAtLeast(share, tally.sells, n);
    }
  }

  lemma ShareAtLeast(share: real, sells: int, n: int)
    requires sells > 0 && share * sells as real == n as real
    ensures share >= 0.30 <==> 10 * n >= 3 * sells
  {
    assert (share - 0.30) * sells as real == n as real - 0.30 * sells as real;
    if share >= 0.30 {
      ProductNonnegative(share - 0.30, sells as real);
    } else {
      assert (0.30 - share) * sells as real > 0.0;
    }
  }

  function PanicOf(trades: seq<Trade>, r: Reconstruction, closes: Closes): Result<Option<PanicFinding>, MissingClose> {
    if r.dates == [] then Ok(None)
    else match TallyOf(trades, r.dates, closes)
      case Err(e) => Err(e)
      case Ok(tally) => Ok(FindingOf(tally))
  }

  lemma {:induction false} TallyStays(trades: seq<Trade>, k: nat, dates: seq<int>, closes: Closes)
    requires dates != [] && k <= |trades| && TallyOf(trades[..k], dates, closes).Err?
    ensures TallyOf(trades, dates, closes) == TallyOf(trades[..k], dates, closes)
    decreases |trades|
  {
    if k == |trades| {
      assert trades[..k] == trades;
    } else {
      assert trades[..|trades| - 1][..k] == trades[..k];
      TallyStays(trades[..|trades| - 1], k, dates, closes);
    }
  }

  method PanicSelling(trades: seq<Trade>, r: Reconstruction, closes: Closes)
    returns (finding: Result<Option<PanicFinding>, MissingClose>)
    requires DatesAscend(r.dates)
    ensures finding == PanicOf(trades, r, closes)
  {
    hide FirstAtOrAfter, Dropped;
    if |r.dates| == 0 {
      return Ok(None);
    }
    var asOf := r.dates[|r.dates| - 1];
    var sells: nat := 0;
    var ids: seq<nat> := [];
    for k := 0 to |trades|
      invariant TallyOf(trades[..k], r.dates, closes) == Ok(Tally(sells, ids))
    {
      var t := trades[k];
      assert trades[..k + 1][..k] == trades[..k];
      if t.side != Sell {
        continue;
      }
      if Day(t.executedAt) > asOf {
        continue;
      }
      var prev, before, judgeable := PriorSessions(Day(t.executedAt), r.dates);
      if !judgeable {
        continue;
      }
      sells := sells + 1;
      if t.realizedPL.None? || t.realizedPL.value >= 0.0 {
        continue;
      }
      var dropped := Dropped(t.symbol, prev, before, closes);
      if dropped.Err? {
        TallyStays(trades, k + 1, r.dates, closes);
        return Err(dropped.error);
      }
      if dropped.value {
        ids := ids + [t.id];
      }
    }
    assert trades[..|trades|] == trades;
    return Ok(FindingOf(Tally(sells, ids)));
  }

  /** Where a sale sits among an ascending calendar's dates: the first i of them before its day, the rest not, and at
      least two before it and one not. */
  ghost predicate SoldAt(t: Trade, dates: seq<int>, i: nat)
    requires i <= |dates|
  {
    && 2 <= i < |dates|
    && (forall k :: 0 <= k < i ==> dates[k] < Day(t.executedAt))
    && (forall k :: i <= k < |dates| ==> Day(t.executedAt) <= dates[k])
  }

  /** A sale the rule can judge: made no later than the last date, with two calendar dates before its day. */
  ghost predicate Judgeable(t: Trade, dates: seq<int>) {
    t.side == Sell && exists i :: 0 <= i <= |dates| && SoldAt(t, dates, i)
  }

  /** The symbol's close fell five percent or more from one date to the next. */
  ghost predicate Fell(symbol: Symbol, prev: int, before: int, closes: Closes) {
    Priced(closes, symbol, prev) && CloseOn(closes, symbol, before) != 0.0
    && CloseOn(closes, symbol, prev) <= CloseOn(closes, symbol, before) * 0.95
  }

  /** A panic sale: judgeable, booked at a loss, and its symbol fell across the two calendar dates before its day. */
  ghost predicate IsPanicSale(t: Trade, dates: seq<int>, closes: Closes) {
    && t.side == Sell && t.realizedPL.Some? && t.realizedPL.value < 0.0
    && exists i :: 0 <= i <= |dates| && SoldAt(t, dates, i) && Fell(t.symbol, dates[i - 1], dates[i - 2], closes)
  }

  lemma SoldAtIsFirst(t: Trade, dates: seq<int>, i: nat)
    requires dates != [] && DatesAscend(dates) && i <= |dates|
    ensures SoldAt(t, dates, i) <==>
              i == FirstAtOrAfter(dates, Day(t.executedAt)) && i >= 2 && Day(t.executedAt) <= dates[|dates| - 1]
  {
    FirstAtOrAfterSplits(dates, Day(t.executedAt));
  }

  predicate HasPair(day: int, dates: seq<int>)
    requires dates != []
  {
    FirstAtOrAfter(dates, day) >= 2 && day <= dates[|dates| - 1]
  }

  lemma JudgeableIff(t: Trade, dates: seq<int>)
    requires dates != [] && DatesAscend(dates)
    ensures Judgeable(t, dates) <==> t.side == Sell && HasPair(Day(t.executedAt), dates)
  {
    hide SoldAt, FirstAtOrAfter;
    SoldAtIsFirst(t, dates, FirstAtOrAfter(dates, Day(t.executedAt)));
    if Judgeable(t, dates) {
      var i :| 0 <= i <= |dates| && SoldAt(t, dates, i);
      SoldAtIsFirst(t, dates, i);
    }
  }

  lemma PanicIff(t: Trade, dates: seq<int>, closes: Closes)
    requires dates != [] && DatesAscend(dates)
    ensures IsPanicSale(t, dates, closes) <==>
              && t.side == Sell && t.realizedPL.Some? && t.realizedPL.value < 0.0 && HasPair(Day(t.executedAt), dates)
              && var first := FirstAtOrAfter(dates, Day(t.executedAt));
                 Fell(t.symbol, dates[first - 1], dates[first - 2], closes)
  {
    hide Fell, FirstAtOrAfter;
    var first := FirstAtOrAfter(dates, Day(t.executedAt));
    SoldAtIsFirst(t, dates, first);
    if IsPanicSale(t, dates, closes) {
      var i :| 0 <= i <= |dates| && SoldAt(t, dates, i) && Fell(t.symbol, dates[i - 1], dates[i - 2], closes);
      SoldAtIsFirst(t, dates, i);
    }
    if HasPair(Day(t.executedAt), dates) {
      assert SoldAt(t, dates, first);
    }
  }

  /** What the rule makes of a trade it does not fail on. */
  lemma JudgedIff(t: Trade, dates: seq<int>, closes: Closes)
    requires dates != [] && DatesAscend(dates) && Judge(t, dates, closes).Ok?
    ensures Judge(t, dates, closes).value.NotJudged? <==> !Judgeable(t, dates)
    ensures Judge(t, dates, closes).value.Panicked? <==> IsPanicSale(t, dates, closes)
  {
    hide Judgeable, IsPanicSale, FirstAtOrAfter;
    JudgeableIff(t, dates);
    PanicIff(t, dates, closes);
  }

  ghost function JudgeableSales(trades: seq<Trade>, dates: seq<int>): nat {
    if trades == [] then 0
    else JudgeableSales(trades[..|trades| - 1], dates) + if Judgeable(trades[|trades| - 1], dates) then 1 else 0
  }

  ghost function PanicSales(trades: seq<Trade>, dates: seq<int>, closes: Closes): seq<nat> {
    if trades == [] then []
    else
      PanicSales(trades[..|trades| - 1], dates, closes)
      + if IsPanicSale(trades[|trades| - 1], dates, closes) then [trades[|trades| - 1].id] else []
  }

  /** The evidence is exactly the panic sales of the log, in its order, and the denominator exactly its judgeable sales. */
  lemma {:induction false} EvidenceIsPanic(trades: seq<Trade>, dates: seq<int>, closes: Closes)
    requires dates != [] && DatesAscend(dates) && TallyOf(trades, dates, closes).Ok?
    ensures TallyOf(trades, dates, closes) == Ok(Tally(JudgeableSales(trades, dates), PanicSales(trades, dates, closes)))
  {
    if trades != [] {
      hide Judge, IsPanicSale, Judgeable;
      var before, last := trades[..|trades| - 1], trades[|trades| - 1];
      EvidenceIsPanic(before, dates, closes);
      JudgedIff(last, dates, closes);
      assert PanicSales(before, dates, closes) + [] == PanicSales(before, dates, closes);
    }
  }

  // ---- as the pipeline wires it

  /** The bars are exactly the ones fetched for this log, and no bar closes at nothing. */
  ghost predicate Wired(trades: seq<Trade>, barsBySymbol: map<Symbol, seq<Bar>>) {
    && barsBySymbol.Keys == SymbolsOf(trades)
    && forall s, b :: s in barsBySymbol && b in barsBySymbol[s] ==> b.close != 0.0
  }

  /** On a calendar day every symbol that was fetched has a close, and it is a price. */
  lemma PricedOnCalendar(trades: seq<Trade>, barsBySymbol: map<Symbol, seq<Bar>>, dates: seq<int>, s: Symbol, d: int)
    requires Wired(trades, barsBySymbol) && IsCalendar(dates, barsBySymbol) && s in SymbolsOf(trades) && d in dates
    ensures Priced(ClosesOf(barsBySymbol), s, d) && CloseOn(ClosesOf(barsBySymbol), s, d) != 0.0
  {
    var i :| 0 <= i < |dates| && dates[i] == d;
    ListsItsMembers(dates, i);
    assert EverySymbolHas(barsBySymbol, d);
    HasDayMeans(barsBySymbol[s], d);
    DayCloseIsLatest(barsBySymbol[s], d);
  }

  /** Reconstruct never misses a close on the calendar of the symbols it was given. */
  lemma ReconstructsWithoutGap(trades: seq<Trade>, barsBySymbol: map<Symbol, seq<Bar>>, dates: seq<int>)
    requires Wired(trades, barsBySymbol) && IsCalendar(dates, barsBySymbol)
    ensures Reconstructed(trades, ClosesOf(barsBySymbol), dates).Ok?
  {
    if trades != [] {
      hide Reconstructed, ClosesOf, HoldingsOn, FirstDay;
      var closes := ClosesOf(barsBySymbol);
      ReconstructFailsIff(trades, closes, dates);
      forall d | d in dates ensures FullyPriced(trades, closes, d) {
        HeldWasTraded(trades, d);
        forall s | s in HoldingsOn(trades, d) ensures Priced(closes, s, d) {
          PricedOnCalendar(trades, barsBySymbol, dates, s, d);
        }
      }
    }
  }

  /** Everything a section looks up: a traded symbol or a benchmark, on a date of the curve. */
  ghost predicate AllPriced(symbols: set<Symbol>, closes: Closes, dates: seq<int>) {
    forall s, i :: s in symbols && 0 <= i < |dates| ==> Priced(closes, s, dates[i]) && CloseOn(closes, s, dates[i]) != 0.0
  }

  lemma CurveAscends(trades: seq<Trade>, closes: Closes, dates: seq<int>, r: Reconstruction)
    requires DatesAscend(dates) && Reconstructed(trades, closes, dates) == Ok(r)
    ensures DatesAscend(r.dates) && |r.dates| == |r.equity| == |r.cash|
  {
    hide FirstDay, Window, EquityOn, CashOn, HoldingsOn, Valuer;
    if trades != [] && dates != [] {
      WindowMembers(dates, FirstDay(trades));
    }
  }

  lemma CurveIsOnCalendar(trades: seq<Trade>, barsBySymbol: map<Symbol, seq<Bar>>, dates: seq<int>, r: Reconstruction)
    requires Wired(trades, barsBySymbol) && IsCalendar(dates, barsBySymbol)
    requires Reconstructed(trades, ClosesOf(barsBySymbol), dates) == Ok(r)
    ensures |r.dates| == |r.equity| == |r.cash|
    ensures r.holdings.Keys <= SymbolsOf(trades) && AllPriced(SymbolsOf(trades), ClosesOf(barsBySymbol), r.dates)
    ensures MarkedAtEnd(r, ClosesOf(barsBySymbol))
  {
    hide ClosesOf, HoldingsOn, FirstDay, Window, EquityOn, CashOn, Valuer;
    if trades != [] && dates != [] {
      var closes, window := ClosesOf(barsBySymbol), Window(dates, FirstDay(trades));
      WindowMembers(dates, FirstDay(trades));
      forall s, i | s in SymbolsOf(trades) && 0 <= i < |window|
        ensures Priced(closes, s, window[i]) && CloseOn(closes, s, window[i]) != 0.0
      {
        assert window[i] in window;
        PricedOnCalendar(trades, barsBySymbol, dates, s, window[i]);
      }
      if window != [] {
        HeldWasTraded(trades, window[|window| - 1]);
        LastIsMarked(trades, closes, window);
      }
    }
  }

  lemma LastIsMarked(trades: seq<Trade>, closes: Closes, window: seq<int>)
    requires window != []
    ensures var last := |window| - 1;
            EquityCurve(trades, closes, window)[last]
            == Equity(CashCurve(trades, window)[last], HoldingsOn(trades, window[last]), closes, window[last])
  {}

  lemma {:induction false} BenchmarksPriced(symbol: Symbol, dates: seq<int>, closes: Closes)
    requires forall i :: 0 <= i < |dates| ==> Priced(closes, symbol, dates[i])
    ensures FirstUnpricedDate(symbol, dates, closes) == None
  {
    if dates != [] {
      BenchmarksPriced(symbol, dates[..|dates| - 1], closes);
    }
  }

  lemma {:induction false} RowsExist(root: Root, symbols: seq<Symbol>, dates: seq<int>, closes: Closes, portfolioReturn: real)
    requires dates != [] && forall s :: s in symbols ==> BoughtAndHeld(s, dates, closes).Ok?
    ensures RowsFor(root, symbols, dates, closes, portfolioReturn).Ok?
  {
    if symbols != [] {
      hide BoughtAndHeld;
      RowsExist(root, symbols[..|symbols| - 1], dates, closes, portfolioReturn);
      assert symbols[|symbols| - 1] in symbols;
    }
  }

  lemma {:induction false} TallyExists(trades: seq<Trade>, dates: seq<int>, closes: Closes)
    requires dates != [] && forall t :: t in trades ==> Judge(t, dates, closes).Ok?
    ensures TallyOf(trades, dates, closes).Ok?
  {
    if trades != [] {
      hide Judge;
      TallyExists(trades[..|trades| - 1], dates, closes);
      assert trades[|trades| - 1] in trades;
    }
  }

  /** No section misses a close either: risk, both benchmarks, and every sale the panic rule judges. */
  lemma SectionsWithoutGap(root: Root, trades: seq<Trade>, r: Reconstruction, closes: Closes)
    requires AllPriced(SymbolsOf(trades), closes, r.dates) && r.holdings.Keys <= SymbolsOf(trades)
    ensures RiskGap(r, closes).None? && BenchmarkingOf(root, r, closes).Ok? && PanicOf(trades, r, closes).Ok?
  {
    hide SymbolsOf, SortedKeys, RowsFor, BoughtAndHeld, TallyOf, Judge;
    if r.dates != [] {
      var last := |r.dates| - 1;
      UnpricedMeans(SortedKeys(r.holdings.Keys), closes, r.dates[last]);
      BenchmarksHeld(trades, r.dates, closes);
      RowsExist(root, BENCHMARK_SYMBOLS, r.dates, closes, TotalReturnPct(r.equity));
      forall t | t in trades ensures Judge(t, r.dates, closes).Ok? {
        SaleIsJudged(trades, t, r.dates, closes);
      }
      TallyExists(trades, r.dates, closes);
    }
  }

  lemma BenchmarksHeld(trades: seq<Trade>, dates: seq<int>, closes: Closes)
    requires dates != [] && AllPriced(SymbolsOf(trades), closes, dates)
    ensures forall s :: s in BENCHMARK_SYMBOLS ==> BoughtAndHeld(s, dates, closes).Ok?
  {
    forall s | s in BENCHMARK_SYMBOLS ensures BoughtAndHeld(s, dates, closes).Ok? {
      assert s in SymbolsOf(trades);
      BenchmarksPriced(s, dates, closes);
    }
  }

  lemma SaleIsJudged(trades: seq<Trade>, t: Trade, dates: seq<int>, closes: Closes)
    requires dates != [] && t in trades && AllPriced(SymbolsOf(trades), closes, dates)
    ensures Judge(t, dates, closes).Ok?
  {
    assert t.symbol in SymbolsOf(trades);
  }

  // ---- the risk profile

  const AGGRESSIVE_VOLATILITY_PCT: real := 25.0
  const AGGRESSIVE_HHI: real := 0.5
  const CONSERVATIVE_VOLATILITY_PCT: real := 12.0
  const CONSERVATIVE_HHI: real := 0.25

  datatype Profile = NoProfile | Aggressive | Moderate | Conservative

  function RiskProfile(risk: RiskSection): Profile {
    if risk.RiskUnavailable? then NoProfile
    else if risk.annualizedVolatilityPct > AGGRESSIVE_VOLATILITY_PCT || risk.concentrationHHI > AGGRESSIVE_HHI
    then Aggressive
    else if risk.annualizedVolatilityPct < CONSERVATIVE_VOLATILITY_PCT && risk.concentrationHHI < CONSERVATIVE_HHI
    then Conservative
    else Moderate
  }

  /** How daring a profile is. */
  function Daring(p: Profile): int {
    match p
    case NoProfile => -1
    case Conservative => 0
    case Moderate => 1
    case Aggressive => 2
  }

  /** A portfolio that is more volatile or more concentrated, and no less of either, is never banded as more cautious;
      every measured portfolio has a band, a calm and spread one the lowest and a wild or bunched one the highest. */
  lemma ProfileGrowsWithRisk(a: RiskSection, b: RiskSection)
    requires a.Risk? && b.Risk?
    requires a.annualizedVolatilityPct <= b.annualizedVolatilityPct && a.concentrationHHI <= b.concentrationHHI
    ensures 0 <= Daring(RiskProfile(a)) <= Daring(RiskProfile(b)) <= 2
    ensures a.annualizedVolatilityPct < 12.0 && a.concentrationHHI < 0.25 ==> RiskProfile(a) == Conservative
    ensures a.annualizedVolatilityPct > 25.0 || a.concentrationHHI > 0.5 ==> RiskProfile(a) == Aggressive
  {}

  // ---- the report

  datatype Reason = NoTradesYet | NotVerified(divergence: Divergence)

  datatype Report =
    | InsufficientData(reason: Reason)
    | FullReport(tradingDays: nat, startDate: Option<int>, asOfDate: Option<int>, risk: RiskSection,
                 benchmarking: BenchmarkingSection, tradeCount: nat, overtrading: Option<TurnoverFinding>,
                 panicSelling: Option<PanicFinding>, profile: Profile)

  function FullReportOn(root: Root, trades: seq<Trade>, r: Reconstruction, closes: Closes): Result<Report, MissingClose>
    requires |r.dates| == |r.equity| == |r.cash|
  {
    var n := |r.dates|;
    match (RiskGap(r, closes), BenchmarkingOf(root, r, closes), PanicOf(trades, r, closes))
    case (Some(gap), _, _) => Err(gap)
    case (None, Err(e), _) => Err(e)
    case (None, Ok(_), Err(e)) => Err(e)
    case (None, Ok(benchmarking), Ok(panicFinding)) =>
      Ok(FullReport(n, if n > 0 then Some(r.dates[0]) else None, if n > 0 then Some(r.dates[n - 1]) else None,
                    RiskOf(root, r, closes), benchmarking, |trades|, OvertradingOf(trades, r), panicFinding, RiskProfile(RiskOf(root, r, closes))))
  }

  /** The report over a given calendar: nothing for an account that never traded; no section at all when the history
      and the account differ; every section otherwise. */
  function ReportOn(root: Root, trades: seq<Trade>, live: LivePortfolio, closes: Closes, dates: seq<int>)
    : Result<Report, MissingClose>
    requires DatesAscend(dates)
  {
    if trades == [] then Ok(InsufficientData(NoTradesYet))
    else match Reconstructed(trades, closes, dates)
      case Err(e) => Err(e)
      case Ok(r) =>
        CurveAscends(trades, closes, dates, r);
        match ReconcileVerdict(r, trades, live)
        case Some(divergence) => Ok(InsufficientData(NotVerified(divergence)))
        case None => FullReportOn(root, trades, r, closes)
  }

  /** The uncached path, past its fetches, step by step with its early returns. */
  method BuildInsights(root: Root, trades: seq<Trade>, live: LivePortfolio, barsBySymbol: map<Symbol, seq<Bar>>)
    returns (out: Result<Report, MissingClose>, dates: seq<int>)
    ensures IsCalendar(dates, barsBySymbol) && DatesAscend(dates)
    ensures out == ReportOn(root, trades, live, ClosesOf(barsBySymbol), dates)
  {
    hide Reconstructed, ClosesOf, RiskOf, BenchmarkingOf, PanicOf, OvertradingOf, ReconcileVerdict, RiskGap;
    hide EverySymbolHas, RiskProfile;
    dates := CalendarOf(barsBySymbol);
    if |trades| == 0 {
      return Ok(InsufficientData(NoTradesYet)), dates;
    }
    var reconstruction := Reconstruct.Reconstruct(trades, barsBySymbol, dates);
    if reconstruction.Err? {
      return Err(reconstruction.error), dates;
    }
    var r := reconstruction.value;
    var closes := ClosesBySymbolAndDay(barsBySymbol);
    CurveAscends(trades, closes, dates, r);
    var divergence := CheckAgainstAccount(r, trades, live);
    if divergence.Some? {
      return Ok(InsufficientData(NotVerified(divergence.value))), dates;
    }
    var risk := ComputeRisk(root, r, closes);
    if risk.Err? {
      return Err(risk.error), dates;
    }
    var benchmarking := ComputeBenchmarking(root, r, closes);
    if benchmarking.Err? {
      return Err(benchmarking.error), dates;
    }
    var turnoverFinding := Overtrading(trades, r);
    var panicFinding := PanicSelling(trades, r, closes);
    if panicFinding.Err? {
      return Err(panicFinding.error), dates;
    }
    var n := |r.dates|;
    return Ok(FullReport(n, if n > 0 then Some(r.dates[0]) else None, if n > 0 then Some(r.dates[n - 1]) else None,
                         risk.value, benchmarking.value, |trades|, turnoverFinding, panicFinding.value,
                         RiskProfile(risk.value))), dates;
  }

  /** As wired, with bars fetched for the log's symbols and the benchmarks and no close of zero, no step of the
      report ever misses a close. The report is withheld exactly when the guard refuses, and where it is not, its
      weights and cash come to a hundred percent. */
  lemma NoMissingClose(root: Root, trades: seq<Trade>, live: LivePortfolio, barsBySymbol: map<Symbol, seq<Bar>>,
                       dates: seq<int>)
    requires Wired(trades, barsBySymbol) && IsCalendar(dates, barsBySymbol) && DatesAscend(dates) && trades != []
    ensures var closes := ClosesOf(barsBySymbol);
            && ReportOn(root, trades, live, closes, dates).Ok? && Reconstructed(trades, closes, dates).Ok?
            && var report, r := ReportOn(root, trades, live, closes, dates).value, Reconstructed(trades, closes, dates).value;
               && |r.dates| == |r.equity| == |r.cash|
               && (report.InsufficientData? <==> ReconcileVerdict(r, trades, live).Some?)
               && (report.FullReport? && report.risk.Risk? && r.equity[|r.equity| - 1] != 0.0 ==>
                     Total(Weight, report.risk.positions) + report.risk.cashWeightPct == 100.0)
  {
    hide Reconstructed, ClosesOf, BenchmarkingOf, PanicOf, OvertradingOf, ReconcileVerdict, RiskGap, SymbolsOf;
    hide EverySymbolHas, AllPriced, MarkedAtEnd, Total, Ranked, RiskProfile, SharpeOf, VolatilityOf;
    ReconstructsWithoutGap(trades, barsBySymbol, dates);
    var closes := ClosesOf(barsBySymbol);
    var r := Reconstructed(trades, closes, dates).value;
    CurveAscends(trades, closes, dates, r);
    CurveIsOnCalendar(trades, barsBySymbol, dates, r);
    SectionsWithoutGap(root, trades, r, closes);
    if |r.dates| >= MIN_TRADING_DAYS && r.equity[|r.equity| - 1] != 0.0 {
      WeightsSumToHundred(root, r, closes);
    }
  }

  /** What a full report says of its window: as many days as the calendar has from the first trade on; it starts on the
      earliest of them, ends on the latest, and there are none exactly where it names neither. */
  lemma ReportNamesItsWindow(root: Root, trades: seq<Trade>, live: LivePortfolio, closes: Closes, dates: seq<int>)
    requires DatesAscend(dates) && trades != [] && ReportOn(root, trades, live, closes, dates).Ok?
    requires ReportOn(root, trades, live, closes, dates).value.FullReport?
    ensures var report, first := ReportOn(root, trades, live, closes, dates).value, FirstDay(trades);
            && report.tradingDays == |Window(dates, first)| && report.tradeCount == |trades|
            && (report.startDate.None? <==> report.tradingDays == 0)
            && (report.asOfDate.None? <==> report.tradingDays == 0)
            && (report.startDate.Some? ==>
                  && report.startDate.value in dates && first <= report.startDate.value
                  && forall d :: d in dates && first <= d ==> report.startDate.value <= d)
            && (report.asOfDate.Some? ==>
                  report.asOfDate.value in dates && forall d :: d in dates ==> d <= report.asOfDate.value)
  {
    hide FirstDay, Window, ReconcileVerdict, RiskGap, RiskOf, BenchmarkingOf, PanicOf, OvertradingOf, RiskProfile;
    hide EquityCurve, CashCurve, HoldingsOn, Valuer, FirstGap;
    var r := Reconstructed(trades, closes, dates).value;
    if dates != [] {
      CoversWindow(trades, closes, dates, r);
      WindowMembers(dates, FirstDay(trades));
      var w := Window(dates, FirstDay(trades));
      if w != [] {
        assert w[0] in w && w[|w| - 1] in w;
        forall d | d in dates ensures d <= w[|w| - 1] && (FirstDay(trades) <= d ==> w[0] <= d) {
          if FirstDay(trades) <= d {
            var k :| 0 <= k < |w| && w[k] == d;
          }
        }
      }
    } else {
      assert r.dates == [];
      assert Window(dates, FirstDay(trades)) == [] by { EmptyWindow(FirstDay(trades)); }
    }
  }

  lemma EmptyWindow(first: int)
    ensures Window([], first) == []
  {}
}
