/** One synchronized timeline out of many symbols' bars, and the backtest that runs on it. */
module Align {
  import opened Wrappers
  import opened Market
  import opened Ordering
  import opened Calendar
  import opened Strategies
  import opened Simulator
  import opened NoLookahead

  // ---- what aligning means

  /** start and end are dates; the whole of the end date is included. */
  predicate InRange(b: Bar, start: Time, end: Time) {
    !(b.timestamp < start) && b.timestamp < end + NANOS_PER_DAY
  }

  function Sliced(bars: seq<Bar>, start: Time, end: Time): seq<Bar> {
    if bars == [] then []
    else
      var last := bars[|bars| - 1];
      Sliced(bars[..|bars| - 1], start, end) + if InRange(last, start, end) then [last] else []
  }

  /** The bar a symbol contributes to a day: the last of that day in its list. */
  function DayBar(bars: seq<Bar>, day: int): Option<Bar> {
    if bars == [] then None
    else
      var last := bars[|bars| - 1];
      if Day(last.timestamp) == day then Some(last) else DayBar(bars[..|bars| - 1], day)
  }

  /** A day of the first symbol's that every other symbol has too. */
  predicate Shared(ranged: seq<seq<Bar>>, day: int) {
    forall i :: 1 <= i < |ranged| ==> DayBar(ranged[i], day).Some?
  }

  function MatchFor(ranged: seq<seq<Bar>>, i: nat, driver: Bar): Bar
    requires i < |ranged| && Shared(ranged, Day(driver.timestamp))
  {
    if i == 0 then driver else DayBar(ranged[i], Day(driver.timestamp)).value
  }

  /** Symbol i's part of the timeline, from the first k bars of the symbol that drives it. */
  function Column(ranged: seq<seq<Bar>>, i: nat, k: nat): seq<Bar>
    requires i < |ranged| && k <= |ranged[0]|
  {
    if k == 0 then []
    else
      var driver := ranged[0][k - 1];
      Column(ranged, i, k - 1) + if Shared(ranged, Day(driver.timestamp)) then [MatchFor(ranged, i, driver)] else []
  }

  function Ranged(bars: map<Symbol, seq<Bar>>, symbols: seq<Symbol>, start: Time, end: Time): (r: seq<seq<Bar>>)
    requires forall s :: s in symbols ==> s in bars
    ensures |r| == |symbols|
  {
    seq(|symbols|, i requires 0 <= i < |symbols| => Sliced(bars[symbols[i]], start, end))
  }

  function Aligned(bars: map<Symbol, seq<Bar>>, start: Time, end: Time): (a: seq<seq<Bar>>)
    ensures |a| == |SortedKeys(bars.Keys)|
  {
    var symbols := SortedKeys(bars.Keys);
    var ranged := Ranged(bars, symbols, start, end);
    seq(|symbols|, i requires 0 <= i < |symbols| => Column(ranged, i, |ranged[0]|))
  }

  /** Between dates, the bars in range are those of the days from the first to the last, both included. */
  lemma RangeIsDays(b: Bar, start: Time, end: Time)
    requires start % NANOS_PER_DAY == 0 && end % NANOS_PER_DAY == 0
    ensures InRange(b, start, end) <==> Day(start) <= Day(b.timestamp) <= Day(end)
  {}

  /** Where a symbol has several bars on a day, the last in its list stands for it. */
  lemma {:induction false} DayBarIsLast(bars: seq<Bar>, day: int, i: nat)
    requires i < |bars| && Day(bars[i].timestamp) == day
    requires forall j :: i < j < |bars| ==> Day(bars[j].timestamp) != day
    ensures DayBar(bars, day) == Some(bars[i])
  {
    if i < |bars| - 1 {
      DayBarIsLast(bars[..|bars| - 1], day, i);
    }
  }

  // ---- the loops

  method SliceRange(bars: seq<Bar>, start: Time, end: Time) returns (out: seq<Bar>)
    ensures out == Sliced(bars, start, end)
  {
    var endExclusive := end + NANOS_PER_DAY;
    out := [];
    for i := 0 to |bars|
      invariant out == Sliced(bars[..i], start, end)
    {
      assert bars[..i + 1][..i] == bars[..i];
      if !(bars[i].timestamp < start) && bars[i].timestamp < endExclusive {
        out := out + [bars[i]];
      }
    }
    assert bars[..|bars|] == bars;
  }

  ghost predicate IndexesDays(byDay: map<int, Bar>, bars: seq<Bar>) {
    forall d :: match DayBar(bars, d)
      case None => d !in byDay
      case Some(b) => d in byDay && byDay[d] == b
  }

  method IndexByDay(bars: seq<Bar>) returns (byDay: map<int, Bar>)
    ensures IndexesDays(byDay, bars)
  {
    byDay := map[];
    for i := 0 to |bars|
      invariant IndexesDays(byDay, bars[..i])
    {
      assert bars[..i + 1][..i] == bars[..i];
      byDay := byDay[Day(bars[i].timestamp) := bars[i]];
    }
    assert bars[..|bars|] == bars;
  }

  /** One driver bar's row, if every other symbol has its day. */
  method MatchRow(ghost ranged: seq<seq<Bar>>, byDay: seq<map<int, Bar>>, driver: Bar)
    returns (complete: bool, matches: seq<Bar>)
    requires |byDay| == |ranged| && |ranged| > 0
    requires forall i :: 1 <= i < |ranged| ==> IndexesDays(byDay[i], ranged[i])
    ensures complete == Shared(ranged, Day(driver.timestamp))
    ensures complete ==> |matches| == |ranged| && forall i :: 0 <= i < |ranged| ==> matches[i] == MatchFor(ranged, i, driver)
  {
    var key := Day(driver.timestamp);
    matches := [driver];
    complete := true;
    for i := 1 to |byDay|
      invariant complete && |matches| == i && matches[0] == driver
      invariant forall k :: 1 <= k < i ==> DayBar(ranged[k], key) == Some(matches[k])
    {
      if key !in byDay[i] {
        assert DayBar(ranged[i], key).None?;
        return false, [];
      }
      matches := matches + [byDay[i][key]];
    }
  }

  method AppendRow(aligned0: seq<seq<Bar>>, matches: seq<Bar>) returns (aligned: seq<seq<Bar>>)
    requires |aligned0| == |matches|
    ensures |aligned| == |aligned0| && forall i :: 0 <= i < |aligned| ==> aligned[i] == aligned0[i] + [matches[i]]
  {
    aligned := aligned0;
    for i := 0 to |matches|
      invariant |aligned| == |aligned0|
      invariant forall k :: 0 <= k < |aligned| ==> aligned[k] == if k < i then aligned0[k] + [matches[k]] else aligned0[k]
    {
      aligned := aligned[i := aligned[i] + [matches[i]]];
    }
  }

  method AlignBars(bars: map<Symbol, seq<Bar>>, start: Time, end: Time)
    returns (symbols: seq<Symbol>, aligned: seq<seq<Bar>>)
    ensures symbols == SortedKeys(bars.Keys) && aligned == Aligned(bars, start, end)
  {
    hide SortedKeys, Sliced, DayBar, IndexesDays, Shared;
    symbols := SortedKeys(bars.Keys);
    if |symbols| == 0 {
      return symbols, [];
    }
    var ranged: seq<seq<Bar>> := [];
    for i := 0 to |symbols|
      invariant |ranged| == i && forall k :: 0 <= k < i ==> ranged[k] == Sliced(bars[symbols[k]], start, end)
    {
      assert symbols[i] in symbols;
      var slice := SliceRange(bars[symbols[i]], start, end);
      ranged := ranged + [slice];
    }
    assert ranged == Ranged(bars, symbols, start, end);
    var byDay: seq<map<int, Bar>> := [map[]];
    for i := 1 to |symbols|
      invariant |byDay| == i && forall k :: 1 <= k < i ==> IndexesDays(byDay[k], ranged[k])
    {
      var day := IndexByDay(ranged[i]);
      byDay := byDay + [day];
    }
    aligned := seq(|symbols|, _ => []);
    for k := 0 to |ranged[0]|
      invariant |aligned| == |symbols| && forall i :: 0 <= i < |symbols| ==> aligned[i] == Column(ranged, i, k)
    {
      var complete, matches := MatchRow(ranged, byDay, ranged[0][k]);
      if !complete {
        continue;
      }
      aligned := AppendRow(aligned, matches);
    }
  }

  // ---- what the timeline is

  lemma {:induction false} DayBarFinds(bars: seq<Bar>, day: int)
    ensures DayBar(bars, day).Some? <==> HasDay(bars, day)
    ensures DayBar(bars, day).Some? ==> DayBar(bars, day).value in bars && Day(DayBar(bars, day).value.timestamp) == day
  {
    if bars != [] {
      var last := bars[|bars| - 1];
      DayBarFinds(bars[..|bars| - 1], day);
      assert bars == bars[..|bars| - 1] + [last];
    }
  }

  /** A bar index is the same trading day for every symbol, on any input at all. */
  lemma {:induction false} RowsAreDays(ranged: seq<seq<Bar>>, i: nat, k: nat)
    requires i < |ranged| && k <= |ranged[0]|
    ensures |Column(ranged, i, k)| == |Column(ranged, 0, k)|
    ensures forall r :: 0 <= r < |Column(ranged, i, k)| ==>
              Day(Column(ranged, i, k)[r].timestamp) == Day(Column(ranged, 0, k)[r].timestamp)
  {
    if k > 0 {
      RowsAreDays(ranged, i, k - 1);
      var day := Day(ranged[0][k - 1].timestamp);
      if Shared(ranged, day) {
        DayBarFinds(ranged[i], day);
      }
    }
  }

  function DayList(bars: seq<Bar>): (days: seq<int>)
    ensures |days| == |bars|
  {
    seq(|bars|, i requires 0 <= i < |bars| => Day(bars[i].timestamp))
  }

  /** Bars as market-data stores them: at most one per day, oldest first. */
  ghost predicate Daily(bars: seq<Bar>) {
    forall i, j :: 0 <= i < j < |bars| ==> Day(bars[i].timestamp) < Day(bars[j].timestamp)
  }

  lemma {:induction false} SlicedMembers(bars: seq<Bar>, start: Time, end: Time)
    ensures forall b :: b in Sliced(bars, start, end) <==> b in bars && InRange(b, start, end)
  {
    if bars != [] {
      SlicedMembers(bars[..|bars| - 1], start, end);
      assert bars == bars[..|bars| - 1] + [bars[|bars| - 1]];
    }
  }

  lemma {:induction false} SlicedDaily(bars: seq<Bar>, start: Time, end: Time)
    requires Daily(bars)
    ensures Daily(Sliced(bars, start, end))
  {
    if bars != [] {
      var last := |bars| - 1;
      var earlier := Sliced(bars[..last], start, end);
      SlicedDaily(bars[..last], start, end);
      SlicedMembers(bars[..last], start, end);
      forall i | 0 <= i < |earlier| ensures Day(earlier[i].timestamp) < Day(bars[last].timestamp) {
        assert earlier[i] in earlier && earlier[i] in bars[..last];
      }
    }
  }

  lemma DriverStep(ranged: seq<seq<Bar>>, k: nat)
    requires ranged != [] && 0 < k <= |ranged[0]|
    ensures var day := Day(ranged[0][k - 1].timestamp);
            DayList(Column(ranged, 0, k))
            == DayList(Column(ranged, 0, k - 1)) + if Shared(ranged, day) then [day] else []
  {
    hide Shared;
  }

  lemma {:induction false} DriverDays(ranged: seq<seq<Bar>>, k: nat)
    requires ranged != [] && k <= |ranged[0]|
    ensures forall d :: Lists(DayList(Column(ranged, 0, k)), d) <==> HasDay(ranged[0][..k], d) && Shared(ranged, d)
  {
    hide Shared, Column, DayList;
    if k > 0 {
      DriverDays(ranged, k - 1);
      DriverStep(ranged, k);
      var before, day := DayList(Column(ranged, 0, k - 1)), Day(ranged[0][k - 1].timestamp);
      assert before + [] == before;
      forall d ensures Lists(DayList(Column(ranged, 0, k)), d) <==> HasDay(ranged[0][..k], d) && Shared(ranged, d) {
        DaysStep(ranged[0], k - 1, d);
        ListsStep(before, day, d);
      }
    } else {
      assert ranged[0][..0] == [];
      NoDriverYet(ranged);
    }
  }

  lemma NoDriverYet(ranged: seq<seq<Bar>>)
    requires ranged != []
    ensures DayList(Column(ranged, 0, 0)) == []
  {}

  lemma {:induction false} EarlierDay(bars: seq<Bar>, k: nat, d: int)
    requires k < |bars| && Daily(bars) && HasDay(bars[..k], d)
    ensures d < Day(bars[k].timestamp)
  {
    if Day(bars[..k][k - 1].timestamp) != d {
      assert bars[..k][..k - 1] == bars[..k - 1];
      EarlierDay(bars, k - 1, d);
    }
  }

  lemma {:induction false} DriverAscends(ranged: seq<seq<Bar>>, k: nat)
    requires ranged != [] && k <= |ranged[0]| && Daily(ranged[0])
    ensures StrictlyAscending(DayList(Column(ranged, 0, k)))
  {
    hide Shared, Column, DayList;
    if k > 0 {
      DriverAscends(ranged, k - 1);
      DriverStep(ranged, k);
      DriverDays(ranged, k - 1);
      var before := DayList(Column(ranged, 0, k - 1));
      forall i | 0 <= i < |before| ensures before[i] < Day(ranged[0][k - 1].timestamp) {
        ListsItsMembers(before, i);
        EarlierDay(ranged[0], k - 1, before[i]);
      }
    } else {
      NoDriverYet(ranged);
    }
  }

  function SlicedAll(bars: map<Symbol, seq<Bar>>, start: Time, end: Time): map<Symbol, seq<Bar>> {
    map s | s in bars :: Sliced(bars[s], start, end)
  }

  lemma SharedIsEvery(bars: map<Symbol, seq<Bar>>, start: Time, end: Time, d: int)
    requires bars.Keys != {}
    ensures var symbols := SortedKeys(bars.Keys);
            var ranged := Ranged(bars, symbols, start, end);
            |ranged| > 0 && (HasDay(ranged[0], d) && Shared(ranged, d) <==> EverySymbolHas(SlicedAll(bars, start, end), d))
  {
    hide SortedKeys, Sliced;
    var symbols, all := SortedKeys(bars.Keys), SlicedAll(bars, start, end);
    var some :| some in bars;
    assert some in symbols;
    var ranged := Ranged(bars, symbols, start, end);
    forall i | 0 <= i < |symbols| ensures ranged[i] == all[symbols[i]] && (DayBar(ranged[i], d).Some? <==> HasDay(ranged[i], d)) {
      assert symbols[i] in symbols;
      DayBarFinds(ranged[i], d);
    }
    if HasDay(ranged[0], d) && Shared(ranged, d) {
      forall s | s in all ensures HasDay(all[s], d) {
        var i :| 0 <= i < |symbols| && symbols[i] == s;
      }
    }
  }

  /** One intersection. On daily bars the backtest's timeline is the report's calendar of the ranged bars: the same
      days, each once, in order. */
  lemma AlignedIsCalendar(bars: map<Symbol, seq<Bar>>, start: Time, end: Time)
    requires bars.Keys != {} && forall s :: s in bars ==> Daily(bars[s])
    ensures |Aligned(bars, start, end)| > 0
    ensures IsCalendar(DayList(Aligned(bars, start, end)[0]), SlicedAll(bars, start, end))
  {
    hide SortedKeys, Column, Shared, Sliced;
    var symbols := SortedKeys(bars.Keys);
    var ranged := Ranged(bars, symbols, start, end);
    SharedIsEvery(bars, start, end, 0);
    assert symbols[0] in symbols;
    SlicedDaily(bars[symbols[0]], start, end);
    DriverDays(ranged, |ranged[0]|);
    DriverAscends(ranged, |ranged[0]|);
    assert ranged[0][..|ranged[0]|] == ranged[0];
    var days := DayList(Aligned(bars, start, end)[0]);
    forall d ensures Lists(days, d) <==> EverySymbolHas(SlicedAll(bars, start, end), d) {
      SharedIsEvery(bars, start, end, d);
    }
  }

  lemma {:induction false} CoveredIsWhole(bars: seq<Bar>, start: Time, end: Time)
    requires forall b :: b in bars ==> InRange(b, start, end)
    ensures Sliced(bars, start, end) == bars
  {
    if bars != [] {
      CoveredIsWhole(bars[..|bars| - 1], start, end);
      assert bars == bars[..|bars| - 1] + [bars[|bars| - 1]];
    }
  }

  /** With a range that covers everything, the days aligned are what the report's Calendar returns. */
  lemma OneIntersection(bars: map<Symbol, seq<Bar>>, start: Time, end: Time, dates: seq<int>)
    requires bars.Keys != {} && (forall s :: s in bars ==> Daily(bars[s])) && IsCalendar(dates, bars)
    requires forall s, b :: s in bars && b in bars[s] ==> InRange(b, start, end)
    ensures |Aligned(bars, start, end)| > 0 && DayList(Aligned(bars, start, end)[0]) == dates
  {
    hide Aligned, Sliced;
    forall s | s in bars ensures Sliced(bars[s], start, end) == bars[s] {
      CoveredIsWhole(bars[s], start, end);
    }
    assert SlicedAll(bars, start, end) == bars;
    AlignedIsCalendar(bars, start, end);
    CalendarUnique(DayList(Aligned(bars, start, end)[0]), dates, bars);
  }

  // ---- the backtest

  datatype BacktestError = DateRangeUnavailable | TooFewBars(needed: int, available: int)

  lemma {:induction false} ColumnFromBars(ranged: seq<seq<Bar>>, i: nat, k: nat)
    requires i < |ranged| && k <= |ranged[0]|
    ensures forall b :: b in Column(ranged, i, k) ==> b in ranged[i]
  {
    if k > 0 {
      ColumnFromBars(ranged, i, k - 1);
      if Shared(ranged, Day(ranged[0][k - 1].timestamp)) {
        DayBarFinds(ranged[i], Day(ranged[0][k - 1].timestamp));
      }
    }
  }

  /** Alignment hands the simulator equally long series of bars that came from the input. */
  lemma AlignedFits(bars: map<Symbol, seq<Bar>>, start: Time, end: Time, i: nat)
    requires i < |Aligned(bars, start, end)|
    ensures var aligned := Aligned(bars, start, end);
            && |aligned[i]| == |aligned[0]|
            && forall b :: b in aligned[i] ==> exists s :: s in bars && b in bars[s]
  {
    hide SortedKeys, Column, Sliced;
    var symbols := SortedKeys(bars.Keys);
    var ranged := Ranged(bars, symbols, start, end);
    RowsAreDays(ranged, i, |ranged[0]|);
    ColumnFromBars(ranged, i, |ranged[0]|);
    assert symbols[i] in symbols;
    SlicedMembers(bars[symbols[i]], start, end);
  }

  ghost predicate NonzeroBars(bars: map<Symbol, seq<Bar>>) {
    forall s, b :: s in bars && b in bars[s] ==> b.open != 0.0
  }

  /** The scenario a request describes. */
  function ScenarioOf(st: Strategy, fetched: map<Symbol, seq<Bar>>, start: Time, end: Time): Scenario
    requires ValidParams(st)
  {
    Backtest(st, SortedKeys(fetched.Keys), Aligned(fetched, start, end))
  }

  /** Bars that all open at a price are always enough. */
  lemma ScenarioIsTradable(st: Strategy, fetched: map<Symbol, seq<Bar>>, start: Time, end: Time)
    requires ValidParams(st) && NonzeroBars(fetched)
    ensures Tradable(ScenarioOf(st, fetched, start, end))
  {
    hide Aligned, SortedKeys, Signals;
    var aligned: seq<seq<Bar>> := Aligned(fetched, start, end);
    forall i | 0 <= i < |aligned|
      ensures |aligned[i]| == |aligned[0]| && forall k :: 0 <= k < |aligned[i]| ==> aligned[i][k].open != 0.0
    {
      AlignedFits(fetched, start, end, i);
      forall k | 0 <= k < |aligned[i]| ensures aligned[i][k].open != 0.0 {
        assert aligned[i][k] in aligned[i];
      }
    }
  }

  /** Defined as long as no symbol is due to be bought at an open of nothing. */
  function BacktestOf(st: Strategy, fetched: map<Symbol, seq<Bar>>, start: Time, end: Time, capital: real)
    : Result<SimulationResult, BacktestError>
    requires ValidParams(st) && Tradable(ScenarioOf(st, fetched, start, end))
  {
    var sc := ScenarioOf(st, fetched, start, end);
    if sc.BarCount() == 0 then Err(DateRangeUnavailable)
    else if WarmupBars(st) > sc.BarCount() then Err(TooFewBars(WarmupBars(st), sc.BarCount()))
    else Ok(Simulated(sc, capital))
  }

  /** The pipeline, from fetched histories to a result: align, check the warm-up once, signal, simulate. */
  method RunBacktest(st: Strategy, fetched: map<Symbol, seq<Bar>>, start: Time, end: Time, capital: real)
    returns (r: Result<SimulationResult, BacktestError>)
    requires ValidParams(st) && Tradable(ScenarioOf(st, fetched, start, end))
    ensures r == BacktestOf(st, fetched, start, end, capital)
  {
    hide Aligned, SortedKeys, Signals, Simulated;
    var symbols, aligned := AlignBars(fetched, start, end);
    if |aligned| == 0 || |aligned[0]| == 0 {
      return Err(DateRangeUnavailable);
    }
    if WarmupBars(st) > |aligned[0]| {
      return Err(TooFewBars(WarmupBars(st), |aligned[0]|));
    }
    var signals: seq<seq<Signal>> := [];
    for i := 0 to |aligned|
      invariant |signals| == i && forall k :: 0 <= k < i ==> signals[k] == Signals(st, aligned[k])
    {
      var ofBars := GenerateSignals(st, aligned[i]);
      signals := signals + [ofBars];
    }
    assert signals == AllSignals(st, aligned);
    var result := SimulatePortfolio(Scenario(symbols, aligned, signals), capital);
    return Ok(result);
  }
}
