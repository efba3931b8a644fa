/** A backtest that ends earlier is the beginning of one that ends later. */
module EarlierEnd {
  import opened Wrappers
  import opened Market
  import opened Ordering
  import opened Strategies
  import opened Simulator
  import opened NoLookahead
  import opened Align

  /** Dates are midnights. */
  predicate IsDate(t: Time) { t % NANOS_PER_DAY == 0 }

  lemma {:induction false} SameUpTo(bars: seq<Bar>, start: Time, end: Time, later: Time)
    requires end <= later && forall i :: 0 <= i < |bars| ==> bars[i].timestamp < end + NANOS_PER_DAY
    ensures Sliced(bars, start, end) == Sliced(bars, start, later)
  {
    if bars != [] {
      SameUpTo(bars[..|bars| - 1], start, end, later);
    }
  }

  lemma DailyAscends(bars: seq<Bar>, i: nat, j: nat)
    requires Daily(bars) && i < j < |bars|
    ensures bars[i].timestamp < bars[j].timestamp
  {}

  /** On daily bars the shorter range is the beginning of the longer one, and has the same bar for each of its days. */
  lemma {:induction false} SlicedEarlier(bars: seq<Bar>, start: Time, end: Time, later: Time)
    requires Daily(bars) && IsDate(end) && end <= later
    ensures Sliced(bars, start, end) <= Sliced(bars, start, later)
    ensures forall b :: b in Sliced(bars, start, end) ==> Day(b.timestamp) <= Day(end)
    ensures forall d :: d <= Day(end) ==> DayBar(Sliced(bars, start, end), d) == DayBar(Sliced(bars, start, later), d)
  {
    if bars != [] {
      var front, last := bars[..|bars| - 1], bars[|bars| - 1];
      SlicedEarlier(front, start, end, later);
      hide DayBar;
      if InRange(last, start, end) {
        forall i | 0 <= i < |front| ensures front[i].timestamp < end + NANOS_PER_DAY {
          DailyAscends(bars, i, |front|);
        }
        SameUpTo(front, start, end, later);
        assert Sliced(bars, start, end) == Sliced(front, start, end) + [last] == Sliced(bars, start, later);
      } else if InRange(last, start, later) {
        DaySkips(Sliced(front, start, later), last, end);
        assert Sliced(bars, start, end) == Sliced(front, start, end);
        assert Sliced(bars, start, later) == Sliced(front, start, later) + [last];
      } else {
        assert Sliced(bars, start, end) == Sliced(front, start, end);
        assert Sliced(bars, start, later) == Sliced(front, start, later);
      }
    }
  }

  lemma DaySkips(bars: seq<Bar>, b: Bar, end: Time)
    requires IsDate(end) && b.timestamp >= end + NANOS_PER_DAY
    ensures forall d :: d <= Day(end) ==> DayBar(bars + [b], d) == DayBar(bars, d)
  {
    assert (bars + [b])[..|bars|] == bars;
  }

  /** Two rangings of the same symbols that agree on every day of the first k bars of the symbol that drives. */
  ghost predicate AgreeOn(a: seq<seq<Bar>>, b: seq<seq<Bar>>, k: nat) {
    && 0 < |a| == |b| && k <= |a[0]| && a[0] <= b[0]
    && forall i, j :: 0 <= i < |a| && 0 <= j < k ==>
         DayBar(a[i], Day(a[0][j].timestamp)) == DayBar(b[i], Day(a[0][j].timestamp))
  }

  lemma {:induction false} ColumnsAgree(a: seq<seq<Bar>>, b: seq<seq<Bar>>, i: nat, k: nat)
    requires AgreeOn(a, b, k) && i < |a|
    ensures k <= |b[0]| && Column(a, i, k) == Column(b, i, k)
  {
    if k > 0 {
      AgreeOnFewer(a, b, k);
      ColumnsAgree(a, b, i, k - 1);
      RowsAgree(a, b, i, k);
      hide AgreeOn, Shared, MatchFor;
    }
  }

  lemma AgreeOnFewer(a: seq<seq<Bar>>, b: seq<seq<Bar>>, k: nat)
    requires k > 0 && AgreeOn(a, b, k)
    ensures AgreeOn(a, b, k - 1) && k <= |b[0]|
  {}

  lemma RowsAgree(a: seq<seq<Bar>>, b: seq<seq<Bar>>, i: nat, k: nat)
    requires k > 0 && AgreeOn(a, b, k) && i < |a|
    ensures k <= |b[0]| && a[0][k - 1] == b[0][k - 1]
    ensures var driver := a[0][k - 1];
            var day := Day(driver.timestamp);
            && (Shared(a, day) <==> Shared(b, day))
            && (Shared(a, day) ==> MatchFor(a, i, driver) == MatchFor(b, i, driver))
  {
    hide DayBar;
    var j := k - 1;
    var day := Day(a[0][j].timestamp);
    assert forall m :: 0 <= m < |a| ==> DayBar(a[m], day) == DayBar(b[m], day);
  }

  lemma {:induction false} ColumnGrows(ranged: seq<seq<Bar>>, i: nat, k: nat, m: nat)
    requires i < |ranged| && k <= m <= |ranged[0]|
    ensures Column(ranged, i, k) <= Column(ranged, i, m)
    decreases m
  {
    if k < m {
      ColumnGrows(ranged, i, k, m - 1);
    }
  }

  ghost predicate AllDaily(bars: map<Symbol, seq<Bar>>) {
    forall s :: s in bars ==> Daily(bars[s])
  }

  lemma RangesAgree(bars: map<Symbol, seq<Bar>>, symbols: seq<Symbol>, start: Time, end: Time, later: Time)
    requires AllDaily(bars) && IsDate(end) && end <= later
    requires symbols != [] && forall s :: s in symbols ==> s in bars
    ensures var a, b := Ranged(bars, symbols, start, end), Ranged(bars, symbols, start, later);
            AgreeOn(a, b, |a[0]|)
  {
    hide Sliced, DayBar, Daily;
    var a: seq<seq<Bar>>, b: seq<seq<Bar>> := Ranged(bars, symbols, start, end), Ranged(bars, symbols, start, later);
    forall i | 0 <= i < |symbols|
      ensures a[i] <= b[i] && (forall x :: x in a[i] ==> Day(x.timestamp) <= Day(end))
              && forall d :: d <= Day(end) ==> DayBar(a[i], d) == DayBar(b[i], d)
    {
      assert symbols[i] in symbols;
      SlicedEarlier(bars[symbols[i]], start, end, later);
    }
    forall j: nat | j < |a[0]| ensures Day(a[0][j].timestamp) <= Day(end) {
      assert a[0][j] in a[0];
    }
  }

  /** The earlier timeline is the first so many bars of the later one, for every symbol. */
  lemma AlignedEarlier(bars: map<Symbol, seq<Bar>>, start: Time, end: Time, later: Time) returns (n: nat)
    requires AllDaily(bars) && IsDate(end) && end <= later
    ensures var short, long := Aligned(bars, start, end), Aligned(bars, start, later);
            && |short| == |long| && (long == [] ==> n == 0)
            && forall i :: 0 <= i < |long| ==> n <= |long[i]| && short[i] == long[i][..n]
  {
    hide SortedKeys, Column, AgreeOn, Ranged;
    var symbols := SortedKeys(bars.Keys);
    var short, long: seq<seq<Bar>> := Aligned(bars, start, end), Aligned(bars, start, later);
    if symbols == [] {
      n := 0;
    } else {
      var a, b := Ranged(bars, symbols, start, end), Ranged(bars, symbols, start, later);
      RangesAgree(bars, symbols, start, end, later);
      var k := |a[0]|;
      assert k <= |b[0]| by { AgreedLength(a, b, k); }
      n := |Column(a, 0, k)|;
      forall i | 0 <= i < |long| ensures n <= |long[i]| && short[i] == long[i][..n] {
        AlignedColumn(bars, start, end, i);
        AlignedColumn(bars, start, later, i);
        ColumnsAgree(a, b, i, k);
        ColumnGrows(b, i, k, |b[0]|);
        RowsAreDays(a, i, k);
      }
    }
  }

  lemma AgreedLength(a: seq<seq<Bar>>, b: seq<seq<Bar>>, k: nat)
    requires AgreeOn(a, b, k)
    ensures k <= |b[0]|
  {}

  lemma AlignedColumn(bars: map<Symbol, seq<Bar>>, start: Time, end: Time, i: nat)
    requires i < |SortedKeys(bars.Keys)|
    ensures var ranged := Ranged(bars, SortedKeys(bars.Keys), start, end);
            Aligned(bars, start, end)[i] == Column(ranged, i, |ranged[0]|)
  {
    hide Column;
  }

  /** No lookahead, over what a request gives. On daily bars, the same request with an earlier end date that is not
      refused is not refused with the later one either, and its trades and its equity are the beginning of the later
      one's. */
  lemma EarlierEndIsPrefix(st: Strategy, fetched: map<Symbol, seq<Bar>>, start: Time, end: Time, later: Time,
                           capital: real)
    requires ValidParams(st) && AllDaily(fetched) && IsDate(end) && end <= later
    requires Tradable(ScenarioOf(st, fetched, start, later))
    ensures Tradable(ScenarioOf(st, fetched, start, end))
    ensures var short, long := BacktestOf(st, fetched, start, end, capital), BacktestOf(st, fetched, start, later, capital);
            short.Ok? ==>
              && long.Ok?
              && short.value.trades <= long.value.trades && short.value.equityCurve <= long.value.equityCurve
  {
    hide Aligned, SortedKeys, Signals, Simulated, WarmupBars;
    var n := AlignedEarlier(fetched, start, end, later);
    var symbols, long := SortedKeys(fetched.Keys), Aligned(fetched, start, later);
    NothingIsForeseen(st, symbols, long, capital, n);
    assert Aligned(fetched, start, end) == First(long, n);
  }
}
