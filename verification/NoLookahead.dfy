/** No lookahead, end to end: what a backtest says about a day cannot depend on any later day. */
module NoLookahead {
  import opened Wrappers
  import opened Market
  import opened Strategies
  import opened Simulator

  function AllSignals(st: Strategy, bars: seq<seq<Bar>>): (signals: seq<seq<Signal>>)
    requires ValidParams(st)
    ensures |signals| == |bars|
    ensures forall s :: 0 <= s < |bars| ==> signals[s] == Signals(st, bars[s])
  {
    seq(|bars|, s requires 0 <= s < |bars| => Signals(st, bars[s]))
  }

  /** A strategy run over aligned bars. */
  function Backtest(st: Strategy, symbols: seq<Symbol>, bars: seq<seq<Bar>>): Scenario
    requires ValidParams(st)
  {
    Scenario(symbols, bars, AllSignals(st, bars))
  }

  /** Everything known after the first k bars. */
  function First(bars: seq<seq<Bar>>, k: nat): (prefix: seq<seq<Bar>>)
    requires forall s :: 0 <= s < |bars| ==> k <= |bars[s]|
    ensures |prefix| == |bars|
    ensures forall s :: 0 <= s < |bars| ==> prefix[s] == bars[s][..k]
  {
    seq(|bars|, s requires 0 <= s < |bars| => bars[s][..k])
  }

  /** Signals of a history cut short are the signals cut short, warm-up included. */
  lemma SignalsOfPrefix(st: Strategy, bars: seq<Bar>, k: nat)
    requires ValidParams(st) && k <= |bars|
    ensures Signals(st, bars[..k]) == Signals(st, bars)[..k]
  {
    forall i | 0 <= i < k ensures Signals(st, bars[..k])[i] == Signals(st, bars)[i] {
      assert bars[..k][..i + 1] == bars[..i + 1];
    }
  }

  /** The simulator reads nothing at bar i but the slots of the opens so far. */
  lemma {:induction false} PoolSeesOnlyOpens(a: Scenario, b: Scenario, capital: real, i: nat)
    requires Tradable(a) && Tradable(b) && i < a.BarCount() && i < b.BarCount() && |a.symbols| == |b.symbols|
    requires forall j :: 0 < j <= i ==> a.OpenOf(j) == b.OpenOf(j)
    ensures PoolAt(a, capital, i) == PoolAt(b, capital, i)
  {
    if i > 0 {
      hide AtOpen;
      PoolSeesOnlyOpens(a, b, capital, i - 1);
      assert a.OpenOf(i) == b.OpenOf(i);
    }
  }

  lemma {:induction false} TradesOnlyGrow(sc: Scenario, capital: real, i: nat, j: nat)
    requires Tradable(sc) && i <= j < sc.BarCount()
    ensures PoolAt(sc, capital, i).trades <= PoolAt(sc, capital, j).trades
    decreases j - i
  {
    if i < j {
      hide AtOpen;
      TradesOnlyGrow(sc, capital, i, j - 1);
      OpenOnlyAdds(sc.OpenOf(j), PoolAt(sc, capital, j - 1));
    }
  }

  lemma OpenOnlyAdds(slots: seq<Slot>, p: Pool)
    requires slots != [] && Fits(p, |slots|) && AllBuyable(slots)
    ensures p.trades <= AtOpen(slots, p).trades
  {
    var sold := Sells(slots, |slots|, p);
    SellsOnlyAdd(slots, |slots|, p);
    BuysOnlyAdd(slots, |slots|, Target(slots, sold), sold);
  }

  lemma {:induction false} SellsOnlyAdd(slots: seq<Slot>, n: nat, p: Pool)
    requires n <= |slots| && Fits(p, |slots|)
    ensures p.trades <= Sells(slots, n, p).trades
  {
    if n > 0 {
      SellsOnlyAdd(slots, n - 1, p);
    }
  }

  lemma {:induction false} BuysOnlyAdd(slots: seq<Slot>, n: nat, target: real, p: Pool)
    requires n <= |slots| && Fits(p, |slots|) && AllBuyable(slots)
    ensures p.trades <= Buys(slots, n, target, p).trades
  {
    if n > 0 {
      BuysOnlyAdd(slots, n - 1, target, p);
    }
  }

  // ---- end to end

  lemma PrefixIsAligned(st: Strategy, symbols: seq<Symbol>, bars: seq<seq<Bar>>, k: nat)
    requires ValidParams(st) && Backtest(st, symbols, bars).Aligned() && k <= Backtest(st, symbols, bars).BarCount()
    ensures forall s :: 0 <= s < |bars| ==> k <= |bars[s]|
    ensures var cut := Backtest(st, symbols, First(bars, k));
            cut.Aligned() && cut.BarCount() == k
  {}

  lemma OpensOfPrefix(st: Strategy, symbols: seq<Symbol>, bars: seq<seq<Bar>>, k: nat, j: nat)
    requires ValidParams(st) && Backtest(st, symbols, bars).Aligned()
    requires 0 < j < k <= Backtest(st, symbols, bars).BarCount()
    requires forall s :: 0 <= s < |bars| ==> k <= |bars[s]|
    requires Backtest(st, symbols, First(bars, k)).Aligned() && Backtest(st, symbols, First(bars, k)).BarCount() == k
    ensures Backtest(st, symbols, First(bars, k)).OpenOf(j) == Backtest(st, symbols, bars).OpenOf(j)
  {
    hide Decide;
    forall s | 0 <= s < |bars| ensures Signals(st, bars[s][..k])[j - 1] == Signals(st, bars[s])[j - 1] {
      SignalsOfPrefix(st, bars[s], k);
    }
  }

  lemma PrefixIsTradable(st: Strategy, symbols: seq<Symbol>, bars: seq<seq<Bar>>, k: nat)
    requires ValidParams(st) && Tradable(Backtest(st, symbols, bars))
    requires k <= Backtest(st, symbols, bars).BarCount()
    ensures forall s :: 0 <= s < |bars| ==> k <= |bars[s]|
    ensures var cut := Backtest(st, symbols, First(bars, k));
            Tradable(cut) && cut.BarCount() == k
  {
    hide AllBuyable, Signals;
    PrefixIsAligned(st, symbols, bars, k);
    var full, cut := Backtest(st, symbols, bars), Backtest(st, symbols, First(bars, k));
    forall i | 0 < i < k ensures AllBuyable(cut.OpenOf(i)) {
      OpensOfPrefix(st, symbols, bars, k, i);
      assert AllBuyable(full.OpenOf(i));
    }
  }

  /** No lookahead. For each strategy and every k, warm-up included, signalling and simulating the first k bars
      gives a trade log and an equity curve that are prefixes of the full ones. */
  lemma NothingIsForeseen(st: Strategy, symbols: seq<Symbol>, bars: seq<seq<Bar>>, capital: real, k: nat)
    requires ValidParams(st) && Tradable(Backtest(st, symbols, bars))
    requires k <= Backtest(st, symbols, bars).BarCount()
    ensures forall s :: 0 <= s < |bars| ==> k <= |bars[s]|
    ensures Tradable(Backtest(st, symbols, First(bars, k)))
    ensures var full := Simulated(Backtest(st, symbols, bars), capital);
            var cut := Simulated(Backtest(st, symbols, First(bars, k)), capital);
            cut.trades <= full.trades && cut.equityCurve == full.equityCurve[..k]
  {
    hide PoolAt, Signals;
    PrefixIsTradable(st, symbols, bars, k);
    var full, cut := Backtest(st, symbols, bars), Backtest(st, symbols, First(bars, k));
    forall j | 0 < j < k ensures cut.OpenOf(j) == full.OpenOf(j) {
      OpensOfPrefix(st, symbols, bars, k, j);
    }
    forall i | 0 <= i < k ensures EquityAt(cut, capital, i) == EquityAt(full, capital, i) {
      PoolSeesOnlyOpens(cut, full, capital, i);
      assert cut.ClosesAt(i) == full.ClosesAt(i);
    }
    if k > 0 {
      PoolSeesOnlyOpens(cut, full, capital, k - 1);
      TradesOnlyGrow(full, capital, k - 1, full.BarCount() - 1);
    }
  }

  /** The one-bar lag, at its sharpest: two histories that agree on every bar before i, and on bar i's timestamps
      and opens, trade alike through bar i however their closes of that day differ. */
  lemma TodaysCloseIsUnseen(st: Strategy, symbols: seq<Symbol>, a: seq<seq<Bar>>, b: seq<seq<Bar>>, capital: real, i: nat)
    requires ValidParams(st) && Tradable(Backtest(st, symbols, a)) && Tradable(Backtest(st, symbols, b))
    requires i < Backtest(st, symbols, a).BarCount() && i < Backtest(st, symbols, b).BarCount()
    requires forall s :: 0 <= s < |symbols| ==>
      a[s][..i] == b[s][..i] && a[s][i].open == b[s][i].open && a[s][i].timestamp == b[s][i].timestamp
    ensures PoolAt(Backtest(st, symbols, a), capital, i) == PoolAt(Backtest(st, symbols, b), capital, i)
  {
    hide PoolAt, Signals;
    var left, right := Backtest(st, symbols, a), Backtest(st, symbols, b);
    forall s | 0 <= s < |symbols| ensures Signals(st, a[s])[..i] == Signals(st, b[s])[..i] {
      SignalsOfPrefix(st, a[s], i);
      SignalsOfPrefix(st, b[s], i);
    }
    forall j | 0 < j <= i ensures left.OpenOf(j) == right.OpenOf(j) {
      forall s | 0 <= s < |symbols| ensures left.OpenOf(j)[s] == right.OpenOf(j)[s] {
        assert Signals(st, a[s])[..i][j - 1] == Signals(st, b[s])[..i][j - 1];
        if j < i {
          assert a[s][..i][j] == b[s][..i][j];
        }
      }
    }
    PoolSeesOnlyOpens(left, right, capital, i);
  }
}
