/** Mirror duality: turning a price series upside down turns its RSI into its complement and its buys into sells. */
module Mirror {
  import opened Market
  import opened Indicators
  import opened Strategies

  function MirrorCloses(closes: seq<real>, c: real): (m: seq<real>)
    ensures |m| == |closes|
  {
    seq(|closes|, i requires 0 <= i < |closes| => c - closes[i])
  }

  function MirrorBars(bars: seq<Bar>, c: real): (m: seq<Bar>)
    ensures |m| == |bars|
  {
    seq(|bars|, i requires 0 <= i < |bars| => bars[i].(close := c - bars[i].close))
  }

  function Swapped(s: Signal): Signal {
    match s
    case SignalBuy => SignalSell
    case SignalSell => SignalBuy
    case SignalNone => SignalNone
  }

  function MirrorStrategy(st: Strategy): Strategy
    requires st.RsiThreshold?
  {
    RsiThreshold(st.period, 100.0 - st.overbought, 100.0 - st.oversold)
  }

  lemma MovesSwap(closes: seq<real>, c: real)
    requires closes != []
    ensures GainsOf(MirrorCloses(closes, c)) == LossesOf(closes)
    ensures LossesOf(MirrorCloses(closes, c)) == GainsOf(closes)
  {}

  /** Every defined RSI is a percentage, and the mirrored series has its complement. */
  lemma RsiMirrors(closes: seq<real>, period: int, c: real)
    requires 0 < period < |closes|
    ensures 0.0 <= Rsi(closes, period) <= 100.0
    ensures Rsi(MirrorCloses(closes, c), period) == 100.0 - Rsi(closes, period)
  {
    hide RsiFromAverages, Smoothed;
    MovesSwap(closes, c);
    SmoothedNonnegative(GainsOf(closes), period);
    SmoothedNonnegative(LossesOf(closes), period);
    RsiComplement(Smoothed(GainsOf(closes), period), Smoothed(LossesOf(closes), period));
  }

  lemma ClosesMirror(history: seq<Bar>, c: real)
    requires history != []
    ensures var closes, mirrored := ClosesOf(history), ClosesOf(MirrorBars(history, c));
            && mirrored == MirrorCloses(closes, c)
            && mirrored[..|mirrored| - 1] == MirrorCloses(closes[..|closes| - 1], c)
  {}

  lemma ZoneExitMirrors(prev: real, cur: real, oversold: real, overbought: real)
    requires oversold < overbought
    ensures ZoneExit(100.0 - prev, 100.0 - cur, 100.0 - overbought, 100.0 - oversold)
            == Swapped(ZoneExit(prev, cur, oversold, overbought))
  {}

  lemma DecisionIsZoneExit(st: Strategy, history: seq<Bar>)
    requires st.RsiThreshold? && ValidParams(st) && |history| > WarmupBars(st)
    ensures var closes := ClosesOf(history);
            Decide(st, history)
            == ZoneExit(Rsi(closes[..|closes| - 1], st.period), Rsi(closes, st.period), st.oversold, st.overbought)
  {
    hide Rsi, ZoneExit, ClosesOf;
  }

  lemma LongDecisionMirrors(st: Strategy, history: seq<Bar>, c: real)
    requires st.RsiThreshold? && ValidParams(st) && ValidParams(MirrorStrategy(st)) && |history| > WarmupBars(st)
    ensures Decide(MirrorStrategy(st), MirrorBars(history, c)) == Swapped(Decide(st, history))
  {
    hide Decide, Rsi, ZoneExit, Swapped, ClosesOf, MirrorCloses, MirrorBars;
    var closes := ClosesOf(history);
    DecisionIsZoneExit(st, history);
    DecisionIsZoneExit(MirrorStrategy(st), MirrorBars(history, c));
    ClosesMirror(history, c);
    RsiMirrors(closes, st.period, c);
    RsiMirrors(closes[..|closes| - 1], st.period, c);
    ZoneExitMirrors(Rsi(closes[..|closes| - 1], st.period), Rsi(closes, st.period), st.oversold, st.overbought);
  }

  lemma DecisionMirrors(st: Strategy, history: seq<Bar>, c: real)
    requires st.RsiThreshold? && ValidParams(st)
    ensures ValidParams(MirrorStrategy(st))
    ensures Decide(MirrorStrategy(st), MirrorBars(history, c)) == Swapped(Decide(st, history))
  {
    if |history| > WarmupBars(st) {
      LongDecisionMirrors(st, history, c);
    }
  }

  /** Replacing every close x by C - x, with the thresholds mirrored, swaps every buy and every sell. */
  lemma SignalsMirror(st: Strategy, bars: seq<Bar>, c: real)
    requires st.RsiThreshold? && ValidParams(st)
    ensures ValidParams(MirrorStrategy(st))
    ensures forall i :: 0 <= i < |bars| ==> Signals(MirrorStrategy(st), MirrorBars(bars, c))[i] == Swapped(Signals(st, bars)[i])
  {
    hide Decide;
    forall i | 0 <= i < |bars|
      ensures Signals(MirrorStrategy(st), MirrorBars(bars, c))[i] == Swapped(Signals(st, bars)[i])
    {
      assert MirrorBars(bars, c)[..i + 1] == MirrorBars(bars[..i + 1], c);
      DecisionMirrors(st, bars[..i + 1], c);
    }
  }
}
