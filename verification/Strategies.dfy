/** The three strategies: what each decides at a bar, and the loops that decide it for all of them. */
module Strategies {
  import opened Wrappers
  import opened Market
  import opened Indicators

  datatype Signal = SignalNone | SignalBuy | SignalSell

  datatype Strategy =
    | MaCrossover(shortWindow: int, longWindow: int)
    | RsiThreshold(period: int, oversold: real, overbought: real)
    | Macd(fastPeriod: int, slowPeriod: int, signalPeriod: int)

  const MAX_WARMUP_BARS: int := 500

  /** The bars the indicator needs before its first value, not before the first possible signal. */
  function WarmupBars(st: Strategy): int {
    match st
    case MaCrossover(_, long) => long
    case RsiThreshold(period, _, _) => period + 1
    case Macd(_, slow, signal) => slow + signal - 1
  }

  predicate ValidParams(st: Strategy) {
    match st
    case MaCrossover(short, long) => 2 <= short < long
    case RsiThreshold(period, oversold, overbought) => 2 <= period && 0.0 < oversold < overbought < 100.0
    case Macd(fast, slow, signal) => 2 <= fast < slow && 2 <= signal
  }

  // ---- construction, in the machine integers the service computes with

  const INT64_MAX: int := 0x7fff_ffff_ffff_ffff

  predicate IsInt64(x: int) { -INT64_MAX - 1 <= x <= INT64_MAX }

  /** What 64-bit addition leaves of the sum of two machine integers. */
  function Wrap64(x: int): int {
    if x > INT64_MAX then x - 2 * INT64_MAX - 2
    else if x < -INT64_MAX - 1 then x + 2 * INT64_MAX + 2
    else x
  }

  function MachineWarmupBars(st: Strategy): int {
    match st
    case MaCrossover(_, long) => long
    case RsiThreshold(period, _, _) => Wrap64(period + 1)
    case Macd(_, slow, signal) => Wrap64(Wrap64(slow + signal) - 1)
  }

  /** Validation as written: each parameter alone, then the machine's own idea of the warm-up. */
  function NewStrategy(st: Strategy): (r: Option<Strategy>)
    requires match st
             case MaCrossover(short, long) => IsInt64(short) && IsInt64(long)
             case RsiThreshold(period, _, _) => IsInt64(period)
             case Macd(fast, slow, signal) => IsInt64(fast) && IsInt64(slow) && IsInt64(signal)
    ensures r == if ValidParams(st) && WarmupBars(st) <= MAX_WARMUP_BARS then Some(st) else None
  {
    var accepted :=
      match st
      case MaCrossover(short, long) => !(short < 2) && !(long <= short)
      case RsiThreshold(period, oversold, overbought) =>
        && !(period < 2) && !(period > MAX_WARMUP_BARS)
        && oversold > 0.0 && oversold < overbought && overbought < 100.0
      case Macd(fast, slow, signal) =>
        && !(fast < 2) && !(slow <= fast) && !(signal < 2)
        && !(slow > MAX_WARMUP_BARS) && !(signal > MAX_WARMUP_BARS);
    if !accepted || MachineWarmupBars(st) > MAX_WARMUP_BARS then None else Some(st)
  }

  /** Why each period is bounded alone as well: the warm-up of the longest one wraps to a number that
      passes, and no warm-up check can tell. */
  lemma WarmupCheckAloneOverflows()
    ensures var st := RsiThreshold(INT64_MAX, 30.0, 70.0);
            ValidParams(st) && MachineWarmupBars(st) <= MAX_WARMUP_BARS < WarmupBars(st)
  {}

  // ---- what is decided at a bar, from the bars up to and including it

  function Crossing(wasAbove: bool, above: bool): Signal {
    if above && !wasAbove then SignalBuy else if !above && wasAbove then SignalSell else SignalNone
  }

  function ZoneExit(prev: real, cur: real, oversold: real, overbought: real): Signal {
    if prev <= oversold && cur > oversold then SignalBuy
    else if prev >= overbought && cur < overbought then SignalSell
    else SignalNone
  }

  predicate AveragesAbove(closes: seq<real>, short: int, long: int)
    requires 0 < short < long <= |closes|
  {
    TrailingMean(closes, short) > TrailingMean(closes, long)
  }

  predicate MacdAbove(closes: seq<real>, fast: int, slow: int, signal: int)
    requires 0 < fast < slow && 0 < signal && slow + signal - 1 <= |closes|
  {
    var line := MacdLine(closes, fast, slow);
    line[|line| - 1] > Ema(line, signal)
  }

  /** Is the faster series on top at the last of these closes. */
  predicate Above(st: Strategy, closes: seq<real>)
    requires ValidParams(st) && !st.RsiThreshold? && WarmupBars(st) <= |closes|
  {
    match st
    case MaCrossover(short, long) => AveragesAbove(closes, short, long)
    case Macd(fast, slow, signal) => MacdAbove(closes, fast, slow, signal)
  }

  /** The decision at the last bar of a history. Nothing that comes after it is an argument. */
  function Decide(st: Strategy, history: seq<Bar>): Signal
    requires ValidParams(st)
  {
    if |history| <= WarmupBars(st) then SignalNone
    else
      var closes := ClosesOf(history);
      var before := closes[..|closes| - 1];
      if st.RsiThreshold? then ZoneExit(Rsi(before, st.period), Rsi(closes, st.period), st.oversold, st.overbought)
      else Crossing(Above(st, before), Above(st, closes))
  }

  function Signals(st: Strategy, bars: seq<Bar>): (signals: seq<Signal>)
    requires ValidParams(st)
    ensures |signals| == |bars|
  {
    seq(|bars|, i requires 0 <= i < |bars| => Decide(st, bars[..i + 1]))
  }

  // ---- the loops

  /** A signal only on the bar where the two series change sides. */
  method CrossoverSignals(fast: seq<real>, slow: seq<real>, from: int) returns (signals: seq<Signal>)
    requires |slow| == |fast| && from >= 0
    ensures |signals| == |fast|
    ensures forall i :: 0 <= i < |fast| && i <= from ==> signals[i] == SignalNone
    ensures forall i :: from < i < |fast| ==> signals[i] == Crossing(fast[i - 1] > slow[i - 1], fast[i] > slow[i])
  {
    var result := new Signal[|fast|](_ => SignalNone);
    var wasAbove, haveState := false, false;
    var i := from;
    while i < |fast|
      invariant from <= i && (i <= |fast| || i == from)
      invariant haveState <==> i > from
      invariant haveState ==> wasAbove == (fast[i - 1] > slow[i - 1])
      invariant forall k :: 0 <= k < |fast| && (k <= from || k >= i) ==> result[k] == SignalNone
      invariant forall k :: from < k < i ==> result[k] == Crossing(fast[k - 1] > slow[k - 1], fast[k] > slow[k])
    {
      var above := fast[i] > slow[i];
      if haveState {
        if above && !wasAbove {
          result[i] := SignalBuy;
        } else if !above && wasAbove {
          result[i] := SignalSell;
        }
      }
      wasAbove := above;
      haveState := true;
      i := i + 1;
    }
    return result[..];
  }

  /** A signal on the bar that leaves a zone, never while inside it. */
  method RsiZoneExitSignals(rsi: seq<real>, oversold: real, overbought: real, from: int)
    returns (signals: seq<Signal>)
    requires from > 0
    ensures |signals| == |rsi|
    ensures forall i :: 0 <= i < |rsi| && i < from ==> signals[i] == SignalNone
    ensures forall i :: from <= i < |rsi| ==> signals[i] == ZoneExit(rsi[i - 1], rsi[i], oversold, overbought)
  {
    var result := new Signal[|rsi|](_ => SignalNone);
    var i := from;
    while i < |rsi|
      invariant from <= i && (i <= |rsi| || i == from)
      invariant forall k :: 0 <= k < |rsi| && (k < from || k >= i) ==> result[k] == SignalNone
      invariant forall k :: from <= k < i ==> result[k] == ZoneExit(rsi[k - 1], rsi[k], oversold, overbought)
    {
      var prev, cur := rsi[i - 1], rsi[i];
      if prev <= oversold && cur > oversold {
        result[i] := SignalBuy;
      } else if prev >= overbought && cur < overbought {
        result[i] := SignalSell;
      }
      i := i + 1;
    }
    return result[..];
  }

  lemma DecideAt(st: Strategy, bars: seq<Bar>, i: nat)
    requires ValidParams(st) && WarmupBars(st) <= i < |bars|
    ensures var closes := ClosesOf(bars);
            Decide(st, bars[..i + 1])
            == if st.RsiThreshold?
               then ZoneExit(Rsi(closes[..i], st.period), Rsi(closes[..i + 1], st.period), st.oversold, st.overbought)
               else Crossing(Above(st, closes[..i]), Above(st, closes[..i + 1]))
  {
    hide Rsi, Above;
    var closes := ClosesOf(bars);
    assert ClosesOf(bars[..i + 1]) == closes[..i + 1];
    assert closes[..i + 1][..i] == closes[..i];
  }

  lemma WarmupIsSilent(st: Strategy, bars: seq<Bar>, i: nat)
    requires ValidParams(st) && i < |bars| && i < WarmupBars(st)
    ensures Decide(st, bars[..i + 1]) == SignalNone
  {}

  lemma {:induction false} MacdLineAt(closes: seq<real>, fast: int, slow: int, i: nat)
    requires 0 < fast < slow && slow - 1 <= i < |closes|
    ensures |MacdLine(closes, fast, slow)| == |closes| - slow + 1
    ensures MacdLine(closes, fast, slow)[i - slow + 1] == Ema(closes[..i + 1], fast) - Ema(closes[..i + 1], slow)
    ensures MacdLine(closes[..i + 1], fast, slow) == MacdLine(closes, fast, slow)[..i - slow + 2]
    decreases |closes|
  {
    hide Ema;
    if i == |closes| - 1 {
      assert closes[..i + 1] == closes;
    } else {
      var earlier := closes[..|closes| - 1];
      MacdLineAt(earlier, fast, slow, i);
      assert earlier[..i + 1] == closes[..i + 1];
    }
  }

  method MovingAverageSignals(bars: seq<Bar>, short: int, long: int) returns (signals: seq<Signal>)
    requires 2 <= short < long <= |bars|
    ensures |signals| == |bars|
    ensures forall i :: 0 <= i < |bars| ==> signals[i] == Decide(MaCrossover(short, long), bars[..i + 1])
  {
    hide TrailingMean;
    var shortMA := MovingAverages(bars, short);
    var longMA := MovingAverages(bars, long);
    signals := CrossoverSignals(shortMA, longMA, long - 1);
    forall i | 0 <= i < |bars| ensures signals[i] == Decide(MaCrossover(short, long), bars[..i + 1]) {
      if i < long {
        WarmupIsSilent(MaCrossover(short, long), bars, i);
      } else {
        DecideAt(MaCrossover(short, long), bars, i);
        assert shortMA[i] > longMA[i] <==> AveragesAbove(ClosesOf(bars)[..i + 1], short, long);
        assert shortMA[i - 1] > longMA[i - 1] <==> AveragesAbove(ClosesOf(bars)[..i], short, long);
      }
    }
  }

  method RsiSignals(bars: seq<Bar>, period: int, oversold: real, overbought: real) returns (signals: seq<Signal>)
    requires ValidParams(RsiThreshold(period, oversold, overbought)) && period + 1 <= |bars|
    ensures |signals| == |bars|
    ensures forall i :: 0 <= i < |bars| ==> signals[i] == Decide(RsiThreshold(period, oversold, overbought), bars[..i + 1])
  {
    hide Rsi;
    var st := RsiThreshold(period, oversold, overbought);
    var rsi := WilderRsi(ClosesOf(bars), period);
    signals := RsiZoneExitSignals(rsi, oversold, overbought, period + 1);
    forall i | 0 <= i < |bars| ensures signals[i] == Decide(st, bars[..i + 1]) {
      if i < period + 1 {
        WarmupIsSilent(st, bars, i);
      } else {
        DecideAt(st, bars, i);
        assert rsi[i - 1] == Rsi(ClosesOf(bars)[..i], period);
      }
    }
  }

  /** The MACD line per bar, zero before it is defined, and its own average copied back at its offset. */
  method MacdLines(closes: seq<real>, fast: int, slow: int, signal: int)
    returns (macdLine: seq<real>, signalLine: seq<real>)
    requires 0 < fast < slow && 0 < signal && slow + signal - 1 <= |closes|
    ensures |macdLine| == |signalLine| == |closes|
    ensures forall i :: slow + signal - 2 <= i < |closes| ==>
              (macdLine[i] > signalLine[i] <==> MacdAbove(closes[..i + 1], fast, slow, signal))
  {
    hide Ema;
    var fastEMA := EmaOf(closes, fast);
    var slowEMA := EmaOf(closes, slow);
    var line := new real[|closes|](_ => 0.0);
    for i := slow - 1 to |closes|
      invariant forall k :: slow - 1 <= k < i ==> line[k] == fastEMA[k] - slowEMA[k]
    {
      line[i] := fastEMA[i] - slowEMA[i];
    }
    macdLine := line[..];
    ghost var comparable := MacdLine(closes, fast, slow);
    forall i | slow - 1 <= i < |closes| ensures macdLine[i] == comparable[i - slow + 1] {
      MacdLineAt(closes, fast, slow, i);
    }
    assert macdLine[slow - 1..] == comparable;
    var signalSub := EmaOf(macdLine[slow - 1..], signal);
    var copied := new real[|closes|](_ => 0.0);
    for i := 0 to |signalSub|
      invariant forall k :: 0 <= k < i ==> copied[slow - 1 + k] == signalSub[k]
    {
      copied[slow - 1 + i] := signalSub[i];
    }
    signalLine := copied[..];
    forall i | slow + signal - 2 <= i < |closes|
      ensures macdLine[i] > signalLine[i] <==> MacdAbove(closes[..i + 1], fast, slow, signal)
    {
      MacdLineAt(closes, fast, slow, i);
      assert signalLine[i] == signalSub[i - slow + 1];
    }
  }

  method MacdSignals(bars: seq<Bar>, fast: int, slow: int, signal: int) returns (signals: seq<Signal>)
    requires ValidParams(Macd(fast, slow, signal)) && slow + signal - 1 <= |bars|
    ensures |signals| == |bars|
    ensures forall i :: 0 <= i < |bars| ==> signals[i] == Decide(Macd(fast, slow, signal), bars[..i + 1])
  {
    hide MacdAbove;
    var st := Macd(fast, slow, signal);
    var macdLine, signalLine := MacdLines(ClosesOf(bars), fast, slow, signal);
    signals := CrossoverSignals(macdLine, signalLine, slow + signal - 2);
    forall i | 0 <= i < |bars| ensures signals[i] == Decide(st, bars[..i + 1]) {
      if i < slow + signal - 1 {
        WarmupIsSilent(st, bars, i);
      } else {
        DecideAt(st, bars, i);
        assert macdLine[i - 1] > signalLine[i - 1] <==> MacdAbove(ClosesOf(bars)[..i], fast, slow, signal);
      }
    }
  }

  /** Every bar's signal, each decided from the bars up to and including its own; all silent when there are
      fewer bars than the indicator needs. */
  method GenerateSignals(st: Strategy, bars: seq<Bar>) returns (signals: seq<Signal>)
    requires ValidParams(st)
    ensures signals == Signals(st, bars)
  {
    hide Decide;
    if WarmupBars(st) > |bars| {
      signals := seq(|bars|, _ => SignalNone);
      forall i | 0 <= i < |bars| ensures Signals(st, bars)[i] == SignalNone {
        WarmupIsSilent(st, bars, i);
      }
      return;
    }
    match st
    case MaCrossover(short, long) => signals := MovingAverageSignals(bars, short, long);
    case RsiThreshold(period, oversold, overbought) => signals := RsiSignals(bars, period, oversold, overbought);
    case Macd(fast, slow, signal) => signals := MacdSignals(bars, fast, slow, signal);
  }
}
