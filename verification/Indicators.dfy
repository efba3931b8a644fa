/** The backtest's indicators: each loop against the definition of what it computes at a bar. */
module Indicators {
  import opened Numeric
  import opened Market
  import opened Sums

  function ClosesOf(bars: seq<Bar>): (closes: seq<real>)
    ensures |closes| == |bars|
    ensures forall i :: 0 <= i < |bars| ==> closes[i] == bars[i].close
  {
    seq(|bars|, i requires 0 <= i < |bars| => bars[i].close)
  }

  lemma SumOfNone()
    ensures Sum([]) == 0.0
  {}

  lemma {:induction false} SumFirst(values: seq<real>)
    requires values != []
    ensures Sum(values) == values[0] + Sum(values[1..])
  {
    var last := |values| - 1;
    if last > 0 {
      SumFirst(values[..last]);
      assert values[..last][1..] == values[1..][..last - 1];
    }
  }

  lemma SumStep(values: seq<real>, i: nat, j: nat)
    requires i <= j < |values|
    ensures Sum(values[i..j + 1]) == Sum(values[i..j]) + values[j]
  {
    assert values[i..j + 1][..j - i] == values[i..j];
  }

  // ---- what each indicator means, at the last of the values given to it

  function Average(total: real, n: int): real
    requires n > 0
  {
    total / n as real
  }

  /** The mean of the newest window values. */
  function TrailingMean(values: seq<real>, window: int): real
    requires 0 < window <= |values|
  {
    Average(Sum(values[|values| - window..]), window)
  }

  /** The share of a new value in an exponential average. */
  function Alpha(period: int): real
    requires period > 0
  {
    2.0 / (period + 1) as real
  }

  function Blend(value: real, prev: real, alpha: real): real {
    value * alpha + prev * (1.0 - alpha)
  }

  /** Wilder's blend: one part new in period. */
  function WilderBlend(newest: real, average: real, period: int): real
    requires period > 0
  {
    (average * (period - 1) as real + newest) / period as real
  }

  /** Seeded with the plain mean of the first period values, then a fixed share of each newer one. */
  function Ema(values: seq<real>, period: int): real
    requires 0 < period <= |values|
  {
    if |values| == period then Average(Sum(values), period)
    else Blend(values[|values| - 1], Ema(values[..|values| - 1], period), Alpha(period))
  }

  function Gain(from: real, to: real): real { if to - from > 0.0 then to - from else 0.0 }
  function Loss(from: real, to: real): real { if to - from > 0.0 then 0.0 else -(to - from) }

  function GainsOf(closes: seq<real>): (s: seq<real>)
    requires closes != []
    ensures |s| == |closes| - 1
  {
    seq(|closes| - 1, i requires 0 <= i < |closes| - 1 => Gain(closes[i], closes[i + 1]))
  }

  function LossesOf(closes: seq<real>): (s: seq<real>)
    requires closes != []
    ensures |s| == |closes| - 1
  {
    seq(|closes| - 1, i requires 0 <= i < |closes| - 1 => Loss(closes[i], closes[i + 1]))
  }

  /** Wilder's smoothing: the plain mean of the first period values, then one part newest in period. */
  function Smoothed(values: seq<real>, period: int): real
    requires 0 < period <= |values|
  {
    if |values| == period then Average(Sum(values), period)
    else WilderBlend(values[|values| - 1], Smoothed(values[..|values| - 1], period), period)
  }

  function RsiFromAverages(avgGain: real, avgLoss: real): real
    requires avgGain >= 0.0 && avgLoss >= 0.0
  {
    if avgGain == 0.0 && avgLoss == 0.0 then 50.0
    else if avgLoss == 0.0 then 100.0
    else if avgGain == 0.0 then 0.0
    else
      var rs := avgGain / avgLoss;
      assert rs > 0.0;
      100.0 - 100.0 / (1.0 + rs)
  }

  lemma {:induction false} SumNonnegative(values: seq<real>)
    requires forall i :: 0 <= i < |values| ==> values[i] >= 0.0
    ensures Sum(values) >= 0.0
  {
    if values != [] {
      SumNonnegative(values[..|values| - 1]);
    }
  }

  lemma {:induction false} SmoothedNonnegative(values: seq<real>, period: int)
    requires 0 < period <= |values| && forall i :: 0 <= i < |values| ==> values[i] >= 0.0
    ensures Smoothed(values, period) >= 0.0
  {
    if |values| == period {
      SumNonnegative(values);
    } else {
      SmoothedNonnegative(values[..|values| - 1], period);
      WilderBlendNonnegative(values[|values| - 1], Smoothed(values[..|values| - 1], period), period);
    }
  }

  lemma WilderBlendNonnegative(newest: real, average: real, period: int)
    requires average >= 0.0 && newest >= 0.0 && period > 0
    ensures WilderBlend(newest, average, period) >= 0.0
  {
    assert average * (period - 1) as real >= 0.0;
  }

  function Rsi(closes: seq<real>, period: int): real
    requires 0 < period < |closes|
  {
    SmoothedNonnegative(GainsOf(closes), period);
    SmoothedNonnegative(LossesOf(closes), period);
    RsiFromAverages(Smoothed(GainsOf(closes), period), Smoothed(LossesOf(closes), period))
  }

  /** The MACD line at every bar from the first that has a slow average, up to the last of closes. */
  function MacdLine(closes: seq<real>, fast: int, slow: int): (line: seq<real>)
    requires 0 < fast < slow <= |closes|
    ensures |line| == |closes| - slow + 1
  {
    var newest := Ema(closes, fast) - Ema(closes, slow);
    if |closes| == slow then [newest] else MacdLine(closes[..|closes| - 1], fast, slow) + [newest]
  }

  // ---- the loops

  /** The sum a moving average has running before bar i: the window bars behind it, or all there are. */
  function RunningSum(values: seq<real>, window: int, i: nat): real
    requires 0 < window && i <= |values|
  {
    Sum(values[if i < window then 0 else i - window..i])
  }

  lemma RunningSumStep(values: seq<real>, window: int, i: nat)
    requires 0 < window && i < |values|
    ensures RunningSum(values, window, i + 1)
            == RunningSum(values, window, i) + values[i] - if i >= window then values[i - window] else 0.0
  {
    if i >= window {
      SumFirst(values[i - window..i + 1]);
      assert values[i - window..i + 1][1..] == values[i - window + 1..i + 1];
      SumStep(values, i - window, i);
    } else {
      SumStep(values, 0, i);
      assert i + 1 == window ==> values[i + 1 - window..i + 1] == values[0..i + 1];
    }
  }

  lemma NothingRunning(values: seq<real>, window: int)
    requires 0 < window
    ensures RunningSum(values, window, 0) == 0.0
  {}

  lemma MeanAt(values: seq<real>, window: int, i: nat)
    requires 0 < window <= i + 1 <= |values|
    ensures TrailingMean(values[..i + 1], window) == Average(RunningSum(values, window, i + 1), window)
  {
    assert values[..i + 1][i + 1 - window..] == values[i + 1 - window..i + 1];
  }

  /** A moving average per bar; the first window - 1 are zero and mean nothing. */
  method MovingAverages(bars: seq<Bar>, window: int) returns (averages: seq<real>)
    requires window > 0
    ensures |averages| == |bars|
    ensures forall i :: window - 1 <= i < |bars| ==> averages[i] == TrailingMean(ClosesOf(bars)[..i + 1], window)
  {
    hide Sum, Average, TrailingMean, RunningSum;
    ghost var closes := ClosesOf(bars);
    var result := new real[|bars|](_ => 0.0);
    var sum := 0.0;
    NothingRunning(closes, window);
    for i := 0 to |bars|
      invariant sum == RunningSum(closes, window, i)
      invariant forall k :: window - 1 <= k < i ==> result[k] == TrailingMean(closes[..k + 1], window)
    {
      RunningSumStep(closes, window, i);
      sum := sum + bars[i].close;
      if i >= window {
        sum := sum - bars[i - window].close;
      }
      if i >= window - 1 {
        MeanAt(closes, window, i);
        result[i] := Average(sum, window);
      }
    }
    return result[..];
  }

  lemma EmaStep(values: seq<real>, period: int, i: nat)
    requires 0 < period <= i < |values|
    ensures Ema(values[..i + 1], period) == Blend(values[i], Ema(values[..i], period), Alpha(period))
  {
    assert values[..i + 1][..i] == values[..i];
  }

  /** All zeros when there is no seed to compute. */
  method EmaOf(values: seq<real>, period: int) returns (averages: seq<real>)
    ensures |averages| == |values|
    ensures forall i :: 0 < period && period - 1 <= i < |values| ==> averages[i] == Ema(values[..i + 1], period)
  {
    hide Sum, Average, Blend, Alpha;
    var result := new real[|values|](_ => 0.0);
    if period <= 0 || period > |values| {
      return result[..];
    }
    SumOfNone();
    var sum := 0.0;
    for i := 0 to period
      invariant sum == Sum(values[..i])
    {
      SumStep(values, 0, i);
      sum := sum + values[i];
    }
    var prev := Average(sum, period);
    result[period - 1] := prev;
    var alpha := Alpha(period);
    for i := period to |values|
      invariant prev == Ema(values[..i], period)
      invariant forall k :: period - 1 <= k < i ==> result[k] == Ema(values[..k + 1], period)
    {
      EmaStep(values, period, i);
      prev := Blend(values[i], prev, alpha);
      result[i] := prev;
    }
    return result[..];
  }

  lemma SmoothedStep(values: seq<real>, period: int, i: nat)
    requires 0 < period <= i < |values|
    ensures Smoothed(values[..i + 1], period) == WilderBlend(values[i], Smoothed(values[..i], period), period)
  {
    assert values[..i + 1][..i] == values[..i];
  }

  /** What the averages of a longer series are at an earlier bar. */
  lemma MovesOfPrefix(closes: seq<real>, i: nat)
    requires 0 < i < |closes|
    ensures GainsOf(closes[..i + 1]) == GainsOf(closes)[..i] && LossesOf(closes[..i + 1]) == LossesOf(closes)[..i]
  {}

  /** The averages at bar period, each delta counted on one side only. */
  method SeedAverages(closes: seq<real>, period: int) returns (avgGain: real, avgLoss: real)
    requires 0 < period < |closes|
    ensures avgGain == Smoothed(GainsOf(closes)[..period], period)
    ensures avgLoss == Smoothed(LossesOf(closes)[..period], period)
  {
    hide Sum, Average;
    ghost var gains, losses := GainsOf(closes), LossesOf(closes);
    var gainSum, lossSum := 0.0, 0.0;
    SumOfNone();
    for i := 1 to period + 1
      invariant gainSum == Sum(gains[..i - 1]) && lossSum == Sum(losses[..i - 1])
    {
      SumStep(gains, 0, i - 1);
      SumStep(losses, 0, i - 1);
      var delta := closes[i] - closes[i - 1];
      if delta > 0.0 {
        gainSum := gainSum + delta;
      } else {
        lossSum := lossSum + -delta;
      }
    }
    avgGain := Average(gainSum, period);
    avgLoss := Average(lossSum, period);
  }

  /** All zeros when there is no first value. */
  method WilderRsi(closes: seq<real>, period: int) returns (rsi: seq<real>)
    ensures |rsi| == |closes|
    ensures forall i :: 0 < period <= i < |closes| ==> rsi[i] == Rsi(closes[..i + 1], period)
  {
    hide Rsi, RsiFromAverages, Smoothed, WilderBlend;
    var result := new real[|closes|](_ => 0.0);
    if period <= 0 || period >= |closes| {
      return result[..];
    }
    ghost var gains, losses := GainsOf(closes), LossesOf(closes);
    var avgGain, avgLoss := SeedAverages(closes, period);
    RsiAt(closes, period, period);
    result[period] := RsiFromAverages(avgGain, avgLoss);
    for i := period + 1 to |closes|
      invariant avgGain == Smoothed(gains[..i - 1], period) && avgLoss == Smoothed(losses[..i - 1], period)
      invariant forall k :: period <= k < i ==> result[k] == Rsi(closes[..k + 1], period)
    {
      var delta := closes[i] - closes[i - 1];
      var gain, loss := 0.0, 0.0;
      if delta > 0.0 {
        gain := delta;
      } else {
        loss := -delta;
      }
      SmoothedStep(gains, period, i - 1);
      SmoothedStep(losses, period, i - 1);
      avgGain := WilderBlend(gain, avgGain, period);
      avgLoss := WilderBlend(loss, avgLoss, period);
      RsiAt(closes, period, i);
      result[i] := RsiFromAverages(avgGain, avgLoss);
    }
    return result[..];
  }

  lemma RsiAt(closes: seq<real>, period: int, i: nat)
    requires 0 < period <= i < |closes|
    ensures var avgGain, avgLoss := Smoothed(GainsOf(closes)[..i], period), Smoothed(LossesOf(closes)[..i], period);
            avgGain >= 0.0 && avgLoss >= 0.0
            && Rsi(closes[..i + 1], period) == RsiFromAverages(avgGain, avgLoss)
  {
    MovesOfPrefix(closes, i);
    SmoothedNonnegative(GainsOf(closes)[..i], period);
    SmoothedNonnegative(LossesOf(closes)[..i], period);
  }

  // ---- what the values can be

  lemma {:induction false} SumBetween(values: seq<real>, low: real, high: real)
    requires forall i :: 0 <= i < |values| ==> low <= values[i] <= high
    ensures low * |values| as real <= Sum(values) <= high * |values| as real
  {
    if values != [] {
      SumBetween(values[..|values| - 1], low, high);
      assert low * |values| as real == low * (|values| - 1) as real + low;
      assert high * |values| as real == high * (|values| - 1) as real + high;
    }
  }

  lemma MeanBetween(sum: real, n: int, low: real, high: real)
    requires n > 0 && low * n as real <= sum <= high * n as real
    ensures low <= Average(sum, n) <= high
  {
    var mean := Average(sum, n);
    assert mean * n as real == sum;
    assert (mean - low) * n as real == sum - low * n as real;
    assert (high - mean) * n as real == high * n as real - sum;
    FactorNonnegative(mean - low, n as real);
    FactorNonnegative(high - mean, n as real);
  }

  lemma BlendBetween(x: real, y: real, alpha: real, low: real, high: real)
    requires 0.0 <= alpha <= 1.0 && low <= x <= high && low <= y <= high
    ensures low <= Blend(x, y, alpha) <= high
  {
    assert (x - low) * alpha >= 0.0 && (high - x) * alpha >= 0.0;
    assert (y - low) * (1.0 - alpha) >= 0.0 && (high - y) * (1.0 - alpha) >= 0.0;
  }

  /** An exponential average never leaves the range of the values it averages, seed included. */
  lemma {:induction false} EmaBetween(values: seq<real>, period: int, low: real, high: real)
    requires 0 < period <= |values| && forall i :: 0 <= i < |values| ==> low <= values[i] <= high
    ensures low <= Ema(values, period) <= high
  {
    if |values| == period {
      SumBetween(values, low, high);
      MeanBetween(Sum(values), period, low, high);
    } else {
      var earlier := values[..|values| - 1];
      EmaBetween(earlier, period, low, high);
      BlendBetween(values[|values| - 1], Ema(earlier, period), Alpha(period), low, high);
    }
  }

  /** An RSI is a percentage, and rising and falling pressure are each other's complement. */
  lemma RsiComplement(avgGain: real, avgLoss: real)
    requires avgGain >= 0.0 && avgLoss >= 0.0
    ensures 0.0 <= RsiFromAverages(avgGain, avgLoss) <= 100.0
    ensures RsiFromAverages(avgLoss, avgGain) == 100.0 - RsiFromAverages(avgGain, avgLoss)
  {
    if avgGain > 0.0 && avgLoss > 0.0 {
      RsiIsShareOfGain(avgGain, avgLoss);
      RsiIsShareOfGain(avgLoss, avgGain);
      var total := avgGain + avgLoss;
      assert avgGain / total + avgLoss / total == total / total == 1.0;
      assert avgGain / total >= 0.0 && avgLoss / total >= 0.0;
    }
  }

  lemma RsiIsShareOfGain(avgGain: real, avgLoss: real)
    requires avgGain > 0.0 && avgLoss > 0.0
    ensures RsiFromAverages(avgGain, avgLoss) == 100.0 * (avgGain / (avgGain + avgLoss))
  {
    var rs, total := avgGain / avgLoss, avgGain + avgLoss;
    var rest := 100.0 / (1.0 + rs);
    assert rs * avgLoss == avgGain && rs > 0.0;
    assert rest * (1.0 + rs) == 100.0;
    ProductsEqual(rest, 1.0 + rs, 100.0, avgLoss);
    assert (1.0 + rs) * avgLoss == total;
    assert rest * total == 100.0 * avgLoss;
    assert (100.0 - rest) * total == 100.0 * avgGain;
    QuotientOf(100.0 - rest, total, avgGain);
  }

  lemma ProductsEqual(x: real, y: real, z: real, w: real)
    requires x * y == z
    ensures x * (y * w) == z * w
  {
    assert x * (y * w) == (x * y) * w;
  }

  lemma QuotientOf(x: real, total: real, part: real)
    requires total > 0.0 && x * total == 100.0 * part
    ensures x == 100.0 * (part / total)
  {
    var q := part / total;
    assert q * total == part;
    assert (x - 100.0 * q) * total == 0.0;
  }
}
