/** Which way the strategies trade, in terms of the indicators, and then of the prices alone. */
module TradingRules {
  import opened Numeric
  import opened Wrappers
  import opened Market
  import opened Sums
  import opened Indicators
  import opened Strategies

  // ---- RSI

  /** The RSI strategy buys exactly on the bar whose RSI comes up out of the oversold zone, and sells exactly on the one
      whose RSI comes down out of the overbought zone, from the second bar that has an RSI on. */
  lemma RsiSignalIff(period: int, oversold: real, overbought: real, bars: seq<Bar>, i: nat)
    requires ValidParams(RsiThreshold(period, oversold, overbought)) && i < |bars|
    ensures var signal, closes := Signals(RsiThreshold(period, oversold, overbought), bars)[i], ClosesOf(bars);
            && (signal == SignalBuy <==>
                  i > period && Rsi(closes[..i], period) <= oversold < Rsi(closes[..i + 1], period))
            && (signal == SignalSell <==>
                  i > period && Rsi(closes[..i + 1], period) < overbought <= Rsi(closes[..i], period))
  {
    hide Rsi;
    var st := RsiThreshold(period, oversold, overbought);
    if i > period {
      DecideAt(st, bars, i);
    } else {
      WarmupIsSilent(st, bars, i);
    }
  }

  /** The RSI is the gains' share of all that moved, in percent. */
  lemma RsiIsGainsShare(g: real, l: real)
    requires g >= 0.0 && l >= 0.0 && g + l > 0.0
    ensures RsiFromAverages(g, l) * (g + l) == 100.0 * g
  {
    if g > 0.0 && l > 0.0 {
      var rs := g / l;
      var q := 100.0 / (1.0 + rs);
      assert rs * l == g;
      assert q * (1.0 + rs) == 100.0;
      assert (1.0 + rs) * l == l + g;
      assert q * (g + l) == 100.0 * l by {
        assert q * ((1.0 + rs) * l) == (q * (1.0 + rs)) * l;
      }
      assert (100.0 - q) * (g + l) == 100.0 * (g + l) - q * (g + l);
    }
  }

  lemma FactorAtMost(x: real, y: real, k: real)
    requires k > 0.0 && x * k <= y * k
    ensures x <= y
  {
    FactorNonnegative(y - x, k) by {
      assert (y - x) * k == y * k - x * k;
    }
  }

  /** Fading both pressures alike and adding to the loss never raises the RSI. */
  lemma LossLowersRsi(g: real, l: real, c: real, x: real, g': real, l': real)
    requires g >= 0.0 && l >= 0.0 && c > 0.0 && x >= 0.0 && g' == c * g && l' == c * l + x
    ensures g' >= 0.0 && l' >= 0.0 && RsiFromAverages(g', l') <= RsiFromAverages(g, l)
  {
    ProductNonnegative(c, g);
    ProductNonnegative(c, l);
    RsiComplement(g, l);
    RsiComplement(g', l');
    if g == 0.0 && l == 0.0 {
      assert g' == 0.0 && l' == x;
    } else {
      var total := g + l;
      assert c * total == c * g + c * l && c * total > 0.0;
      RsiIsGainsShare(g, l);
      RsiIsGainsShare(g', l');
      LessAtMost(RsiFromAverages(g, l), RsiFromAverages(g', l'), c, total, x, g);
    }
  }

  lemma LessAtMost(r: real, r': real, c: real, total: real, x: real, g: real)
    requires r >= 0.0 && c > 0.0 && x >= 0.0 && c * total > 0.0
    requires r * total == 100.0 * g && r' * (c * total + x) == 100.0 * (c * g)
    ensures r' <= r
  {
    assert r * (c * total) == c * (r * total);
    assert c * (100.0 * g) == 100.0 * (c * g);
    ProductNonnegative(r, x);
    assert r * (c * total + x) == r * (c * total) + r * x;
    FactorAtMost(r', r, c * total + x);
  }

  /** The same for the gain: by symmetry. */
  lemma GainRaisesRsi(g: real, l: real, c: real, x: real, g': real, l': real)
    requires g >= 0.0 && l >= 0.0 && c > 0.0 && x >= 0.0 && g' == c * g + x && l' == c * l
    ensures g' >= 0.0 && l' >= 0.0 && RsiFromAverages(g', l') >= RsiFromAverages(g, l)
  {
    hide RsiFromAverages;
    LossLowersRsi(l, g, c, x, l', g');
    RsiComplement(g, l);
    RsiComplement(l', g');
  }

  /** What Wilder's smoothing keeps of the average it had. */
  function Faded(period: int): real
    requires period >= 1
  {
    (period - 1) as real / period as real
  }

  lemma BlendFades(newest: real, average: real, period: int)
    requires period >= 2
    ensures WilderBlend(newest, average, period) == Faded(period) * average + newest / period as real
    ensures Faded(period) > 0.0
  {
    var n := period as real;
    var f := Faded(period);
    assert f * n == n - 1.0;
    assert (f * average) * n == average * (n - 1.0);
    var x := newest / n;
    assert x * n == newest;
    assert (f * average + x) * n == average * (n - 1.0) + newest;
    QuotientIs(average * (n - 1.0) + newest, n, f * average + x);
  }

  lemma QuotientIs(y: real, n: real, q: real)
    requires n > 0.0 && q * n == y
    ensures y / n == q
  {
    var d := y / n;
    assert d * n == y;
    assert (d - q) * n == 0.0;
  }

  lemma ClosesStep(closes: seq<real>, i: nat)
    requires 0 < i < |closes|
    ensures GainsOf(closes[..i + 1]) == GainsOf(closes[..i]) + [Gain(closes[i - 1], closes[i])]
    ensures LossesOf(closes[..i + 1]) == LossesOf(closes[..i]) + [Loss(closes[i - 1], closes[i])]
  {}

  lemma SmoothedAppend(values: seq<real>, x: real, period: int)
    requires 0 < period <= |values|
    ensures Smoothed(values + [x], period) == WilderBlend(x, Smoothed(values, period), period)
  {
    assert (values + [x])[..|values|] == values;
  }

  /** The averages behind the RSI, before a bar and after it. */
  lemma AveragesMove(closes: seq<real>, period: int, i: nat) returns (g: real, l: real)
    requires 2 <= period < i < |closes|
    ensures g >= 0.0 && l >= 0.0 && Rsi(closes[..i], period) == RsiFromAverages(g, l)
    ensures var gain, loss := Gain(closes[i - 1], closes[i]), Loss(closes[i - 1], closes[i]);
            && WilderBlend(gain, g, period) >= 0.0 && WilderBlend(loss, l, period) >= 0.0
            && Rsi(closes[..i + 1], period)
               == RsiFromAverages(WilderBlend(gain, g, period), WilderBlend(loss, l, period))
  {
    hide WilderBlend, RsiFromAverages;
    var gains, losses := GainsOf(closes[..i]), LossesOf(closes[..i]);
    var gain, loss := Gain(closes[i - 1], closes[i]), Loss(closes[i - 1], closes[i]);
    ClosesStep(closes, i);
    SmoothedNonnegative(gains, period);
    SmoothedNonnegative(losses, period);
    SmoothedNonnegative(gains + [gain], period);
    SmoothedNonnegative(losses + [loss], period);
    SmoothedAppend(gains, gain, period);
    SmoothedAppend(losses, loss, period);
    g, l := Smoothed(gains, period), Smoothed(losses, period);
  }

  /** What a new move adds to it. */
  function Part(x: real, period: int): real
    requires period >= 1
  {
    x / period as real
  }

  lemma BlendAdds(newest: real, average: real, period: int)
    requires period >= 2 && newest >= 0.0
    ensures WilderBlend(newest, average, period) == Faded(period) * average + Part(newest, period)
    ensures Faded(period) > 0.0 && Part(newest, period) >= 0.0 && (newest == 0.0 ==> Part(newest, period) == 0.0)
  {
    BlendFades(newest, average, period);
    QuotientNonnegative(newest, period as real);
    if newest == 0.0 {
      QuotientIs(newest, period as real, 0.0);
    }
  }

  lemma BlendMovesRsi(g: real, l: real, gain: real, loss: real, period: int)
    requires g >= 0.0 && l >= 0.0 && gain >= 0.0 && loss >= 0.0 && period >= 2
    requires WilderBlend(gain, g, period) >= 0.0 && WilderBlend(loss, l, period) >= 0.0
    ensures var later := RsiFromAverages(WilderBlend(gain, g, period), WilderBlend(loss, l, period));
            && (gain == 0.0 ==> later <= RsiFromAverages(g, l))
            && (loss == 0.0 ==> later >= RsiFromAverages(g, l))
  {
    hide WilderBlend, Faded, RsiFromAverages, Part;
    BlendAdds(gain, g, period);
    BlendAdds(loss, l, period);
    var g', l' := WilderBlend(gain, g, period), WilderBlend(loss, l, period);
    if gain == 0.0 {
      LossLowersRsi(g, l, Faded(period), Part(loss, period), g', l');
    }
    if loss == 0.0 {
      GainRaisesRsi(g, l, Faded(period), Part(gain, period), g', l');
    }
  }

  /** The RSI falls only where the price falls, and rises only where it rises. */
  lemma RsiFollowsPrice(closes: seq<real>, period: int, i: nat)
    requires 2 <= period < i < |closes|
    ensures closes[i] <= closes[i - 1] ==> Rsi(closes[..i + 1], period) <= Rsi(closes[..i], period)
    ensures closes[i] >= closes[i - 1] ==> Rsi(closes[..i + 1], period) >= Rsi(closes[..i], period)
  {
    hide WilderBlend, RsiFromAverages, Rsi;
    var g, l := AveragesMove(closes, period, i);
    BlendMovesRsi(g, l, Gain(closes[i - 1], closes[i]), Loss(closes[i - 1], closes[i]), period);
  }

  lemma QuotientNonnegative(x: real, n: real)
    requires x >= 0.0 && n > 0.0
    ensures x / n >= 0.0
  {}

  /** So an RSI buy falls only on a bar that closes above the one before it, and a sell only on one that closes below. */
  lemma RsiTradesWithThePrice(period: int, oversold: real, overbought: real, bars: seq<Bar>, i: nat)
    requires ValidParams(RsiThreshold(period, oversold, overbought)) && i < |bars|
    ensures var signal := Signals(RsiThreshold(period, oversold, overbought), bars)[i];
            && (signal == SignalBuy ==> i > 0 && bars[i].close > bars[i - 1].close)
            && (signal == SignalSell ==> i > 0 && bars[i].close < bars[i - 1].close)
  {
    hide Rsi, Signals;
    RsiSignalIff(period, oversold, overbought, bars, i);
    if i > period {
      RsiFollowsPrice(ClosesOf(bars), period, i);
    }
  }

  // ---- crossovers

  /** The moving-average strategy buys exactly on the bar where the short mean comes out above the long one, and sells
      exactly where it no longer is. */
  lemma AveragesSignalIff(short: int, long: int, bars: seq<Bar>, i: nat)
    requires ValidParams(MaCrossover(short, long)) && i < |bars|
    ensures var signal, closes := Signals(MaCrossover(short, long), bars)[i], ClosesOf(bars);
            && (signal == SignalBuy <==>
                  && i >= long
                  && TrailingMean(closes[..i], short) <= TrailingMean(closes[..i], long)
                  && TrailingMean(closes[..i + 1], short) > TrailingMean(closes[..i + 1], long))
            && (signal == SignalSell <==>
                  && i >= long
                  && TrailingMean(closes[..i], short) > TrailingMean(closes[..i], long)
                  && TrailingMean(closes[..i + 1], short) <= TrailingMean(closes[..i + 1], long))
  {
    hide TrailingMean;
    var st := MaCrossover(short, long);
    if i >= long {
      DecideAt(st, bars, i);
    } else {
      WarmupIsSilent(st, bars, i);
    }
  }

  /** The MACD line less its own average. */
  function Divergence(closes: seq<real>, fast: int, slow: int, signal: int): real
    requires 0 < fast < slow && 0 < signal && slow + signal - 1 <= |closes|
  {
    var line := MacdLine(closes, fast, slow);
    line[|line| - 1] - Ema(line, signal)
  }

  /** The MACD strategy buys exactly on the bar where the line comes out above its average, and sells exactly where it no
      longer is. */
  lemma MacdSignalIff(fast: int, slow: int, signal: int, bars: seq<Bar>, i: nat)
    requires ValidParams(Macd(fast, slow, signal)) && i < |bars|
    ensures var at, closes := Signals(Macd(fast, slow, signal), bars)[i], ClosesOf(bars);
            && (at == SignalBuy <==>
                  && i >= slow + signal - 1
                  && Divergence(closes[..i], fast, slow, signal) <= 0.0
                  && Divergence(closes[..i + 1], fast, slow, signal) > 0.0)
            && (at == SignalSell <==>
                  && i >= slow + signal - 1
                  && Divergence(closes[..i], fast, slow, signal) > 0.0
                  && Divergence(closes[..i + 1], fast, slow, signal) <= 0.0)
  {
    hide MacdLine, Ema;
    var st := Macd(fast, slow, signal);
    if i >= slow + signal - 1 {
      DecideAt(st, bars, i);
    } else {
      WarmupIsSilent(st, bars, i);
    }
  }

  // ---- in terms of prices: flat, and then up

  ghost predicate Flat(values: seq<real>, c: real) {
    forall i :: 0 <= i < |values| ==> values[i] == c
  }

  lemma {:induction false} FlatSum(values: seq<real>, c: real)
    requires Flat(values, c)
    ensures Sum(values) == c * |values| as real
  {
    if values != [] {
      FlatSum(values[..|values| - 1], c);
    }
  }

  lemma FlatMean(values: seq<real>, c: real, window: int)
    requires Flat(values, c) && 0 < window <= |values|
    ensures TrailingMean(values, window) == c
  {
    FlatSum(values[|values| - window..], c);
    QuotientIs(c * window as real, window as real, c);
  }

  lemma SteppedMean(values: seq<real>, c: real, x: real, window: int)
    requires Flat(values, c) && 0 < window <= |values|
    ensures TrailingMean(values + [x], window) == c + Part(x - c, window)
  {
    var newest := (values + [x])[|values| + 1 - window..];
    var flat := newest[..window - 1];
    assert newest == flat + [x];
    FlatSum(flat, c);
    assert Sum(newest) == Sum(flat) + x;
    MeanOfStep(c, x, window);
  }

  lemma MeanOfStep(c: real, x: real, window: int)
    requires window > 0
    ensures Average(c * (window - 1) as real + x, window) == c + Part(x - c, window)
  {
    var n, part := window as real, Part(x - c, window);
    assert part * n == x - c;
    assert (c + part) * n == c * n + part * n;
    assert c * (window - 1) as real == c * n - c;
    QuotientIs(c * (window - 1) as real + x, n, c + part);
  }

  lemma PartShrinks(d: real, short: int, long: int)
    requires d > 0.0 && 0 < short < long
    ensures Part(d, short) > Part(d, long)
  {
    var p, q := Part(d, short), Part(d, long);
    assert p * short as real == d && q * long as real == d;
    FactorPositive(q, long as real);
    ProductPositive(q, (long - short) as real);
    assert q * long as real == q * short as real + q * (long - short) as real;
    assert (p - q) * short as real == p * short as real - q * short as real;
    FactorPositive(p - q, short as real);
  }

  lemma FactorPositive(x: real, k: real)
    requires k > 0.0 && x * k > 0.0
    ensures x > 0.0
  {}

  lemma ProductPositive(x: real, y: real)
    requires x > 0.0 && y > 0.0
    ensures x * y > 0.0
  {}

  lemma {:induction false} FlatEma(values: seq<real>, c: real, period: int)
    requires Flat(values, c) && 0 < period <= |values|
    ensures Ema(values, period) == c
  {
    if |values| == period {
      FlatSum(values, c);
      QuotientIs(c * period as real, period as real, c);
    } else {
      FlatEma(values[..|values| - 1], c, period);
      BlendOfSame(c, Alpha(period));
    }
  }

  lemma BlendOfSame(c: real, alpha: real)
    ensures Blend(c, c, alpha) == c
  {
    assert c * alpha + c * (1.0 - alpha) == c;
  }

  function ShareOf(x: real, alpha: real): real { alpha * x }

  lemma SteppedEma(values: seq<real>, c: real, x: real, period: int)
    requires Flat(values, c) && 0 < period <= |values|
    ensures Ema(values + [x], period) == c + ShareOf(x - c, Alpha(period))
  {
    hide Alpha, Blend, ShareOf;
    assert (values + [x])[..|values|] == values;
    FlatEma(values, c, period);
    BlendMoves(x, c, Alpha(period));
  }

  lemma BlendMoves(x: real, c: real, alpha: real)
    ensures Blend(x, c, alpha) == c + ShareOf(x - c, alpha)
  {
    assert x * alpha + c * (1.0 - alpha) == c + alpha * (x - c);
  }

  lemma AlphaShrinks(fast: int, slow: int)
    requires 0 < fast < slow
    ensures Alpha(fast) > Alpha(slow) > 0.0 && (fast >= 2 ==> Alpha(fast) < 1.0)
  {
    PartShrinks(2.0, fast + 1, slow + 1);
    var a, b := Alpha(fast), Alpha(slow);
    assert a * (fast + 1) as real == 2.0 && b * (slow + 1) as real == 2.0;
    FactorPositive(b, (slow + 1) as real);
    if fast >= 2 {
      assert (1.0 - a) * (fast + 1) as real == (fast + 1) as real - 2.0;
      FactorPositive(1.0 - a, (fast + 1) as real);
    }
  }

  lemma {:induction false} FlatLine(closes: seq<real>, c: real, fast: int, slow: int)
    requires Flat(closes, c) && 0 < fast < slow <= |closes|
    ensures Flat(MacdLine(closes, fast, slow), 0.0)
  {
    FlatEma(closes, c, fast);
    FlatEma(closes, c, slow);
    if |closes| > slow {
      FlatLine(closes[..|closes| - 1], c, fast, slow);
    }
  }

  lemma SteppedLine(closes: seq<real>, c: real, x: real, fast: int, slow: int)
    requires Flat(closes, c) && 0 < fast < slow <= |closes|
    ensures MacdLine(closes + [x], fast, slow)
            == MacdLine(closes, fast, slow) + [ShareOf(x - c, Alpha(fast)) - ShareOf(x - c, Alpha(slow))]
  {
    hide Ema, ShareOf, Alpha;
    assert (closes + [x])[..|closes|] == closes;
    SteppedEma(closes, c, x, fast);
    SteppedEma(closes, c, x, slow);
  }

  lemma SharesDiffer(d: real, fast: int, slow: int, signal: int)
    requires 2 <= fast < slow && 2 <= signal && d > 0.0
    ensures var rise := ShareOf(d, Alpha(fast)) - ShareOf(d, Alpha(slow));
            rise - ShareOf(rise, Alpha(signal)) > 0.0
  {
    AlphaShrinks(fast, slow);
    AlphaShrinks(signal, signal + 1);
    hide Alpha;
    var rise := (Alpha(fast) - Alpha(slow)) * d;
    ProductPositive(Alpha(fast) - Alpha(slow), d);
    assert rise == ShareOf(d, Alpha(fast)) - ShareOf(d, Alpha(slow));
    ProductPositive(1.0 - Alpha(signal), rise);
    assert (1.0 - Alpha(signal)) * rise == rise - ShareOf(rise, Alpha(signal));
  }

  lemma DivergenceOfStep(closes: seq<real>, c: real, x: real, fast: int, slow: int, signal: int)
    requires Flat(closes, c) && 2 <= fast < slow && 2 <= signal && slow + signal - 1 <= |closes| && x > c
    ensures Divergence(closes, fast, slow, signal) == 0.0
    ensures Divergence(closes + [x], fast, slow, signal) > 0.0
  {
    hide Ema, MacdLine, Alpha, ShareOf;
    var line := MacdLine(closes, fast, slow);
    var rise := ShareOf(x - c, Alpha(fast)) - ShareOf(x - c, Alpha(slow));
    FlatLine(closes, c, fast, slow);
    FlatEma(line, 0.0, signal);
    SteppedLine(closes, c, x, fast, slow);
    SteppedEma(line, 0.0, rise, signal);
    assert rise - 0.0 == rise;
    SharesDiffer(x - c, fast, slow, signal);
  }

  /** Either crossover strategy buys on the first rise after a flat stretch of closes, as soon as it can say anything: on
      the bar after its warm-up if need be. */
  lemma FirstRiseBuys(st: Strategy, bars: seq<Bar>, c: real, i: nat)
    requires ValidParams(st) && !st.RsiThreshold? && WarmupBars(st) <= i < |bars|
    requires bars[i].close > c && forall k :: 0 <= k < i ==> bars[k].close == c
    ensures Signals(st, bars)[i] == SignalBuy
  {
    hide Signals, TrailingMean, Divergence;
    var closes := ClosesOf(bars);
    var flat, x := closes[..i], closes[i];
    assert closes[..i + 1] == flat + [x];
    match st
    case MaCrossover(short, long) =>
      AveragesSignalIff(short, long, bars, i);
      FlatMean(flat, c, short);
      FlatMean(flat, c, long);
      SteppedMean(flat, c, x, short);
      SteppedMean(flat, c, x, long);
      PartShrinks(x - c, short, long);
    case Macd(fast, slow, signal) =>
      MacdSignalIff(fast, slow, signal, bars, i);
      DivergenceOfStep(flat, c, x, fast, slow, signal);
  }

  // ---- the weights behind the averages

  /** A straight line. */
  function LineAt(a: real, b: real, t: real): real {
    a + b * t
  }

  ghost predicate Linear(values: seq<real>, a: real, b: real) {
    forall i :: 0 <= i < |values| ==> values[i] == LineAt(a, b, i as real)
  }

  /** How far an exponential average trails a straight line: as far as the plain mean of as many values does. */
  function Lag(period: int): real {
    (period - 1) as real / 2.0
  }

  lemma {:induction false} LinearSum(values: seq<real>, a: real, b: real)
    requires Linear(values, a, b)
    ensures Sum(values) == |values| as real * LineAt(a, b, Lag(|values|))
  {
    if values != [] {
      LinearSum(values[..|values| - 1], a, b);
      LineSumStep(a, b, |values|);
    }
  }

  lemma LineSumStep(a: real, b: real, n: int)
    ensures (n - 1) as real * LineAt(a, b, Lag(n - 1)) + LineAt(a, b, (n - 1) as real) == n as real * LineAt(a, b, Lag(n))
  {
    var m := n as real;
    assert (m - 1.0) * (a + b * ((m - 2.0) / 2.0)) + (a + b * (m - 1.0)) == m * (a + b * ((m - 1.0) / 2.0));
  }

  /** On a straight line the exponential average runs parallel to it, exactly half a period behind: what makes its share
      of a new value two parts in period plus one, and nothing else. */
  lemma {:induction false} EmaTrailsHalfAPeriod(values: seq<real>, a: real, b: real, period: int)
    requires Linear(values, a, b) && 0 < period <= |values|
    ensures Ema(values, period) == LineAt(a, b, (|values| - 1) as real - Lag(period))
  {
    var n := |values|;
    if n == period {
      LinearSum(values, a, b);
      SeedTrails(a, b, period);
    } else {
      hide Alpha, Blend, LineAt, Lag;
      EmaTrailsHalfAPeriod(values[..n - 1], a, b, period);
      TrailStep(a, b, (n - 2) as real - Lag(period), period);
      assert (n - 2) as real - Lag(period) + 1.0 + Lag(period) == (n - 1) as real;
      assert (n - 2) as real - Lag(period) + 1.0 == (n - 1) as real - Lag(period);
    }
  }

  lemma SeedTrails(a: real, b: real, period: int)
    requires period > 0
    ensures Average(period as real * LineAt(a, b, Lag(period)), period) == LineAt(a, b, (period - 1) as real - Lag(period))
  {
    var mean := LineAt(a, b, Lag(period));
    assert mean * period as real == period as real * mean;
    QuotientIs(period as real * mean, period as real, mean);
    assert (period - 1) as real - Lag(period) == Lag(period);
  }

  lemma TrailStep(a: real, b: real, at: real, period: int)
    requires period > 0
    ensures Blend(LineAt(a, b, at + 1.0 + Lag(period)), LineAt(a, b, at), Alpha(period)) == LineAt(a, b, at + 1.0)
  {
    var alpha, ahead := Alpha(period), 1.0 + Lag(period);
    assert alpha * (period + 1) as real == 2.0;
    assert alpha * ahead == 1.0;
    var prev := a + b * at;
    assert a + b * (at + 1.0 + Lag(period)) == prev + b * ahead;
    assert (prev + b * ahead) * alpha + prev * (1.0 - alpha) == prev + b * (ahead * alpha);
  }

  /** Wilder's share of a new value is one part in period: histories that differ in their newest value by d have
      averages that differ by d over period. */
  lemma SmoothedWeighsNewest(values: seq<real>, x: real, y: real, period: int)
    requires 0 < period <= |values| + 1
    ensures Smoothed(values + [x], period) - Smoothed(values + [y], period) == Part(x - y, period)
  {
    var n := period as real;
    assert (values + [x])[..|values|] == values && (values + [y])[..|values|] == values;
    if |values| + 1 == period {
      assert Smoothed(values + [x], period) == (Sum(values) + x) / n;
      assert Smoothed(values + [y], period) == (Sum(values) + y) / n;
      QuotientSplits(Sum(values) + x, Sum(values) + y, n);
    } else {
      SmoothedAppend(values, x, period);
      SmoothedAppend(values, y, period);
      hide Smoothed;
      BlendsDiffer(Smoothed(values, period), x, y, period);
    }
  }

  lemma BlendsDiffer(average: real, x: real, y: real, period: int)
    requires period > 0
    ensures WilderBlend(x, average, period) - WilderBlend(y, average, period) == Part(x - y, period)
  {
    var kept := average * (period - 1) as real;
    QuotientSplits(kept + x, kept + y, period as real);
    assert (kept + x) - (kept + y) == x - y;
  }

  lemma QuotientSplits(x: real, y: real, n: real)
    requires n > 0.0
    ensures x / n - y / n == (x - y) / n
  {}

  /** And of a flat history the average is the value itself. */
  lemma {:induction false} SmoothedOfFlat(values: seq<real>, c: real, period: int)
    requires Flat(values, c) && 0 < period <= |values|
    ensures Smoothed(values, period) == c
  {
    if |values| == period {
      FlatSum(values, c);
      QuotientIs(c * period as real, period as real, c);
    } else {
      hide WilderBlend;
      SmoothedOfFlat(values[..|values| - 1], c, period);
      WilderBlendOfSame(c, period);
    }
  }

  lemma WilderBlendOfSame(c: real, period: int)
    requires period > 0
    ensures WilderBlend(c, c, period) == c
  {
    assert c * (period - 1) as real + c == c * period as real;
    QuotientIs(c * period as real, period as real, c);
  }
}
