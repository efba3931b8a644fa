/** The figures read off an equity curve: drawdown in one pass, daily returns, and what scaling does to them. */
module PortfolioMath {
  import opened Numeric

  function Times(k: real, x: real): real {
    k * x
  }

  lemma QuotientIs(x: real, y: real, q: real)
    requires y != 0.0 && q * y == x
    ensures x / y == q
  {
    var r := x / y;
    assert r * y == x;
    assert (r - q) * y == 0.0;
  }

  // ---- drawdown

  /** How far v stands below peak, as a percentage of it. */
  function Decline(peak: real, v: real): real
    requires peak > 0.0
  {
    (peak - v) / peak * 100.0
  }

  function Peak(equity: seq<real>): real
    requires equity != []
  {
    var last := equity[|equity| - 1];
    if |equity| == 1 then last
    else
      var earlier := Peak(equity[..|equity| - 1]);
      if last > earlier then last else earlier
  }

  /** The running-peak reading of a curve. */
  function MaxDrawdown(equity: seq<real>): real {
    if equity == [] then 0.0
    else
      var earlier := MaxDrawdown(equity[..|equity| - 1]);
      var peak := Peak(equity);
      if peak > 0.0 && Decline(peak, equity[|equity| - 1]) > earlier then Decline(peak, equity[|equity| - 1]) else earlier
  }

  method MaxDrawdownPct(equity: seq<real>) returns (maxDD: real)
    ensures maxDD == MaxDrawdown(equity)
  {
    hide Decline;
    maxDD := 0.0;
    if |equity| == 0 {
      return;
    }
    var peak := equity[0];
    for i := 0 to |equity|
      invariant peak == if i == 0 then equity[0] else Peak(equity[..i])
      invariant maxDD == MaxDrawdown(equity[..i])
    {
      var v := equity[i];
      assert equity[..i + 1][..i] == equity[..i];
      if v > peak {
        peak := v;
      }
      if peak <= 0.0 {
        continue;
      }
      var dd := Decline(peak, v);
      if dd > maxDD {
        maxDD := dd;
      }
    }
    assert equity[..|equity|] == equity;
  }

  ghost predicate NeverNegative(equity: seq<real>) {
    forall i :: 0 <= i < |equity| ==> equity[i] >= 0.0
  }

  ghost predicate Positive(equity: seq<real>) {
    forall i :: 0 <= i < |equity| ==> equity[i] > 0.0
  }

  lemma {:induction false} PeakIsHighest(equity: seq<real>)
    requires equity != []
    ensures exists i :: 0 <= i < |equity| && equity[i] == Peak(equity)
    ensures forall i :: 0 <= i < |equity| ==> equity[i] <= Peak(equity)
  {
    if |equity| > 1 {
      var earlier := equity[..|equity| - 1];
      PeakIsHighest(earlier);
      var i :| 0 <= i < |earlier| && earlier[i] == Peak(earlier);
      assert equity[i] == Peak(earlier);
      assert equity[|equity| - 1] <= Peak(equity);
    } else {
      assert equity[0] == Peak(equity);
    }
  }

  /** From a higher peak the same trough is the deeper decline. */
  lemma DeclineGrowsWithPeak(low: real, high: real, v: real)
    requires 0.0 < low <= high && v >= 0.0
    ensures Decline(low, v) <= Decline(high, v)
  {
    assert Decline(low, v) == (1.0 - v / low) * 100.0 by { QuotientSplits(low, v); }
    assert Decline(high, v) == (1.0 - v / high) * 100.0 by { QuotientSplits(high, v); }
    QuotientShrinks(low, high, v);
  }

  lemma QuotientSplits(peak: real, v: real)
    requires peak > 0.0
    ensures (peak - v) / peak == 1.0 - v / peak
  {
    var q := v / peak;
    assert q * peak == v;
    assert (1.0 - q) * peak == peak - q * peak;
    QuotientIs(peak - v, peak, 1.0 - q);
  }

  lemma QuotientShrinks(low: real, high: real, v: real)
    requires 0.0 < low <= high && v >= 0.0
    ensures v / high <= v / low
  {
    var q := v / high;
    assert q * high == v && q >= 0.0;
    assert q * low <= q * high;
    assert v / low * low == v;
    if v / low < q {
      assert (q - v / low) * low > 0.0;
    }
  }

  lemma DeclineRange(peak: real, v: real)
    requires 0.0 < peak && 0.0 <= v <= peak
    ensures 0.0 <= Decline(peak, v) <= 100.0 && (v > 0.0 ==> Decline(peak, v) < 100.0)
  {
    QuotientSplits(peak, v);
    var q := v / peak;
    assert q * peak == v && q >= 0.0;
    assert v > 0.0 ==> q > 0.0;
    FactorNonnegative(1.0 - q, peak);
  }

  /** Somewhere in the curve is a point at or before another that it fell by exactly dd to. */
  ghost predicate Attained(equity: seq<real>, dd: real) {
    exists i, j :: 0 <= i <= j < |equity| && equity[i] > 0.0 && Decline(equity[i], equity[j]) == dd
  }

  ghost predicate NoneDeeper(equity: seq<real>, dd: real) {
    forall i, j :: 0 <= i <= j < |equity| && equity[i] > 0.0 ==> Decline(equity[i], equity[j]) <= dd
  }

  lemma {:induction false} DrawdownRange(equity: seq<real>)
    requires NeverNegative(equity)
    ensures 0.0 <= MaxDrawdown(equity) <= 100.0 && (Positive(equity) ==> MaxDrawdown(equity) < 100.0)
  {
    if equity != [] {
      hide Decline, Peak;
      DrawdownRange(equity[..|equity| - 1]);
      PeakIsHighest(equity);
      if Peak(equity) > 0.0 {
        DeclineRange(Peak(equity), equity[|equity| - 1]);
      }
    }
  }

  lemma {:induction false} DrawdownBounds(equity: seq<real>)
    requires NeverNegative(equity)
    ensures NoneDeeper(equity, MaxDrawdown(equity))
  {
    if equity != [] {
      hide Decline, Peak;
      var last := |equity| - 1;
      var earlier := equity[..last];
      DrawdownBounds(earlier);
      PeakIsHighest(equity);
      forall i, j | 0 <= i <= j < |equity| && equity[i] > 0.0
        ensures Decline(equity[i], equity[j]) <= MaxDrawdown(equity)
      {
        if j == last {
          DeclineGrowsWithPeak(equity[i], Peak(equity), equity[last]);
        } else {
          assert Decline(earlier[i], earlier[j]) <= MaxDrawdown(earlier);
        }
      }
    }
  }

  lemma {:induction false} DrawdownAttained(equity: seq<real>)
    ensures MaxDrawdown(equity) == 0.0 || Attained(equity, MaxDrawdown(equity))
  {
    if equity != [] {
      hide Decline, Peak;
      var last := |equity| - 1;
      var earlier := equity[..last];
      DrawdownAttained(earlier);
      PeakIsHighest(equity);
      if MaxDrawdown(equity) == MaxDrawdown(earlier) {
        if Attained(earlier, MaxDrawdown(earlier)) {
          var i, j :| 0 <= i <= j < |earlier| && earlier[i] > 0.0 && Decline(earlier[i], earlier[j]) == MaxDrawdown(earlier);
          assert Decline(equity[i], equity[j]) == MaxDrawdown(equity);
        }
      } else {
        var i :| 0 <= i < |equity| && equity[i] == Peak(equity);
        assert Decline(equity[i], equity[last]) == MaxDrawdown(equity);
      }
    }
  }

  /** One pass is enough. On a curve that never goes below zero the running-peak loop finds the deepest decline between
      any two points, earlier to later, from nothing to everything, and everything only where the curve touches zero. A
      curve never worth anything has no decline, and the loop says none. */
  lemma OnePassFindsTheWorstPair(equity: seq<real>)
    requires NeverNegative(equity)
    ensures NoneDeeper(equity, MaxDrawdown(equity))
    ensures if forall i :: 0 <= i < |equity| ==> equity[i] == 0.0 then MaxDrawdown(equity) == 0.0
            else Attained(equity, MaxDrawdown(equity))
    ensures 0.0 <= MaxDrawdown(equity) <= 100.0 && (Positive(equity) ==> MaxDrawdown(equity) < 100.0)
  {
    DrawdownRange(equity);
    DrawdownBounds(equity);
    DrawdownAttained(equity);
    if i :| 0 <= i < |equity| && equity[i] > 0.0 {
      assert Decline(equity[i], equity[i]) == 0.0;
    }
  }

  /** Below zero the highest peak is no longer the one to fall furthest from, in percent: the loop says 150 here
      and the pair of first and last says 200. */
  lemma NegativeCurvesDiffer()
    ensures MaxDrawdown([1.0, 2.0, -1.0]) == 150.0 && Decline(1.0, -1.0) == 200.0
  {
    assert [1.0, 2.0, -1.0][..2] == [1.0, 2.0] && [1.0, 2.0][..1] == [1.0] && [1.0][..0] == [];
    assert Peak([1.0]) == 1.0 && Peak([1.0, 2.0]) == 2.0 && Peak([1.0, 2.0, -1.0]) == 2.0;
    assert MaxDrawdown([1.0]) == 0.0 && MaxDrawdown([1.0, 2.0]) == 0.0;
  }

  // ---- returns

  function DailyReturn(from: real, to: real): real
    requires from != 0.0
  {
    (to - from) / from
  }

  /** A period that opens at nothing has no return, not a return of zero. */
  function Returns(equity: seq<real>): seq<real> {
    if |equity| < 2 then []
    else
      var n := |equity|;
      Returns(equity[..n - 1]) + if equity[n - 2] == 0.0 then [] else [DailyReturn(equity[n - 2], equity[n - 1])]
  }

  method DailyReturns(equity: seq<real>) returns (daily: seq<real>)
    ensures daily == Returns(equity)
  {
    daily := [];
    if |equity| < 2 {
      return;
    }
    for i := 1 to |equity|
      invariant daily == Returns(equity[..i])
    {
      assert equity[..i + 1][..i] == equity[..i];
      if equity[i - 1] == 0.0 {
        continue;
      }
      daily := daily + [DailyReturn(equity[i - 1], equity[i])];
    }
    assert equity[..|equity|] == equity;
  }

  function TotalReturnPct(curve: seq<real>): real {
    if |curve| == 0 || curve[0] == 0.0 then 0.0 else (curve[|curve| - 1] / curve[0] - 1.0) * 100.0
  }

  function Grown(growth: real, r: real): real {
    growth * (1.0 + r)
  }

  function Growth(daily: seq<real>): real {
    if daily == [] then 1.0 else Grown(Growth(daily[..|daily| - 1]), daily[|daily| - 1])
  }

  lemma GrowthStep(daily: seq<real>, r: real)
    ensures Growth(daily + [r]) == Grown(Growth(daily), r)
  {
    assert (daily + [r])[..|daily|] == daily;
  }

  /** Compounding the daily returns of a curve that is never worth nothing carries its first point to its last. */
  lemma {:induction false} ReturnsCompound(equity: seq<real>)
    requires equity != [] && forall i :: 0 <= i < |equity| ==> equity[i] != 0.0
    ensures Times(Growth(Returns(equity)), equity[0]) == equity[|equity| - 1]
  {
    if |equity| > 1 {
      var earlier := equity[..|equity| - 1];
      var from, to := equity[|equity| - 2], equity[|equity| - 1];
      ReturnsCompound(earlier);
      hide DailyReturn, Growth, Grown, Times;
      GrowthStep(Returns(earlier), DailyReturn(from, to));
      CompoundStep(Growth(Returns(earlier)), equity[0], from, to);
    }
  }

  lemma CompoundStep(growth: real, first: real, from: real, to: real)
    requires from != 0.0 && Times(growth, first) == from
    ensures Times(Grown(growth, DailyReturn(from, to)), first) == to
  {
    var r := DailyReturn(from, to);
    assert r * from == to - from;
    assert (growth * (1.0 + r)) * first == (growth * first) * (1.0 + r);
  }

  /** So the total return and the daily ones tell one story. */
  lemma TotalReturnIsCompounded(equity: seq<real>)
    requires equity != [] && forall i :: 0 <= i < |equity| ==> equity[i] != 0.0
    ensures TotalReturnPct(equity) == (Growth(Returns(equity)) - 1.0) * 100.0
  {
    hide Growth, Returns;
    ReturnsCompound(equity);
    QuotientIs(equity[|equity| - 1], equity[0], Growth(Returns(equity)));
  }

  // ---- scale

  function Scaled(equity: seq<real>, k: real): (s: seq<real>)
    ensures |s| == |equity|
    ensures forall i :: 0 <= i < |equity| ==> s[i] == Times(k, equity[i])
  {
    seq(|equity|, i requires 0 <= i < |equity| => Times(k, equity[i]))
  }

  lemma ScaledPrefix(equity: seq<real>, k: real, n: nat)
    requires n <= |equity|
    ensures Scaled(equity, k)[..n] == Scaled(equity[..n], k)
  {
    hide Times;
  }

  lemma OrderScales(x: real, y: real, k: real)
    requires k > 0.0
    ensures Times(k, x) < Times(k, y) <==> x < y
    ensures Times(k, x) > 0.0 <==> x > 0.0
    ensures Times(k, x) == 0.0 <==> x == 0.0
  {
    if x < y {
      assert k * (y - x) > 0.0;
    } else {
      assert k * (x - y) >= 0.0;
    }
    if x > 0.0 {
      assert k * x > 0.0;
    } else if x < 0.0 {
      assert k * -x > 0.0;
    }
  }

  lemma RatioScales(x: real, y: real, k: real)
    requires y != 0.0 && k > 0.0 && Times(k, y) != 0.0
    ensures Times(k, x) / Times(k, y) == x / y
  {
    var q := x / y;
    assert q * y == x;
    assert q * (k * y) == k * (q * y);
    QuotientIs(k * x, k * y, q);
  }

  lemma DifferenceRatioScales(x: real, y: real, z: real, k: real)
    requires z != 0.0 && k > 0.0 && Times(k, z) != 0.0
    ensures (Times(k, x) - Times(k, y)) / Times(k, z) == (x - y) / z
  {
    RatioScales(x - y, z, k);
    assert k * x - k * y == k * (x - y);
  }

  lemma {:induction false} PeakScales(equity: seq<real>, k: real)
    requires equity != [] && k > 0.0
    ensures Peak(Scaled(equity, k)) == Times(k, Peak(equity))
  {
    if |equity| > 1 {
      hide Times, Scaled;
      var earlier := equity[..|equity| - 1];
      PeakScales(earlier, k);
      ScaledPrefix(equity, k, |equity| - 1);
      OrderScales(Peak(earlier), equity[|equity| - 1], k);
    }
  }

  /** Drawdown does not depend on the size of the account. */
  lemma {:induction false} DrawdownIgnoresScale(equity: seq<real>, k: real)
    requires k > 0.0
    ensures MaxDrawdown(Scaled(equity, k)) == MaxDrawdown(equity)
  {
    if equity != [] {
      hide Times, Scaled, Peak;
      var earlier := equity[..|equity| - 1];
      DrawdownIgnoresScale(earlier, k);
      ScaledPrefix(equity, k, |equity| - 1);
      PeakScales(equity, k);
      OrderScales(Peak(equity), 0.0, k);
      if Peak(equity) > 0.0 {
        DifferenceRatioScales(Peak(equity), equity[|equity| - 1], Peak(equity), k);
      }
    }
  }

  lemma {:induction false} ReturnsIgnoreScale(equity: seq<real>, k: real)
    requires k > 0.0
    ensures Returns(Scaled(equity, k)) == Returns(equity)
  {
    if |equity| >= 2 {
      hide Times, Scaled;
      var n := |equity|;
      ReturnsIgnoreScale(equity[..n - 1], k);
      ScaledPrefix(equity, k, n - 1);
      OrderScales(equity[n - 2], 0.0, k);
      if equity[n - 2] != 0.0 {
        DifferenceRatioScales(equity[n - 1], equity[n - 2], equity[n - 2], k);
      }
    }
  }

  /** Why a benchmark curve may be its bare closes: buying any number of shares scales the whole curve, and no
      reported figure, neither the total return nor anything computed from daily returns, can tell. */
  lemma BenchmarkIgnoresShareCount(closes: seq<real>, shares: real)
    requires shares > 0.0
    ensures Returns(Scaled(closes, shares)) == Returns(closes)
    ensures TotalReturnPct(Scaled(closes, shares)) == TotalReturnPct(closes)
    ensures MaxDrawdown(Scaled(closes, shares)) == MaxDrawdown(closes)
  {
    hide Times, Scaled, Returns, MaxDrawdown;
    ReturnsIgnoreScale(closes, shares);
    DrawdownIgnoresScale(closes, shares);
    if closes != [] {
      OrderScales(closes[0], 0.0, shares);
      if closes[0] != 0.0 {
        RatioScales(closes[|closes| - 1], closes[0], shares);
      }
    }
  }
}
