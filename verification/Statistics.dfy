/** What the reports say about how much a curve moves about. The square root arrives as a function. */
module Statistics {
  import opened Numeric
  import opened Sums
  import opened PortfolioMath

  type Root = real -> real

  const TRADING_DAYS_PER_YEAR: real := 252.0

  function MeanOf(xs: seq<real>): real
    requires xs != []
  {
    Sum(xs) / |xs| as real
  }

  function SquareOf(x: real): real {
    Times(x, x)
  }

  function SquaresAbout(xs: seq<real>, mean: real): real {
    if xs == [] then 0.0 else SquaresAbout(xs[..|xs| - 1], mean) + SquareOf(xs[|xs| - 1] - mean)
  }

  function Variance(xs: seq<real>, mean: real): real
    requires xs != []
  {
    SquaresAbout(xs, mean) / |xs| as real
  }

  function Stdev(root: Root, xs: seq<real>): real
    requires xs != []
  {
    root(Variance(xs, MeanOf(xs)))
  }

  function SharpeOf(root: Root, equity: seq<real>): real {
    var daily := Returns(equity);
    if daily == [] || Stdev(root, daily) == 0.0 then 0.0
    else MeanOf(daily) / Stdev(root, daily) * root(TRADING_DAYS_PER_YEAR)
  }

  function AnnualPct(root: Root, daily: real): real {
    Times(daily, root(TRADING_DAYS_PER_YEAR)) * 100.0
  }

  function VolatilityOf(root: Root, equity: seq<real>): real {
    var daily := Returns(equity);
    if daily == [] then 0.0 else AnnualPct(root, Stdev(root, daily))
  }

  // ---- the loops

  method Mean(xs: seq<real>) returns (mean: real)
    requires xs != []
    ensures mean == MeanOf(xs)
  {
    var sum := 0.0;
    for i := 0 to |xs|
      invariant sum == Sum(xs[..i])
    {
      assert xs[..i + 1][..i] == xs[..i];
      sum := sum + xs[i];
    }
    assert xs[..|xs|] == xs;
    return sum / |xs| as real;
  }

  method StdevPopulation(root: Root, xs: seq<real>, mean: real) returns (stdev: real)
    requires xs != []
    ensures stdev == root(Variance(xs, mean))
  {
    hide SquareOf;
    var sumSq := 0.0;
    for i := 0 to |xs|
      invariant sumSq == SquaresAbout(xs[..i], mean)
    {
      assert xs[..i + 1][..i] == xs[..i];
      var d := xs[i] - mean;
      sumSq := sumSq + SquareOf(d);
    }
    assert xs[..|xs|] == xs;
    return root(sumSq / |xs| as real);
  }

  method Sharpe(root: Root, equity: seq<real>) returns (sharpe: real)
    ensures sharpe == SharpeOf(root, equity)
  {
    hide Returns, Sum, SquaresAbout;
    var daily := DailyReturns(equity);
    if |daily| == 0 {
      return 0.0;
    }
    var mean := Mean(daily);
    var stdev := StdevPopulation(root, daily, mean);
    if stdev == 0.0 {
      return 0.0;
    }
    return mean / stdev * root(TRADING_DAYS_PER_YEAR);
  }

  method Volatility(root: Root, equity: seq<real>) returns (volatility: real)
    ensures volatility == VolatilityOf(root, equity)
  {
    hide Returns, Sum, SquaresAbout;
    volatility := 0.0;
    var daily := DailyReturns(equity);
    if |daily| > 0 {
      var mean := Mean(daily);
      var stdev := StdevPopulation(root, daily, mean);
      volatility := AnnualPct(root, stdev);
    }
  }

  // ---- what they mean

  lemma ProductPositive(x: real, y: real)
    requires x != 0.0 && y != 0.0 && ((x > 0.0) == (y > 0.0))
    ensures Times(x, y) > 0.0
  {}

  lemma ProductZero(x: real, y: real)
    requires x == 0.0
    ensures Times(x, y) == 0.0
  {}

  lemma SquareIsPositive(x: real)
    ensures SquareOf(x) >= 0.0 && (SquareOf(x) == 0.0 <==> x == 0.0)
  {
    if x != 0.0 {
      ProductPositive(x, x);
    } else {
      ProductZero(x, x);
    }
  }

  lemma {:induction false} NoSquaresIff(xs: seq<real>, mean: real)
    ensures SquaresAbout(xs, mean) >= 0.0
    ensures SquaresAbout(xs, mean) == 0.0 <==> forall i :: 0 <= i < |xs| ==> xs[i] == mean
  {
    if xs != [] {
      hide SquareOf;
      NoSquaresIff(xs[..|xs| - 1], mean);
      SquareIsPositive(xs[|xs| - 1] - mean);
      assert xs == xs[..|xs| - 1] + [xs[|xs| - 1]];
    }
  }

  /** Of a square root only this is used. */
  ghost predicate ZeroOnlyAtZero(root: Root) {
    forall x: real :: root(x) == 0.0 <==> x == 0.0
  }

  lemma NoQuotientIff(x: real, n: nat)
    requires n > 0
    ensures x / n as real == 0.0 <==> x == 0.0
  {
    var q := x / n as real;
    assert q * n as real == x;
  }

  ghost predicate Steady(xs: seq<real>) {
    forall i, j :: 0 <= i < j < |xs| ==> xs[i] == xs[j]
  }

  lemma StdevZeroIff(root: Root, daily: seq<real>)
    requires ZeroOnlyAtZero(root) && daily != []
    ensures Stdev(root, daily) == 0.0 <==> Steady(daily)
  {
    hide SquaresAbout, Sum, MeanOf;
    var mean := MeanOf(daily);
    NoSquaresIff(daily, mean);
    NoQuotientIff(SquaresAbout(daily, mean), |daily|);
    if Steady(daily) {
      SteadyMean(daily);
    }
  }

  lemma AnnualZeroIff(root: Root, x: real)
    requires ZeroOnlyAtZero(root)
    ensures AnnualPct(root, x) == 0.0 <==> x == 0.0
  {
    var y := root(TRADING_DAYS_PER_YEAR);
    if x == 0.0 {
      ProductZero(x, y);
    } else {
      NonzeroProduct(x, y);
    }
  }

  /** A curve's volatility is zero exactly when it has no two different daily returns, and then its Sharpe ratio is zero
      too: there is no dividing by a deviation of nothing. */
  lemma SteadyIff(root: Root, equity: seq<real>)
    requires ZeroOnlyAtZero(root)
    ensures VolatilityOf(root, equity) == 0.0 <==> Steady(Returns(equity))
    ensures VolatilityOf(root, equity) == 0.0 ==> SharpeOf(root, equity) == 0.0
  {
    hide Returns, Stdev, AnnualPct, MeanOf;
    var daily := Returns(equity);
    if daily != [] {
      StdevZeroIff(root, daily);
      AnnualZeroIff(root, Stdev(root, daily));
      hide Steady;
    }
  }

  lemma NonzeroProduct(x: real, y: real)
    requires x != 0.0 && y != 0.0
    ensures Times(x, y) != 0.0
  {
    if (x > 0.0) == (y > 0.0) {
      ProductPositive(x, y);
    } else {
      ProductPositive(-x, y);
    }
  }

  lemma {:induction false} SteadySum(xs: seq<real>, x: real)
    requires forall i :: 0 <= i < |xs| ==> xs[i] == x
    ensures Sum(xs) == x * |xs| as real
  {
    if xs != [] {
      SteadySum(xs[..|xs| - 1], x);
    }
  }

  lemma SteadyMean(xs: seq<real>)
    requires xs != [] && Steady(xs)
    ensures forall i :: 0 <= i < |xs| ==> xs[i] == MeanOf(xs)
  {
    SteadySum(xs, xs[0]);
    var n := |xs| as real;
    assert xs[0] * n / n == xs[0];
  }

  /** Neither figure depends on how many shares a curve is the value of. */
  lemma StatisticsIgnoreScale(root: Root, equity: seq<real>, k: real)
    requires k > 0.0
    ensures SharpeOf(root, Scaled(equity, k)) == SharpeOf(root, equity)
    ensures VolatilityOf(root, Scaled(equity, k)) == VolatilityOf(root, equity)
  {
    hide Returns, Stdev;
    ReturnsIgnoreScale(equity, k);
  }

  // ---- how large they are

  ghost predicate SquareRoot(root: Root) {
    forall x: real :: x >= 0.0 ==> root(x) >= 0.0 && Times(root(x), root(x)) == x
  }

  function SumOfSquares(xs: seq<real>): real {
    if xs == [] then 0.0 else SumOfSquares(xs[..|xs| - 1]) + SquareOf(xs[|xs| - 1])
  }

  /** The squared distances from m of n values with these sums. */
  function Spread(squares: real, sum: real, n: int, m: real): real {
    squares - 2.0 * m * sum + n as real * Times(m, m)
  }

  lemma {:induction false} SquaresAboutAny(xs: seq<real>, m: real)
    ensures SquaresAbout(xs, m) == Spread(SumOfSquares(xs), Sum(xs), |xs|, m)
  {
    if xs != [] {
      hide SquareOf, Spread;
      var earlier, x := xs[..|xs| - 1], xs[|xs| - 1];
      SquaresAboutAny(earlier, m);
      SpreadStep(SumOfSquares(earlier), Sum(earlier), |earlier|, x, m);
    } else {
      assert 2.0 * m * 0.0 == 0.0;
    }
  }

  lemma SpreadStep(squares: real, sum: real, n: int, x: real, m: real)
    ensures Spread(squares, sum, n, m) + SquareOf(x - m) == Spread(squares + SquareOf(x), sum + x, n + 1, m)
  {
    assert SquareOf(x - m) == x * x - 2.0 * m * x + m * m;
    assert 2.0 * m * (sum + x) == 2.0 * m * sum + 2.0 * m * x;
    assert (n + 1) as real * (m * m) == n as real * (m * m) + m * m;
  }

  /** The deviation of daily returns, times how many there are: the sum of their squares less the square of their mean
      for each. */
  lemma DeviationIs(xs: seq<real>)
    requires xs != []
    ensures Times(MeanOf(xs), |xs| as real) == Sum(xs)
    ensures SquaresAbout(xs, MeanOf(xs)) == SumOfSquares(xs) - |xs| as real * Times(MeanOf(xs), MeanOf(xs))
  {
    hide SquaresAbout, SumOfSquares;
    MeanTimes(Sum(xs), |xs|);
    SquaresAboutAny(xs, MeanOf(xs));
    hide Sum, MeanOf;
    SpreadAtMean(SumOfSquares(xs), Sum(xs), |xs|, MeanOf(xs));
  }

  lemma MeanTimes(sum: real, n: int)
    requires n > 0
    ensures Times(sum / n as real, n as real) == sum
  {
    var q := sum / n as real;
    assert q * n as real == sum;
  }

  lemma SpreadAtMean(squares: real, sum: real, n: int, m: real)
    requires Times(m, n as real) == sum
    ensures Spread(squares, sum, n, m) == squares - n as real * Times(m, m)
  {
    assert 2.0 * m * (m * n as real) == 2.0 * (n as real * (m * m));
  }

  lemma ProductSquared(x: real, y: real)
    ensures Times(Times(x, y), Times(x, y)) == Times(Times(x, x), Times(y, y))
  {
    assert (x * y) * (x * y) == (x * x) * (y * y);
  }

  /** With a true square root, volatility squared, times the number of daily returns, is their squared deviations
      summed, times 252 days and in percent. */
  lemma VolatilitySquared(root: Root, equity: seq<real>)
    requires SquareRoot(root) && Returns(equity) != []
    ensures var daily, v := Returns(equity), VolatilityOf(root, equity);
            && v >= 0.0
            && Times(v, v) * |daily| as real == 2520000.0 * SquaresAbout(daily, MeanOf(daily))
  {
    hide Returns, SquaresAbout, Sum, MeanOf;
    var daily := Returns(equity);
    var squares, n, r := SquaresAbout(daily, MeanOf(daily)), |daily| as real, root(TRADING_DAYS_PER_YEAR);
    NoSquaresIff(daily, MeanOf(daily));
    VarianceOf(squares, n);
    var sd := Stdev(root, daily);
    assert Times(sd, sd) == squares / n && Times(r, r) == 252.0 && sd >= 0.0 && r >= 0.0;
    hide SquareRoot;
    ProductSquared(sd, r);
    ProductNonnegative(sd, r);
    PercentSquared(Times(sd, r), squares / n * 252.0);
    assert squares / n * n == squares;
    Annual(squares / n, n, squares);
  }

  lemma VarianceOf(squares: real, n: real)
    requires squares >= 0.0 && n > 0.0
    ensures squares / n >= 0.0
  {}

  lemma PercentSquared(x: real, y: real)
    requires Times(x, x) == y
    ensures Times(x * 100.0, x * 100.0) == 10000.0 * y
  {
    assert (x * 100.0) * (x * 100.0) == 10000.0 * (x * x);
  }

  lemma Annual(q: real, n: real, squares: real)
    requires q * n == squares
    ensures 10000.0 * (q * 252.0) * n == 2520000.0 * squares
  {
    assert 10000.0 * (q * 252.0) * n == 2520000.0 * (q * n);
  }

  /** And the Sharpe ratio times the volatility is the mean daily return times 252 days, in percent: the ratio has the
      sign of the mean. */
  lemma SharpeTimesVolatility(root: Root, equity: seq<real>)
    requires SquareRoot(root) && VolatilityOf(root, equity) != 0.0
    ensures Returns(equity) != []
    ensures Times(SharpeOf(root, equity), VolatilityOf(root, equity)) == 25200.0 * MeanOf(Returns(equity))
  {
    hide Returns, MeanOf, Stdev;
    var daily := Returns(equity);
    var mean, sd, r := MeanOf(daily), Stdev(root, daily), root(TRADING_DAYS_PER_YEAR);
    assert Times(r, r) == 252.0;
    hide SquareRoot;
    if sd == 0.0 {
      ProductZero(sd, r);
    }
    RatioTimes(mean, sd, r);
  }

  lemma RatioTimes(mean: real, sd: real, r: real)
    requires sd != 0.0 && Times(r, r) == 252.0
    ensures Times(mean / sd * r, Times(sd, r) * 100.0) == 25200.0 * mean
  {
    var q := mean / sd;
    assert q * sd == mean;
    assert (q * r) * ((sd * r) * 100.0) == ((q * sd) * (r * r)) * 100.0;
  }
}
