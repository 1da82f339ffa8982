/** The rolling statistics of the band-reversion strategy: the arithmetic mean
    and the population standard deviation of a window of closes. The square
    root is not computed; a standard deviation is any non-negative number whose
    square is the population variance. */
module Statistics {
  import opened Series
  import opened RealArith

  /** Dividing both sides of `n * lo <= s` by a positive count. */
  lemma DivideBounds(s: real, n: real, lo: real, hi: real)
    requires n > 0.0 && n * lo <= s <= n * hi
    ensures lo <= s / n <= hi
  {
  }

  /** Arithmetic mean, sum over length; it lies within the values' range. */
  function Mean(xs: seq<real>): (m: real)
    requires |xs| > 0
    ensures Min(xs) <= m <= Max(xs)
  {
    SumBounds(xs, Min(xs), Max(xs));
    DivideBounds(Sum(xs), |xs| as real, Min(xs), Max(xs));
    Sum(xs) / |xs| as real
  }

  /** The mean of a constant window is the constant. */
  lemma MeanOfConstant(xs: seq<real>, c: real)
    requires |xs| > 0 && Constant(xs, c)
    ensures Mean(xs) == c
  {
  }

  /** Sum of squared deviations of the values from m. */
  function SquaredDeviations(xs: seq<real>, m: real): (s: real)
    ensures s >= 0.0
  {
    if |xs| == 0 then 0.0
    else
      SquaredDeviations(xs[..|xs| - 1], m) + Square(xs[|xs| - 1] - m)
  }

  /** The squared deviations vanish exactly when every value equals m. */
  lemma {:induction false} SquaredDeviationsZeroIff(xs: seq<real>, m: real)
    ensures SquaredDeviations(xs, m) == 0.0 <==> Constant(xs, m)
  {
    if |xs| > 0 {
      var front := xs[..|xs| - 1];
      SquaredDeviationsZeroIff(front, m);
      var d := xs[|xs| - 1] - m;
      if Constant(xs, m) {
        assert Constant(front, m);
      }
      if Constant(front, m) && d == 0.0 {
        forall k | 0 <= k < |xs|
          ensures xs[k] == m
        {
          if k < |xs| - 1 {
            assert xs[k] == front[k];
          }
        }
      }
    }
  }

  /** Population variance: the squared deviations from the mean divided by
      the number of values (not by one less). */
  function Variance(xs: seq<real>): (v: real)
    requires |xs| > 0
    ensures v >= 0.0
  {
    SquaredDeviations(xs, Mean(xs)) / |xs| as real
  }

  /** sd is a standard deviation of xs: the non-negative square root of the
      population variance. */
  predicate IsStdDev(sd: real, xs: seq<real>)
    requires |xs| > 0
  {
    sd >= 0.0 && Square(sd) == Variance(xs)
  }

  /** The variance is zero exactly when all values are equal. */
  lemma VarianceZeroIff(xs: seq<real>)
    requires |xs| > 0
    ensures Variance(xs) == 0.0 <==> AllEqual(xs)
  {
    var m := Mean(xs);
    var n := |xs| as real;
    SquaredDeviationsZeroIff(xs, m);
    var s := SquaredDeviations(xs, m);
    assert Variance(xs) * n == s;
    if AllEqual(xs) {
      assert Constant(xs, xs[0]);
      MeanOfConstant(xs, xs[0]);
    }
  }

  /** A standard deviation is zero exactly when all values are equal. */
  lemma StdDevZeroIff(xs: seq<real>, sd: real)
    requires |xs| > 0 && IsStdDev(sd, xs)
    ensures sd == 0.0 <==> AllEqual(xs)
  {
    VarianceZeroIff(xs);
  }

  /** The divisor is the count, not the count less one: the values 1 and 3
      have variance 1, where the sample variance would be 2. */
  lemma PopulationDivisor()
    ensures Variance([1.0, 3.0]) == 1.0
  {
    var xs := [1.0, 3.0];
    assert xs[..1] == [1.0];
    assert Sum(xs) == 4.0;
    assert Mean(xs) == 2.0;
    assert SquaredDeviations(xs, 2.0) == 2.0;
  }

  /** The summing loop of `Trader.calculateMean`. */
  method CalculateMean(xs: seq<real>) returns (mean: real)
    requires |xs| > 0
    ensures mean == Mean(xs)
    ensures Min(xs) <= mean <= Max(xs)
  {
    var sum := 0.0;
    var i := 0;
    while i < |xs|
      invariant 0 <= i <= |xs|
      invariant sum == Sum(xs[..i])
    {
      assert xs[..i + 1][..i] == xs[..i];
      sum := sum + xs[i];
      i := i + 1;
    }
    assert xs[..i] == xs;
    mean := sum / |xs| as real;
  }

  /** The second loop of `Trader.calculateSD`: accumulate the
      squared deviations from a given mean. */
  method AccumulateSquaredDeviations(xs: seq<real>, mean: real) returns (acc: real)
    ensures acc == SquaredDeviations(xs, mean)
  {
    acc := 0.0;
    var i := 0;
    while i < |xs|
      invariant 0 <= i <= |xs|
      invariant acc == SquaredDeviations(xs[..i], mean)
    {
      assert xs[..i + 1][..i] == xs[..i];
      acc := acc + Square(xs[i] - mean);
      i := i + 1;
    }
    assert xs[..i] == xs;
  }

  /** `Trader.calculateSD` up to the square root: the mean, the
      squared deviations from it, and their average over the count. */
  method CalculateVariance(xs: seq<real>) returns (variance: real)
    requires |xs| > 0
    ensures variance == Variance(xs)
    ensures variance == 0.0 <==> AllEqual(xs)
  {
    var mean := CalculateMean(xs);
    var acc := AccumulateSquaredDeviations(xs, mean);
    variance := acc / |xs| as real;
    VarianceZeroIff(xs);
  }
}
