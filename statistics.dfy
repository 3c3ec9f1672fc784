/** Column statistics over exact reals, as the preprocessor's scaler and its
    diagnostic snapshot use them. */
module Statistics {
  import opened Outcomes

  function Sum(xs: seq<real>): real
  {
    if |xs| == 0 then 0.0 else xs[0] + Sum(xs[1..])
  }

  /** Arithmetic mean of a non-empty column. */
  function Mean(xs: seq<real>): real
    requires |xs| > 0
  {
    Sum(xs) / (|xs| as real)
  }

  /** Sum of the squared deviations of a column from `center`. */
  function SquaredDeviations(xs: seq<real>, center: real): (r: real)
    ensures r >= 0.0
  {
    if |xs| == 0 then 0.0 else Square(xs[0] - center) + SquaredDeviations(xs[1..], center)
  }

  function Square(x: real): (r: real)
    ensures r >= 0.0
  {
    x * x
  }

  /** The population variance (ddof = 0) that StandardScaler takes the square
      root of. */
  function PopulationVariance(xs: seq<real>): (v: real)
    requires |xs| > 0
    ensures v >= 0.0
  {
    SquaredDeviations(xs, Mean(xs)) / (|xs| as real)
  }

  /** The sample variance (ddof = 1) whose square root pandas' `std()` reports;
      undefined (NaN in pandas) for fewer than two values. */
  function SampleVariance(xs: seq<real>): (v: Option<real>)
    requires |xs| > 0
    ensures v.Some? <==> |xs| >= 2
    ensures v.Some? ==> v.value >= 0.0
  {
    if |xs| < 2 then None else Some(SquaredDeviations(xs, Mean(xs)) / ((|xs| - 1) as real))
  }

  /** The smallest value of a non-empty column. */
  function Min(xs: seq<real>): (m: real)
    requires |xs| > 0
    ensures m in xs
    ensures forall i :: 0 <= i < |xs| ==> m <= xs[i]
  {
    if |xs| == 1 then xs[0]
    else
      var rest := Min(xs[1..]);
      if xs[0] <= rest then xs[0] else rest
  }

  /** The largest value of a non-empty column. */
  function Max(xs: seq<real>): (m: real)
    requires |xs| > 0
    ensures m in xs
    ensures forall i :: 0 <= i < |xs| ==> xs[i] <= m
  {
    if |xs| == 1 then xs[0]
    else
      var rest := Max(xs[1..]);
      if xs[0] >= rest then xs[0] else rest
  }

  /** Every value of a column is `(x - center) / scale` for the value `x` at
      the same position of `xs`. */
  ghost predicate IsStandardized(ys: seq<real>, xs: seq<real>, center: real, scale: real)
  {
    scale != 0.0 && |ys| == |xs| && forall i :: 0 <= i < |xs| ==> ys[i] == (xs[i] - center) / scale
  }

  /** Standardizing shifts the sum by n * center and divides it by the scale. */
  lemma {:induction false} SumStandardized(ys: seq<real>, xs: seq<real>, center: real, scale: real)
    requires IsStandardized(ys, xs, center, scale)
    ensures Sum(ys) == (Sum(xs) - (|xs| as real) * center) / scale
  {
    if |xs| > 0 {
      assert IsStandardized(ys[1..], xs[1..], center, scale) by {
        assert forall i :: 0 <= i < |xs[1..]| ==> xs[1..][i] == xs[i + 1] && ys[1..][i] == ys[i + 1];
      }
      SumStandardized(ys[1..], xs[1..], center, scale);
      var n := (|xs| - 1) as real;
      assert Sum(ys) == (xs[0] - center) / scale + (Sum(xs[1..]) - n * center) / scale;
    }
  }

  /** Centring a column on its mean and dividing by any non-zero scale gives a
      column with mean 0. */
  lemma StandardizedMeanZero(ys: seq<real>, xs: seq<real>, scale: real)
    requires |xs| > 0 && IsStandardized(ys, xs, Mean(xs), scale)
    ensures Mean(ys) == 0.0
  {
    SumStandardized(ys, xs, Mean(xs), scale);
    var n, total := |xs| as real, Sum(xs);
    assert Mean(xs) == total / n;
    assert n * (total / n) == total;
    assert Sum(ys) == 0.0 / scale;
  }

  /** Standardizing divides the squared deviations by the squared scale. */
  lemma {:induction false} SquaredDeviationsStandardized(ys: seq<real>, xs: seq<real>, center: real, scale: real)
    requires IsStandardized(ys, xs, center, scale)
    ensures SquaredDeviations(ys, 0.0) * Square(scale) == SquaredDeviations(xs, center)
  {
    if |xs| > 0 {
      assert IsStandardized(ys[1..], xs[1..], center, scale) by {
        assert forall i :: 0 <= i < |xs[1..]| ==> xs[1..][i] == xs[i + 1] && ys[1..][i] == ys[i + 1];
      }
      SquaredDeviationsStandardized(ys[1..], xs[1..], center, scale);
      assert ys[0] - 0.0 == (xs[0] - center) / scale;
      SquareOfQuotient(xs[0] - center, scale);
    }
  }

  lemma SquareOfQuotient(x: real, scale: real)
    requires scale != 0.0
    ensures Square(x / scale) * Square(scale) == Square(x)
  {
    var q := x / scale;
    assert q * scale == x;
  }

  /** Centring a column on its mean and dividing by its population standard
      deviation, when that is not 0, gives a column of population variance 1. */
  lemma StandardizedUnitVariance(ys: seq<real>, xs: seq<real>, scale: real)
    requires |xs| > 0 && IsStandardized(ys, xs, Mean(xs), scale)
    requires PopulationVariance(xs) > 0.0 && Square(scale) == PopulationVariance(xs)
    ensures PopulationVariance(ys) == 1.0
  {
    StandardizedMeanZero(ys, xs, scale);
    SquaredDeviationsStandardized(ys, xs, Mean(xs), scale);
    var n, d, t := |xs| as real, SquaredDeviations(xs, Mean(xs)), SquaredDeviations(ys, 0.0);
    assert PopulationVariance(ys) == t / n;
    UnitRatio(t, d, n, Square(scale));
  }

  lemma UnitRatio(t: real, d: real, n: real, v: real)
    requires n > 0.0 && v > 0.0 && v == d / n && t * v == d
    ensures t / n == 1.0
  {
    assert v * n == d;
    assert t * v == n * v;
    assert t == n;
  }

  /** The mean lies between the smallest and the largest value. */
  lemma {:induction false} MeanBetweenMinMax(xs: seq<real>)
    requires |xs| > 0
    ensures Min(xs) <= Mean(xs) <= Max(xs)
  {
    SumBounds(xs, Min(xs), Max(xs));
    QuotientBounds(Sum(xs), |xs| as real, Min(xs), Max(xs));
  }

  lemma QuotientBounds(total: real, n: real, lo: real, hi: real)
    requires n > 0.0 && n * lo <= total <= n * hi
    ensures lo <= total / n <= hi
  {
    assert total / n * n == total;
  }

  lemma {:induction false} SumBounds(xs: seq<real>, lo: real, hi: real)
    requires forall i :: 0 <= i < |xs| ==> lo <= xs[i] <= hi
    ensures (|xs| as real) * lo <= Sum(xs) <= (|xs| as real) * hi
  {
    if |xs| > 0 {
      SumBounds(xs[1..], lo, hi);
    }
  }
}
