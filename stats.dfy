/** The column statistics pandas computes for a group: `sum`, `mean`, the
    sample standard deviation `std` (ddof = 1) and `max`, over exact reals. */
module Stats {
  import opened Options

  function Sum(xs: seq<int>): int
  {
    if xs == [] then 0 else xs[0] + Sum(xs[1..])
  }

  /** The arithmetic mean of a non-empty column. */
  function Mean(xs: seq<int>): (m: real)
    requires xs != []
    ensures m * |xs| as real == Sum(xs) as real
  {
    Sum(xs) as real / |xs| as real
  }

  /** The largest value of a non-empty column (`Series.max()`). */
  function Max(xs: seq<real>): (m: real)
    requires xs != []
    ensures m in xs
    ensures forall i :: 0 <= i < |xs| ==> xs[i] <= m
  {
    if |xs| == 1 then xs[0]
    else
      var rest := Max(xs[1..]);
      if xs[0] < rest then rest else xs[0]
  }

  /** An integer column read as reals, as pandas does for `max` and `mean`. */
  function AsReals(xs: seq<int>): (r: seq<real>)
    ensures |r| == |xs| && forall i :: 0 <= i < |xs| ==> r[i] == xs[i] as real
  {
    seq(|xs|, i requires 0 <= i < |xs| => xs[i] as real)
  }

  /** The squared deviations of the column from its mean, scaled by n² (n the
      column's length, `total` its sum) so that they are integers: the sum of
      (n·x − total)². */
  function ScaledSquaredDeviations(xs: seq<int>, n: int, total: int): int
  {
    if xs == [] then 0
    else (n * xs[0] - total) * (n * xs[0] - total) + ScaledSquaredDeviations(xs[1..], n, total)
  }

  /** The sample variance (ddof = 1): the squared deviations from the mean over
      n − 1. A column of fewer than two values has none (pandas gives NaN). */
  function SampleVariance(xs: seq<int>): (v: Option<real>)
    ensures v.Some? <==> |xs| >= 2
    ensures v.Some? ==> v.value >= 0.0
  {
    if |xs| < 2 then None
    else
      var n := |xs|;
      ScaledSquaredDeviationsNonNegative(xs, n, Sum(xs));
      VarianceDenominatorPositive(n);
      Some(ScaledSquaredDeviations(xs, n, Sum(xs)) as real / (n * n * (n - 1)) as real)
  }

  /** n²·(n − 1) is positive for two or more values. */
  lemma VarianceDenominatorPositive(n: int)
    requires n >= 2
    ensures n * n * (n - 1) > 0
  {
    SquarePositive(n);
  }

  predicate AllEqual(xs: seq<int>)
  {
    forall i :: 0 <= i < |xs| ==> xs[i] == xs[0]
  }

  lemma SquareNonNegative(d: int)
    ensures d * d >= 0
  {
  }

  lemma SquarePositive(d: int)
    requires d != 0
    ensures d * d > 0
  {
  }

  lemma {:induction false} ScaledSquaredDeviationsNonNegative(xs: seq<int>, n: int, total: int)
    ensures ScaledSquaredDeviations(xs, n, total) >= 0
  {
    if xs != [] {
      ScaledSquaredDeviationsNonNegative(xs[1..], n, total);
      SquareNonNegative(n * xs[0] - total);
    }
  }

  /** Every value at the mean: no deviation. */
  lemma {:induction false} ScaledSquaredDeviationsOfConstant(xs: seq<int>, n: int, total: int)
    requires forall i :: 0 <= i < |xs| ==> n * xs[i] == total
    ensures ScaledSquaredDeviations(xs, n, total) == 0
  {
    if xs != [] {
      ScaledSquaredDeviationsOfConstant(xs[1..], n, total);
    }
  }

  /** One value off the mean: a positive deviation. */
  lemma {:induction false} ScaledSquaredDeviationsPositive(xs: seq<int>, n: int, total: int, k: nat)
    requires k < |xs| && n * xs[k] != total
    ensures ScaledSquaredDeviations(xs, n, total) > 0
  {
    if k == 0 {
      ScaledSquaredDeviationsNonNegative(xs[1..], n, total);
      SquarePositive(n * xs[0] - total);
    } else {
      ScaledSquaredDeviationsPositive(xs[1..], n, total, k - 1);
      SquareNonNegative(n * xs[0] - total);
    }
  }

  lemma {:induction false} SumOfConstant(xs: seq<int>, c: int)
    requires forall i :: 0 <= i < |xs| ==> xs[i] == c
    ensures Sum(xs) == |xs| * c
  {
    if xs != [] {
      SumOfConstant(xs[1..], c);
    }
  }

  /** The sample variance is zero exactly when all values are equal. */
  lemma VarianceZeroIffAllEqual(xs: seq<int>)
    requires |xs| >= 2
    ensures SampleVariance(xs) == Some(0.0) <==> AllEqual(xs)
  {
    var n := |xs|;
    var total := Sum(xs);
    var scale := (n * n * (n - 1)) as real;
    assert n * n * (n - 1) > 0;
    if AllEqual(xs) {
      SumOfConstant(xs, xs[0]);
      ScaledSquaredDeviationsOfConstant(xs, n, total);
    } else {
      var i :| 0 <= i < |xs| && xs[i] != xs[0];
      if n * xs[0] != total {
        ScaledSquaredDeviationsPositive(xs, n, total, 0);
      } else {
        ScaledSquaredDeviationsPositive(xs, n, total, i);
      }
      PositiveQuotient(ScaledSquaredDeviations(xs, n, total) as real, scale);
    }
  }

  lemma PositiveQuotient(a: real, b: real)
    requires a > 0.0 && b > 0.0
    ensures a / b > 0.0
  {
  }

  lemma {:induction false} SumBounds(xs: seq<int>, lo: int, hi: int)
    requires forall i :: 0 <= i < |xs| ==> lo <= xs[i] <= hi
    ensures |xs| * lo <= Sum(xs) <= |xs| * hi
  {
    if xs != [] {
      SumBounds(xs[1..], lo, hi);
      assert |xs| * lo == (|xs| - 1) * lo + lo;
      assert |xs| * hi == (|xs| - 1) * hi + hi;
    }
  }

  /** A mean lies between any bounds of the column's values. */
  lemma MeanBounds(xs: seq<int>, lo: int, hi: int)
    requires xs != []
    requires forall i :: 0 <= i < |xs| ==> lo <= xs[i] <= hi
    ensures lo as real <= Mean(xs) <= hi as real
  {
    SumBounds(xs, lo, hi);
    var n := |xs| as real;
    IntProductAsReal(|xs|, lo);
    IntProductAsReal(|xs|, hi);
    QuotientBounds(Sum(xs) as real, n, lo as real, hi as real);
  }

  lemma {:induction false} SumNonNegative(xs: seq<int>)
    requires forall i :: 0 <= i < |xs| ==> xs[i] >= 0
    ensures Sum(xs) >= 0
  {
    if xs != [] {
      SumNonNegative(xs[1..]);
    }
  }

  /** A column without negative values has a mean that is not negative. */
  lemma MeanNonNegative(xs: seq<int>)
    requires xs != []
    requires forall i :: 0 <= i < |xs| ==> xs[i] >= 0
    ensures Mean(xs) >= 0.0
  {
    SumNonNegative(xs);
  }

  lemma IntProductAsReal(a: int, b: int)
    ensures (a * b) as real == a as real * b as real
  {
  }

  lemma QuotientBounds(s: real, n: real, lo: real, hi: real)
    requires n > 0.0 && n * lo <= s <= n * hi
    ensures lo <= s / n <= hi
  {
  }

  lemma {:induction false} SumOfThreeColumns(a: seq<int>, b: seq<int>, c: seq<int>, total: seq<int>)
    requires |a| == |b| == |c| == |total|
    requires forall i :: 0 <= i < |total| ==> total[i] == a[i] + b[i] + c[i]
    ensures Sum(total) == Sum(a) + Sum(b) + Sum(c)
  {
    if total != [] {
      SumOfThreeColumns(a[1..], b[1..], c[1..], total[1..]);
    }
  }

  /** The mean is linear: the mean of a row-wise sum of three columns is the sum
      of their means. */
  lemma MeanOfThreeColumns(a: seq<int>, b: seq<int>, c: seq<int>, total: seq<int>)
    requires total != [] && |a| == |b| == |c| == |total|
    requires forall i :: 0 <= i < |total| ==> total[i] == a[i] + b[i] + c[i]
    ensures Mean(total) == Mean(a) + Mean(b) + Mean(c)
  {
    SumOfThreeColumns(a, b, c, total);
    var n := |total| as real;
    assert (Sum(a) + Sum(b) + Sum(c)) as real / n
      == Sum(a) as real / n + Sum(b) as real / n + Sum(c) as real / n;
  }

  /** The squared deviations of the column from a centre `m`: the sum of
      (x − m)². */
  function SquaredDeviations(xs: seq<int>, m: real): real
  {
    if xs == [] then 0.0
    else (xs[0] as real - m) * (xs[0] as real - m) + SquaredDeviations(xs[1..], m)
  }

  lemma SquareOfProduct(k: real, d: real)
    ensures (k * d) * (k * d) == (k * k) * (d * d)
  {
  }

  lemma DivideThenMultiply(t: real, k: real)
    requires k != 0.0
    ensures k * (t / k) == t
  {
  }

  lemma FactorOut(k: real, x: real, m: real)
    ensures k * x - k * m == k * (x - m)
  {
  }

  lemma Distribute(c: real, a: real, b: real)
    ensures c * a + c * b == c * (a + b)
  {
  }

  /** The integer scaled deviations are n² times the deviations from the mean
      `m` = total / n; `nn` is n². */
  lemma {:induction false} ScaledSquaredDeviationsAsReal(xs: seq<int>, n: int, total: int, nn: real, m: real)
    requires n > 0 && nn == (n * n) as real && m == total as real / n as real
    ensures ScaledSquaredDeviations(xs, n, total) as real == nn * SquaredDeviations(xs, m)
  {
    if xs != [] {
      var k := n as real;
      var e := n * xs[0] - total;
      var d := xs[0] as real - m;
      var rest := SquaredDeviations(xs[1..], m);
      ScaledSquaredDeviationsAsReal(xs[1..], n, total, nn, m);
      // e = k·d
      IntProductAsReal(n, xs[0]);
      DivideThenMultiply(total as real, k);
      FactorOut(k, xs[0] as real, m);
      assert e as real == k * d;
      // e² = n²·d²
      IntProductAsReal(e, e);
      IntProductAsReal(n, n);
      SquareOfProduct(k, d);
      assert (e * e) as real == nn * (d * d);
      Distribute(nn, d * d, rest);
    }
  }

  lemma CancelFactor(c: real, a: real, b: real)
    requires c != 0.0 && b != 0.0
    ensures (c * a) / (c * b) == a / b
  {
  }

  /** The sample variance is the textbook one: the squared deviations from the
      mean over n − 1 (`std` with ddof = 1). */
  lemma SampleVarianceIsTextbook(xs: seq<int>)
    requires |xs| >= 2
    ensures SampleVariance(xs) == Some(SquaredDeviations(xs, Mean(xs)) / (|xs| - 1) as real)
  {
    SampleVarianceValue(xs);
    TextbookStep(xs);
  }

  lemma TextbookStep(xs: seq<int>)
    requires |xs| >= 2
    ensures ScaledSquaredDeviations(xs, |xs|, Sum(xs)) as real / (|xs| * |xs| * (|xs| - 1)) as real
        == SquaredDeviations(xs, Mean(xs)) / (|xs| - 1) as real
  {
    var n := |xs|;
    var nn := (n * n) as real;
    var total := Sum(xs);
    var m := Mean(xs);
    assert m == total as real / n as real;
    ScaledSquaredDeviationsAsReal(xs, n, total, nn, m);
    CancelSquare(ScaledSquaredDeviations(xs, n, total), SquaredDeviations(xs, m), n, nn);
  }

  lemma SampleVarianceValue(xs: seq<int>)
    requires |xs| >= 2
    ensures SampleVariance(xs)
      == Some(ScaledSquaredDeviations(xs, |xs|, Sum(xs)) as real / (|xs| * |xs| * (|xs| - 1)) as real)
  {
  }

  /** An integer that is n² times s, divided by n²·(n − 1), is s / (n − 1). */
  lemma CancelSquare(scaled: int, s: real, n: int, nn: real)
    requires n >= 2 && nn == (n * n) as real && scaled as real == nn * s
    ensures scaled as real / (n * n * (n - 1)) as real == s / (n - 1) as real
  {
    IntProductAsReal(n * n, n - 1);
    SquarePositive(n);
    SameQuotient(scaled as real, (n * n * (n - 1)) as real, nn * s, nn * (n - 1) as real);
    CancelFactor(nn, s, (n - 1) as real);
  }

  lemma SameQuotient(a: real, b: real, a2: real, b2: real)
    requires a == a2 && b == b2 && b != 0.0
    ensures a / b == a2 / b2
  {
  }
}
