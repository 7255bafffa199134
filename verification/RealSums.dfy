/** Sums, averages and products of exact decimal values. */
module RealSums {
  function Sum(s: seq<real>): real {
    if s == [] then 0.0 else Sum(s[..|s| - 1]) + s[|s| - 1]
  }

  function Average(s: seq<real>): real
    requires s != []
  {
    Sum(s) / (|s| as real)
  }

  lemma {:induction false} SumAppend(a: seq<real>, b: seq<real>)
    ensures Sum(a + b) == Sum(a) + Sum(b)
  {
    if b == [] {
      assert a + b == a;
    } else {
      var n := |b| - 1;
      assert (a + b)[..|a + b| - 1] == a + b[..n];
      SumAppend(a, b[..n]);
    }
  }

  lemma {:induction false} SumNonNegative(s: seq<real>)
    requires forall x :: x in s ==> 0.0 <= x
    ensures 0.0 <= Sum(s)
    ensures Sum(s) == 0.0 <==> forall x :: x in s ==> x == 0.0
  {
    if s != [] {
      var n := |s| - 1;
      assert forall x :: x in s[..n] ==> x in s;
      SumNonNegative(s[..n]);
      assert s[n] in s;
      assert forall x :: x in s <==> x in s[..n] || x == s[n];
    }
  }

  function Mul(x: real, y: real): real {
    x * y
  }

  /** The square of the distance from m. */
  function Deviation(x: real, m: real): (d: real)
    ensures x != m ==> d > 0.0
    ensures x == m ==> d == 0.0
  {
    SquareSign(x - m);
    Mul(x - m, x - m)
  }

  lemma SquareSign(x: real)
    ensures x != 0.0 ==> Mul(x, x) > 0.0
    ensures x == 0.0 ==> Mul(x, x) == 0.0
  {
    if x > 0.0 {
      Positive(x, x);
    } else if x < 0.0 {
      Positive(-x, -x);
      Negated(x, x);
    }
  }

  lemma Positive(x: real, y: real)
    requires x > 0.0 && y > 0.0
    ensures Mul(x, y) > 0.0
  {
  }

  lemma Negated(x: real, y: real)
    ensures Mul(-x, -y) == Mul(x, y)
  {
  }

  function Times(a: seq<real>, b: seq<real>): seq<real>
    requires |a| == |b|
  {
    seq(|a|, i requires 0 <= i < |a| => Mul(a[i], b[i]))
  }

  /** A weighted sum lies between the extreme factors times the sum of the weights. */
  lemma {:induction false} WeightedSumBounds(values: seq<real>, weights: seq<real>, low: real, high: real)
    requires |values| == |weights|
    requires forall i :: 0 <= i < |values| ==> low <= values[i] <= high && 0.0 <= weights[i]
    ensures Mul(low, Sum(weights)) <= Sum(Times(values, weights)) <= Mul(high, Sum(weights))
  {
    if values != [] {
      hide Mul;
      var n := |values| - 1;
      WeightedSumBounds(values[..n], weights[..n], low, high);
      assert Times(values, weights)[..n] == Times(values[..n], weights[..n]);
      ScaleBounds(low, values[n], weights[n]);
      ScaleBounds(values[n], high, weights[n]);
      Distribute(low, Sum(weights[..n]), weights[n]);
      Distribute(high, Sum(weights[..n]), weights[n]);
    }
  }

  lemma ScaleBounds(a: real, b: real, w: real)
    requires a <= b && 0.0 <= w
    ensures Mul(a, w) <= Mul(b, w)
  {
  }

  lemma Distribute(a: real, x: real, y: real)
    ensures Mul(a, x + y) == Mul(a, x) + Mul(a, y)
  {
  }

  function Deviations(s: seq<real>, m: real): seq<real> {
    seq(|s|, i requires 0 <= i < |s| => Deviation(s[i], m))
  }

  /** What a sum of squared deviations from m comes to. */
  function Expanded(squares: real, sum: real, n: nat, m: real): real {
    squares - 2.0 * m * sum + (n as real) * (m * m)
  }

  lemma ExpandedStep(squares: real, sum: real, n: nat, m: real, x: real)
    ensures Expanded(squares, sum, n, m) + Deviation(x, m) == Expanded(squares + Mul(x, x), sum + x, n + 1, m)
  {
  }

  /** The sum of squared deviations from any centre, expanded. */
  lemma {:induction false} DeviationSum(s: seq<real>, m: real)
    ensures Sum(Deviations(s, m)) == Expanded(Sum(Times(s, s)), Sum(s), |s|, m)
  {
    if s == [] {
      assert Sum(Deviations(s, m)) == Sum(Times(s, s)) == 0.0;
    } else {
      hide Deviation, Mul, Expanded;
      var n := |s| - 1;
      var front, x := s[..n], s[n];
      DeviationSum(front, m);
      assert Deviations(s, m)[..n] == Deviations(front, m);
      assert Times(s, s)[..n] == Times(front, front);
      ExpandedStep(Sum(Times(front, front)), Sum(front), n, m, x);
    }
  }

  /** Variance is the mean of the squares less the square of the mean, and never negative;
      it vanishes exactly when all values are equal. */
  lemma VarianceIdentity(s: seq<real>)
    requires s != []
    ensures Average(Deviations(s, Average(s))) == Average(Times(s, s)) - Mul(Average(s), Average(s))
    ensures Average(Deviations(s, Average(s))) >= 0.0
    ensures Average(Deviations(s, Average(s))) == 0.0 <==> forall x :: x in s ==> x == Average(s)
  {
    var m := Average(s);
    DeviationSum(s, m);
    MeanCancels(Sum(Times(s, s)), Sum(s), |s|);
    NoDeviation(s, m);
    hide Mul, Deviation, Expanded;
    QuotientSign(Sum(Deviations(s, m)), |s| as real);
  }

  lemma NoDeviation(s: seq<real>, m: real)
    ensures Sum(Deviations(s, m)) >= 0.0
    ensures Sum(Deviations(s, m)) == 0.0 <==> forall x :: x in s ==> x == m
  {
    hide Deviation, Sum;
    var d := Deviations(s, m);
    assert forall i :: 0 <= i < |s| ==> d[i] == Deviation(s[i], m);
    SumNonNegative(d);
    if forall x :: x in d ==> x == 0.0 {
      forall x | x in s
        ensures x == m
      {
        var i :| 0 <= i < |s| && s[i] == x;
        assert d[i] in d;
      }
    }
    if forall x :: x in s ==> x == m {
      forall y | y in d
        ensures y == 0.0
      {
        var i :| 0 <= i < |d| && d[i] == y;
        assert s[i] in s;
      }
    }
  }

  lemma QuotientTimes(x: real, n: real)
    requires n > 0.0
    ensures x == (x / n) * n
  {
  }

  lemma QuotientSign(x: real, n: real)
    requires n > 0.0 && x >= 0.0
    ensures x / n >= 0.0 && (x / n == 0.0 <==> x == 0.0)
  {
  }

  lemma MeanCancels(squares: real, sum: real, n: nat)
    requires n > 0
    ensures Expanded(squares, sum, n, sum / (n as real)) / (n as real)
            == squares / (n as real) - Mul(sum / (n as real), sum / (n as real))
  {
  }

  // ---------------------------------------------------------------------------
  // Quotients
  // ---------------------------------------------------------------------------

  lemma ProductMonotone(a: real, b: real, c: real)
    requires c > 0.0
    ensures a <= b ==> a * c <= b * c
    ensures a < b ==> a * c < b * c
  {
  }

  lemma CancelFactor(a: real, b: real, c: real)
    requires c > 0.0 && a * c <= b * c
    ensures a <= b
  {
  }

  /** The average of part of a sum, relative to the average of the whole, is at most the
      ratio of the counts, and reaches it exactly when the part is the whole sum. */
  lemma RatioBound(part: real, whole: real, k: real, n: real, ratio: real)
    requires 0.0 <= part <= whole && whole > 0.0 && k > 0.0 && n > 0.0
    requires whole / n > 0.0 && ratio == (part / k) / (whole / n)
    ensures 0.0 <= ratio <= n / k
    ensures ratio == n / k <==> part == whole
  {
  }

  lemma {:induction false} SumBetween(s: seq<real>, low: real, high: real)
    requires forall x :: x in s ==> low <= x <= high
    ensures Mul(low, |s| as real) <= Sum(s) <= Mul(high, |s| as real)
  {
    if s != [] {
      var n := |s| - 1;
      assert forall x :: x in s[..n] ==> x in s;
      SumBetween(s[..n], low, high);
      assert s[n] in s;
      Distribute(low, n as real, 1.0);
      Distribute(high, n as real, 1.0);
      assert Mul(low, 1.0) == low && Mul(high, 1.0) == high;
      assert |s| as real == (n as real) + 1.0;
    }
  }

  lemma QuotientBetween(sum: real, n: real, low: real, high: real)
    requires n > 0.0 && Mul(low, n) <= sum <= Mul(high, n)
    ensures low <= sum / n <= high
  {
  }

  /** An average lies between any bounds of its elements. */
  lemma AverageBetween(s: seq<real>, low: real, high: real)
    requires s != [] && forall x :: x in s ==> low <= x <= high
    ensures low <= Average(s) <= high
  {
    SumBetween(s, low, high);
    hide Mul, Sum;
    QuotientBetween(Sum(s), |s| as real, low, high);
  }

}
