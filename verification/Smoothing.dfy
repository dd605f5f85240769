/** Seeded exponential smoothing: the recurrence behind the EMA and both of Wilder's averages. */
module Smoothing {
  import opened Common

  function Sum(xs: seq<real>): real {
    if xs == [] then 0.0 else Sum(xs[..|xs| - 1]) + xs[|xs| - 1]
  }

  /** One step of the recurrence: `prev` moved towards `x` by the fraction `alpha`. */
  function Blend(prev: real, x: real, alpha: real): real {
    (x - prev) * alpha + prev
  }

  /** The average of the first `period` values, then one blend per later value. */
  function Smooth(xs: seq<real>, period: nat, alpha: real): real
    requires 0 < period <= |xs|
  {
    if |xs| == period then Sum(xs) / period as real
    else Blend(Smooth(xs[..|xs| - 1], period, alpha), xs[|xs| - 1], alpha)
  }

  lemma SmoothAppend(xs: seq<real>, x: real, period: nat, alpha: real)
    requires 0 < period <= |xs|
    ensures Smooth(xs + [x], period, alpha) == Blend(Smooth(xs, period, alpha), x, alpha)
  {
    assert (xs + [x])[..|xs|] == xs;
  }

  ghost predicate Within(xs: seq<real>, lo: real, hi: real) {
    forall i :: 0 <= i < |xs| ==> lo <= xs[i] <= hi
  }

  // ---- an average of its inputs ----

  lemma OneMore(lo: real, n: real, sum: real, x: real, next: real)
    requires next == n + 1.0 && lo * n <= sum && lo <= x
    ensures lo * next <= sum + x
  {
  }

  lemma {:induction false} SumWithin(xs: seq<real>, lo: real, hi: real)
    requires Within(xs, lo, hi)
    ensures lo * |xs| as real <= Sum(xs) <= hi * |xs| as real
  {
    if xs != [] {
      var n := |xs| - 1;
      SumWithin(xs[..n], lo, hi);
      OneMore(lo, n as real, Sum(xs[..n]), xs[n], |xs| as real);
      OneMore(-hi, n as real, -Sum(xs[..n]), -xs[n], |xs| as real);
    }
  }

  lemma ProductNonNegative(x: real, y: real)
    requires x >= 0.0 && y >= 0.0
    ensures x * y >= 0.0
  {
  }

  lemma BlendWithin(prev: real, x: real, alpha: real, lo: real, hi: real)
    requires 0.0 <= alpha <= 1.0 && lo <= prev <= hi && lo <= x <= hi
    ensures lo <= Blend(prev, x, alpha) <= hi
  {
    assert Blend(prev, x, alpha) - lo == (x - lo) * alpha + (prev - lo) * (1.0 - alpha);
    assert hi - Blend(prev, x, alpha) == (hi - x) * alpha + (hi - prev) * (1.0 - alpha);
    ProductNonNegative(x - lo, alpha);
    ProductNonNegative(prev - lo, 1.0 - alpha);
    ProductNonNegative(hi - x, alpha);
    ProductNonNegative(hi - prev, 1.0 - alpha);
  }

  /** A smoothed value never leaves the hull of its inputs. */
  lemma {:induction false} SmoothWithin(xs: seq<real>, period: nat, alpha: real, lo: real, hi: real)
    requires 0 < period <= |xs| && 0.0 <= alpha <= 1.0 && Within(xs, lo, hi)
    ensures lo <= Smooth(xs, period, alpha) <= hi
  {
    if |xs| == period {
      SumWithin(xs, lo, hi);
      QuotientWithin(Sum(xs), period as real, lo, hi);
    } else {
      SmoothWithin(xs[..|xs| - 1], period, alpha, lo, hi);
      BlendWithin(Smooth(xs[..|xs| - 1], period, alpha), xs[|xs| - 1], alpha, lo, hi);
    }
  }

  // ---- the closed form ----

  function Power(b: real, n: nat): real {
    if n == 0 then 1.0 else b * Power(b, n - 1)
  }

  /** The weight of value `j` in the smoothed value of the first `n` values. */
  function Weight(period: nat, alpha: real, n: nat, j: nat): real
    requires 0 < period <= n && j < n
  {
    if j < period then Power(1.0 - alpha, n - period) / period as real
    else Power(1.0 - alpha, n - 1 - j) * alpha
  }

  function Times(x: real, y: real): real {
    x * y
  }

  /** The weighted sum of the first `k` values. */
  function Weighted(xs: seq<real>, period: nat, alpha: real, n: nat, k: nat): real
    requires 0 < period <= n && k <= n && k <= |xs|
  {
    if k == 0 then 0.0
    else Weighted(xs, period, alpha, n, k - 1) + Times(Weight(period, alpha, n, k - 1), xs[k - 1])
  }

  lemma SplitQuotient(b: real, q: real, n: real)
    requires n > 0.0
    ensures b * q / n == b * (q / n)
  {
  }

  /** One more value shrinks every earlier weight by `1 - alpha`. */
  lemma WeightShrinks(period: nat, alpha: real, n: nat, j: nat)
    requires 0 < period <= n && j < n
    ensures Weight(period, alpha, n + 1, j) == Times(1.0 - alpha, Weight(period, alpha, n, j))
  {
    var b := 1.0 - alpha;
    if j < period {
      SplitQuotient(b, Power(b, n - period), period as real);
    } else {
      assert Power(b, n - j) == b * Power(b, n - 1 - j);
    }
  }

  lemma Distribute(b: real, w: real, q: real, q': real, x: real)
    requires q' == Times(b, q)
    ensures Times(b, w) + Times(q', x) == Times(b, w + Times(q, x))
  {
  }

  lemma {:induction false} WeightedShrinks(xs: seq<real>, period: nat, alpha: real, n: nat, k: nat)
    requires 0 < period <= n && k <= n && n < |xs|
    ensures Weighted(xs, period, alpha, n + 1, k) == Times(1.0 - alpha, Weighted(xs[..n], period, alpha, n, k))
  {
    if k > 0 {
      WeightedShrinks(xs, period, alpha, n, k - 1);
      WeightShrinks(period, alpha, n, k - 1);
      assert xs[..n][k - 1] == xs[k - 1];
      Distribute(1.0 - alpha, Weighted(xs[..n], period, alpha, n, k - 1),
                 Weight(period, alpha, n, k - 1), Weight(period, alpha, n + 1, k - 1), xs[k - 1]);
    }
  }

  lemma AddQuotients(s: real, x: real, n: real)
    requires n > 0.0
    ensures (s + x) / n == s / n + 1.0 / n * x
  {
  }

  lemma {:induction false} SeedIsWeighted(xs: seq<real>, period: nat, alpha: real, k: nat)
    requires 0 < period <= |xs| && k <= period
    ensures Weighted(xs, period, alpha, period, k) == Sum(xs[..k]) / period as real
  {
    if k > 0 {
      SeedIsWeighted(xs, period, alpha, k - 1);
      assert xs[..k][..k - 1] == xs[..k - 1];
      AddQuotients(Sum(xs[..k - 1]), xs[k - 1], period as real);
    }
  }

  lemma BlendIsWeighted(prev: real, x: real, alpha: real)
    ensures Blend(prev, x, alpha) == (1.0 - alpha) * prev + 1.0 * alpha * x
  {
  }

  /** The recurrence is the weighted average: the seed's values weigh the same, later values
      `alpha * (1 - alpha)^age`. */
  lemma {:induction false} SmoothIsWeighted(xs: seq<real>, period: nat, alpha: real)
    requires 0 < period <= |xs|
    ensures Smooth(xs, period, alpha) == Weighted(xs, period, alpha, |xs|, |xs|)
  {
    if |xs| == period {
      SeedIsWeighted(xs, period, alpha, period);
      assert xs[..period] == xs;
    } else {
      var n := |xs| - 1;
      SmoothIsWeighted(xs[..n], period, alpha);
      WeightedShrinks(xs, period, alpha, n, n);
      BlendIsWeighted(Smooth(xs[..n], period, alpha), xs[n], alpha);
    }
  }

  lemma {:induction false} PowerPositive(b: real, n: nat)
    requires b > 0.0
    ensures Power(b, n) > 0.0
  {
    if n > 0 {
      PowerPositive(b, n - 1);
    }
  }

  /** With `0 < alpha < 1` every value so far has a say. */
  lemma WeightPositive(period: nat, alpha: real, n: nat, j: nat)
    requires 0 < period <= n && j < n && 0.0 < alpha < 1.0
    ensures Weight(period, alpha, n, j) > 0.0
  {
    if j < period {
      PowerPositive(1.0 - alpha, n - period);
    } else {
      PowerPositive(1.0 - alpha, n - 1 - j);
    }
  }

  /** The weights add up to one: smoothing a constant gives the constant. */
  lemma WeightsAddUpToOne(period: nat, alpha: real, n: nat)
    requires 0 < period <= n && 0.0 <= alpha <= 1.0
    ensures Weighted(seq(n, i => 1.0), period, alpha, n, n) == 1.0
  {
    SmoothIsWeighted(seq(n, i => 1.0), period, alpha);
    SmoothWithin(seq(n, i => 1.0), period, alpha, 1.0, 1.0);
  }

  // ---- when a smoothed value of non-negative inputs vanishes ----

  ghost predicate NonNegative(xs: seq<real>) {
    forall i :: 0 <= i < |xs| ==> xs[i] >= 0.0
  }

  ghost predicate AllZero(xs: seq<real>) {
    forall i :: 0 <= i < |xs| ==> xs[i] == 0.0
  }

  lemma ProductSign(w: real, x: real)
    requires w > 0.0 && x >= 0.0
    ensures w * x >= 0.0 && (w * x == 0.0 <==> x == 0.0)
  {
  }

  lemma {:induction false} WeightedVanishes(xs: seq<real>, period: nat, alpha: real, n: nat, k: nat)
    requires 0 < period <= n && k <= n && n <= |xs| && 0.0 < alpha < 1.0 && NonNegative(xs)
    ensures Weighted(xs, period, alpha, n, k) >= 0.0
    ensures Weighted(xs, period, alpha, n, k) == 0.0 <==> AllZero(xs[..k])
  {
    if k > 0 {
      WeightedVanishes(xs, period, alpha, n, k - 1);
      WeightPositive(period, alpha, n, k - 1);
      ProductSign(Weight(period, alpha, n, k - 1), xs[k - 1]);
      assert xs[..k] == xs[..k - 1] + [xs[k - 1]];
      assert AllZero(xs[..k]) <==> AllZero(xs[..k - 1]) && xs[k - 1] == 0.0 by {
        assert forall i :: 0 <= i < k - 1 ==> xs[..k][i] == xs[..k - 1][i];
        assert xs[..k][k - 1] == xs[k - 1];
      }
    }
  }

  lemma SmoothVanishes(xs: seq<real>, period: nat, alpha: real)
    requires 0 < period <= |xs| && 0.0 < alpha < 1.0 && NonNegative(xs)
    ensures Smooth(xs, period, alpha) >= 0.0
    ensures Smooth(xs, period, alpha) == 0.0 <==> AllZero(xs)
  {
    SmoothIsWeighted(xs, period, alpha);
    WeightedVanishes(xs, period, alpha, |xs|, |xs|);
    assert xs[..|xs|] == xs;
  }

  // ---- on a straight line ----

  /** The values climb by `d` from `a`. */
  ghost predicate Ramp(xs: seq<real>, a: real, d: real) {
    forall i :: 0 <= i < |xs| ==> xs[i] == a + Times(d, i as real)
  }

  lemma RampSumStep(n: real, a: real, d: real, sum: real)
    requires 2.0 * sum == n * (2.0 * a + d * (n - 1.0))
    ensures 2.0 * (sum + a + d * n) == (n + 1.0) * (2.0 * a + d * n)
  {
    assert n * (2.0 * a + d * (n - 1.0)) == 2.0 * (n * a) + d * n * n - d * n;
    assert (n + 1.0) * (2.0 * a + d * n) == 2.0 * (n * a) + 2.0 * a + d * n * n + d * n;
  }

  lemma {:induction false} RampSum(xs: seq<real>, a: real, d: real)
    requires Ramp(xs, a, d)
    ensures 2.0 * Sum(xs) == |xs| as real * (2.0 * a + d * (|xs| as real - 1.0))
  {
    if xs != [] {
      var n := |xs| - 1;
      RampSum(xs[..n], a, d);
      RampSumStep(n as real, a, d, Sum(xs[..n]));
      assert xs[n] == a + d * n as real;
    }
  }

  /** The middle of the first `n` values. */
  lemma RampMean(n: real, a: real, d: real, sum: real)
    requires n > 0.0 && 2.0 * sum == n * (2.0 * a + d * (n - 1.0))
    ensures sum / n == a + d * (n - 1.0) / 2.0
  {
    var mean := a + d * (n - 1.0) / 2.0;
    assert mean * 2.0 == 2.0 * a + d * (n - 1.0);
    assert mean * n * 2.0 == sum * 2.0;
    assert sum / n * n == sum;
    assert (sum / n - mean) * n == 0.0;
  }

  lemma LagKept(x: real, d: real, lag: real, p: real, alpha: real)
    requires alpha * (p + 1.0) == 2.0 && lag == d * (p - 1.0) / 2.0
    ensures Blend(x - lag, x + d, alpha) == x + d - lag
  {
    assert (d + lag) * 2.0 == d * (p + 1.0);
    assert (d + lag) * 2.0 * alpha == d * ((p + 1.0) * alpha);
  }

  lemma RampNext(n: nat, x: real, y: real, a: real, d: real)
    requires n > 0 && x == a + Times(d, (n - 1) as real) && y == a + Times(d, n as real)
    ensures y == x + d
  {
    assert n as real == (n - 1) as real + 1.0;
    assert d * n as real == d * (n - 1) as real + d;
  }

  lemma SeedLags(xs: seq<real>, a: real, d: real, p: real, lag: real)
    requires xs != [] && p == |xs| as real && Ramp(xs, a, d) && lag == d * (p - 1.0) / 2.0
    ensures Sum(xs) / p == xs[|xs| - 1] - lag
  {
    RampSum(xs, a, d);
    RampMean(p, a, d, Sum(xs));
    assert xs[|xs| - 1] == a + Times(d, (|xs| - 1) as real);
    assert Times(d, (|xs| - 1) as real) == d * (p - 1.0);
  }

  /** With the EMA's fraction 2 / (period + 1) the smoothing of a straight line runs exactly half of `period - 1`
      steps behind it, from the seed on. */
  lemma {:induction false} SmoothLags(xs: seq<real>, period: nat, alpha: real, a: real, d: real, lag: real)
    requires 0 < period <= |xs| && Ramp(xs, a, d)
    requires alpha * (period as real + 1.0) == 2.0 && lag == d * (period as real - 1.0) / 2.0
    ensures Smooth(xs, period, alpha) == xs[|xs| - 1] - lag
  {
    var n, p := |xs| - 1, period as real;
    if |xs| == period {
      SeedLags(xs, a, d, p, lag);
    } else {
      SmoothLags(xs[..n], period, alpha, a, d, lag);
      RampNext(n, xs[n - 1], xs[n], a, d);
      LagKept(xs[n - 1], d, lag, p, alpha);
    }
  }
}
