// Real arithmetic helpers and the six-joint vectors shared by the native
// worker, the resampler library and the rollout tools.

module Results {
  datatype Result<+T, +E> = Ok(value: T) | Err(error: E)
  datatype Option<+T> = None | Some(value: T)
}

/** Natural-number helpers. */
module Naturals {
  function MaxNat(x: nat, y: nat): nat {
    if x >= y then x else y
  }

  function MinNat(x: nat, y: nat): nat {
    if x <= y then x else y
  }

  /** 1 + 2 + ... + k. */
  function Triangle(k: nat): nat {
    k * (k + 1) / 2
  }

  lemma {:induction false} TriangleIsHalf(m: nat)
    ensures 2 * Triangle(m) == m * (m + 1)
    decreases m
  {
    if m > 0 {
      TriangleIsHalf(m - 1);
      assert m * (m + 1) == (m - 1) * m + 2 * m;
    }
  }
}

module Reals {
  const PI: real := 3.14159265358979323846

  function Abs(x: real): real {
    if x < 0.0 then -x else x
  }

  function Min(x: real, y: real): real {
    if x <= y then x else y
  }

  function Max(x: real, y: real): real {
    if x >= y then x else y
  }

  /** The library clamp; only meaningful for lo <= hi. */
  function Clamp(x: real, lo: real, hi: real): real {
    if x < lo then lo else if x > hi then hi else x
  }

  /** q raised to the power n. */
  function Pow(q: real, n: nat): real {
    if n == 0 then 1.0 else q * Pow(q, n - 1)
  }

  lemma MulNonNegative(x: real, y: real)
    requires x >= 0.0 && y >= 0.0
    ensures x * y >= 0.0
  {
  }

  lemma MulMonotone(x: real, y: real, k: real)
    requires x <= y && k >= 0.0
    ensures x * k <= y * k
  {
    MulNonNegative(y - x, k);
    assert (y - x) * k == y * k - x * k;
  }

  /** A convex combination of two points stays between any common bounds. */
  lemma BetweenBounds(x: real, y: real, alpha: real, lo: real, hi: real)
    requires 0.0 <= alpha <= 1.0
    requires lo <= x <= hi && lo <= y <= hi
    ensures lo <= x + alpha * (y - x) <= hi
  {
    MulNonNegative(alpha, y - lo);
    MulNonNegative(1.0 - alpha, x - lo);
    assert x + alpha * (y - x) - lo == alpha * (y - lo) + (1.0 - alpha) * (x - lo);
    MulNonNegative(alpha, hi - y);
    MulNonNegative(1.0 - alpha, hi - x);
    assert hi - (x + alpha * (y - x)) == alpha * (hi - y) + (1.0 - alpha) * (hi - x);
  }

  lemma Fraction(x: real, d: real)
    requires x >= 0.0 && d > 0.0
    ensures x / d >= 0.0
    ensures x / d >= 1.0 <==> x >= d
    ensures x == 0.0 ==> x / d == 0.0
  {
    var k := x / d;
    assert k * d == x;
    ProductSign(k, d);
    ProductAgainst(k, d);
  }

  lemma ProductSign(k: real, d: real)
    requires d > 0.0
    ensures k > 0.0 <==> k * d > 0.0
    ensures k < 0.0 <==> k * d < 0.0
  {
    if k > 0.0 {
      Positive(k, d);
    } else if k < 0.0 {
      Positive(-k, d);
      assert (-k) * d == -(k * d);
    }
  }

  lemma ProductAgainst(k: real, d: real)
    requires d > 0.0
    ensures k >= 1.0 <==> k * d >= d
  {
    ProductSign(k - 1.0, d);
    assert (k - 1.0) * d == k * d - d;
  }

  lemma Positive(x: real, y: real)
    requires x > 0.0 && y > 0.0
    ensures x * y > 0.0
  {
  }

  lemma QuotientMonotone(x: real, y: real, d: real)
    requires x <= y && d > 0.0
    ensures x / d <= y / d
  {
    Fraction(y - x, d);
    assert (y - x) / d == y / d - x / d;
  }

  lemma DivideMultiply(x: real, d: real)
    requires d != 0.0
    ensures x * d / d == x
  {
  }
}

module Joints {
  import opened Reals

  /** One value per joint J1..J6. */
  type Vector = v: seq<real> | |v| == 6 witness [0.0, 0.0, 0.0, 0.0, 0.0, 0.0]

  const ZERO: Vector := [0.0, 0.0, 0.0, 0.0, 0.0, 0.0]
  const LOWER: Vector := [-6.28, -2.09, -2.27, -6.28, -2.09, -6.28]
  const UPPER: Vector := [6.28, 2.09, 2.27, 6.28, 2.09, 6.28]

  /** The manufacturer position check. */
  predicate InLimits(v: Vector) {
    forall j | 0 <= j < 6 :: LOWER[j] <= v[j] <= UPPER[j]
  }

  /** The largest component, as the metrics writer and the evidence validator compute it. */
  function Largest(v: Vector): (m: real)
    ensures forall j | 0 <= j < 6 :: v[j] <= m
    ensures exists j | 0 <= j < 6 :: v[j] == m
  {
    Max(v[0], Max(v[1], Max(v[2], Max(v[3], Max(v[4], v[5])))))
  }

  lemma VectorsEqual(x: Vector, y: Vector)
    requires forall j | 0 <= j < 6 :: x[j] == y[j]
    ensures x == y
  {
  }
}
