// The degree-7 point-to-point profile of the joint probe.

module Polynomials {
  /** Coefficients in ascending order. */
  type Polynomial = seq<real>

  function Horner(c: real, x: real, tail: real): real {
    c + x * tail
  }

  function Eval(c: Polynomial, x: real): real
    decreases |c|
  {
    if c == [] then 0.0 else Horner(c[0], x, Eval(c[1..], x))
  }

  /** The derivative at x, by the product rule along the Horner form. */
  function Slope(c: Polynomial, x: real): real
    decreases |c|
  {
    if c == [] then 0.0 else Horner(Eval(c[1..], x), x, Slope(c[1..], x))
  }

  /** The second-order rest of a step h from x. */
  function Rest(c: Polynomial, x: real, h: real): real
    decreases |c|
  {
    if c == [] then 0.0 else Horner(Slope(c[1..], x), x + h, Rest(c[1..], x, h))
  }

  function Expansion(value: real, slope: real, rest: real, h: real): real {
    value + h * slope + h * h * rest
  }

  /** Slope really is the derivative: what a step h adds is h times the slope,
      up to a second-order rest. */
  lemma {:induction false} SlopeIsDerivative(c: Polynomial, x: real, h: real)
    ensures Eval(c, x + h) == Expansion(Eval(c, x), Slope(c, x), Rest(c, x, h), h)
    decreases |c|
  {
    if c == [] {
    } else {
      hide Horner, Expansion;
      SlopeIsDerivative(c[1..], x, h);
      Expand(c[0], x, h, Eval(c[1..], x), Slope(c[1..], x), Rest(c[1..], x, h));
    }
  }

  lemma Expand(c: real, x: real, h: real, e: real, s: real, r: real)
    ensures Horner(c, x + h, Expansion(e, s, r, h))
         == Expansion(Horner(c, x, e), Horner(e, x, s), Horner(s, x + h, r), h)
  {
  }
}

module SepticTrajectory {
  import opened Reals
  import opened Polynomials

  datatype TrajectorySample = TrajectorySample(position: real, velocity: real, acceleration: real, jerk: real)

  // ---- the normalized profile, as written in the program -------------------

  function Profile(s: real): real {
    35.0 * (s * s * s * s) - 84.0 * (s * s * s * s * s) + 70.0 * (s * s * s * s * s * s) - 20.0 * (s * s * s * s * s * s * s)
  }

  function ProfileVelocity(s: real): real {
    140.0 * (s * s * s) - 420.0 * (s * s * s * s) + 420.0 * (s * s * s * s * s) - 140.0 * (s * s * s * s * s * s)
  }

  function ProfileAcceleration(s: real): real {
    420.0 * (s * s) - 1680.0 * (s * s * s) + 2100.0 * (s * s * s * s) - 840.0 * (s * s * s * s * s)
  }

  function ProfileJerk(s: real): real {
    840.0 * s - 5040.0 * (s * s) + 8400.0 * (s * s * s) - 4200.0 * (s * s * s * s)
  }

  function Ratio(x: real, d: real): real
    requires d != 0.0
  {
    x / d
  }

  function Squared(x: real): real {
    x * x
  }

  function Cubed(x: real): real {
    x * x * x
  }

  lemma PowersNonZero(x: real)
    requires x != 0.0
    ensures Squared(x) != 0.0 && Cubed(x) != 0.0
  {
    NonZeroProduct(x, x, Squared(x));
    NonZeroProduct(Squared(x), x, Cubed(x));
  }

  lemma NonZeroProduct(x: real, y: real, product: real)
    requires x != 0.0 && y != 0.0 && product == x * y
    ensures product != 0.0
    ensures x > 0.0 && y > 0.0 ==> product > 0.0
  {
  }

  function Phase(duration: real, time: real): real
    requires duration != 0.0
  {
    Clamp(Ratio(time, duration), 0.0, 1.0)
  }

  function ScaledBy(displacement: real, p: real, scale: real): real
    requires scale != 0.0
  {
    displacement * p / scale
  }

  function SepticState(start: real, displacement: real, duration: real, time: real): TrajectorySample
    requires duration != 0.0
  {
    PowersNonZero(duration);
    var s := Phase(duration, time);
    TrajectorySample(start + displacement * Profile(s),
                     ScaledBy(displacement, ProfileVelocity(s), duration),
                     ScaledBy(displacement, ProfileAcceleration(s), Squared(duration)),
                     ScaledBy(displacement, ProfileJerk(s), Cubed(duration)))
  }

  // ---- the four polynomials belong together --------------------------------

  const POSITION: Polynomial := [0.0, 0.0, 0.0, 0.0, 35.0, -84.0, 70.0, -20.0]
  const VELOCITY: Polynomial := [0.0, 0.0, 0.0, 140.0, -420.0, 420.0, -140.0, 0.0]
  const ACCELERATION: Polynomial := [0.0, 0.0, 420.0, -1680.0, 2100.0, -840.0, 0.0, 0.0]
  const JERK: Polynomial := [0.0, 840.0, -5040.0, 8400.0, -4200.0, 0.0, 0.0, 0.0]

  lemma Peel(c: Polynomial, s: real, i: nat)
    requires i < |c|
    ensures Eval(c[i..], s) == Horner(c[i], s, Eval(c[i + 1..], s))
    ensures Slope(c[i..], s) == Horner(Eval(c[i + 1..], s), s, Slope(c[i + 1..], s))
  {
    assert c[i..][1..] == c[i + 1..];
  }

  /** Value and slope of an eight-coefficient polynomial in closed form. */
  lemma Closed(c: Polynomial, s: real)
    requires |c| == 8
    ensures Eval(c, s) == Powers(c[0], c[1], c[2], c[3], c[4], c[5], c[6], c[7], s)
    ensures Slope(c, s)
         == Powers(c[1], 2.0 * c[2], 3.0 * c[3], 4.0 * c[4], 5.0 * c[5], 6.0 * c[6], 7.0 * c[7], 0.0, s)
  {
    hide Horner, Powers;
    Peel(c, s, 0);
    Peel(c, s, 1);
    Peel(c, s, 2);
    Peel(c, s, 3);
    Peel(c, s, 4);
    Peel(c, s, 5);
    Peel(c, s, 6);
    Peel(c, s, 7);
    assert c[0..] == c && c[8..] == [];
    HornerIsPowers(c[0], c[1], c[2], c[3], c[4], c[5], c[6], c[7], s);
    SlopeIsPowers(c[1], c[2], c[3], c[4], c[5], c[6], c[7], s);
  }

  function Powers(c0: real, c1: real, c2: real, c3: real, c4: real, c5: real, c6: real, c7: real, s: real): real {
    c0 + c1 * s + c2 * (s * s) + c3 * (s * s * s) + c4 * (s * s * s * s) + c5 * (s * s * s * s * s)
      + c6 * (s * s * s * s * s * s) + c7 * (s * s * s * s * s * s * s)
  }

  lemma HornerIsPowers(c0: real, c1: real, c2: real, c3: real, c4: real, c5: real, c6: real, c7: real, s: real)
    ensures Horner(c0, s, Horner(c1, s, Horner(c2, s, Horner(c3, s, Horner(c4, s,
              Horner(c5, s, Horner(c6, s, Horner(c7, s, 0.0))))))))
         == Powers(c0, c1, c2, c3, c4, c5, c6, c7, s)
  {
  }

  lemma SlopeIsPowers(c1: real, c2: real, c3: real, c4: real, c5: real, c6: real, c7: real, s: real)
    ensures var e8 := 0.0;
            var e7 := Horner(c7, s, e8);
            var e6 := Horner(c6, s, e7);
            var e5 := Horner(c5, s, e6);
            var e4 := Horner(c4, s, e5);
            var e3 := Horner(c3, s, e4);
            var e2 := Horner(c2, s, e3);
            var e1 := Horner(c1, s, e2);
            (Horner(e1, s, Horner(e2, s, Horner(e3, s, Horner(e4, s, Horner(e5, s,
              Horner(e6, s, Horner(e7, s, Horner(e8, s, 0.0))))))))
             == Powers(c1, 2.0 * c2, 3.0 * c3, 4.0 * c4, 5.0 * c5, 6.0 * c6, 7.0 * c7, 0.0, s))
  {
  }

  /** Velocity, acceleration and jerk are the successive derivatives of the position. */
  lemma SuccessiveDerivatives(s: real)
    ensures Eval(POSITION, s) == Profile(s)
    ensures Slope(POSITION, s) == Eval(VELOCITY, s) == ProfileVelocity(s)
    ensures Slope(VELOCITY, s) == Eval(ACCELERATION, s) == ProfileAcceleration(s)
    ensures Slope(ACCELERATION, s) == Eval(JERK, s) == ProfileJerk(s)
  {
    hide Eval, Slope;
    Closed(POSITION, s);
    Closed(VELOCITY, s);
    Closed(ACCELERATION, s);
    Closed(JERK, s);
  }

  // ---- bounds --------------------------------------------------------------

  function U(s: real): real {
    s * (1.0 - s)
  }

  lemma VelocityFactors(s: real, u: real)
    requires u == U(s)
    ensures ProfileVelocity(s) == 140.0 * (u * u * u)
  {
  }

  lemma AccelerationFactors(s: real, u: real, w: real)
    requires u == U(s) && w == 1.0 - 2.0 * s
    ensures ProfileAcceleration(s) == 420.0 * (u * u) * w
    ensures w * w == 1.0 - 4.0 * u
  {
  }

  lemma JerkFactors(s: real, u: real)
    requires u == U(s)
    ensures ProfileJerk(s) == 840.0 * u * (1.0 - 5.0 * u)
  {
  }

  lemma ProfileFactors(s: real, t: real)
    requires t == 1.0 - s
    ensures Profile(s) == (s * s * s * s) * (1.0 + 4.0 * t + 10.0 * (t * t) + 20.0 * (t * t * t))
    ensures Profile(s) + Profile(t) == 1.0
  {
  }

  lemma URange(s: real)
    requires 0.0 <= s <= 1.0
    ensures 0.0 <= U(s) <= 0.25
  {
    MulNonNegative(s, 1.0 - s);
    Square(s - 0.5);
    assert 0.25 - U(s) == (s - 0.5) * (s - 0.5);
  }

  lemma Square(x: real)
    ensures x * x >= 0.0
  {
    if x >= 0.0 {
      MulNonNegative(x, x);
    } else {
      MulNonNegative(-x, -x);
      assert (-x) * (-x) == x * x;
    }
  }

  lemma ProfileNonNegative(s: real)
    requires 0.0 <= s <= 1.0
    ensures Profile(s) >= 0.0
  {
    var t := 1.0 - s;
    ProfileFactors(s, t);
    Square(s * s);
    Square(t);
    MulNonNegative(t * t, t);
    Fourth(s);
    MulNonNegative(s * s * s * s, 1.0 + 4.0 * t + 10.0 * (t * t) + 20.0 * (t * t * t));
  }

  lemma Fourth(s: real)
    ensures s * s * s * s >= 0.0
  {
    Square(s * s);
    assert s * s * s * s == (s * s) * (s * s);
  }

  lemma ProfileInUnit(s: real)
    requires 0.0 <= s <= 1.0
    ensures 0.0 <= Profile(s) <= 1.0
  {
    ProfileNonNegative(s);
    ProfileNonNegative(1.0 - s);
    ProfileFactors(s, 1.0 - s);
  }

  lemma CubeBound(u: real, v: real, w: real)
    requires 0.0 <= u <= 0.25 && v == u * u && w == v * u
    ensures 0.0 <= v && 0.0 <= w <= 0.015625
  {
    BoundedProduct(u, 0.25, u, v);
    BoundedProduct(v, 0.0625, u, w);
  }

  lemma BoundedProduct(x: real, bound: real, k: real, product: real)
    requires 0.0 <= x <= bound && 0.0 <= k && product == x * k
    ensures 0.0 <= product <= bound * k
  {
    MulNonNegative(x, k);
    MulMonotone(x, bound, k);
  }

  lemma VelocityBound(s: real)
    requires 0.0 <= s <= 1.0
    ensures 0.0 <= ProfileVelocity(s) <= 35.0 / 16.0
  {
    URange(s);
    VelocityFactors(s, U(s));
    var u := U(s);
    CubeBound(u, u * u, u * u * u);
  }

  /** 1/3125 - u^4 (1 - 4u) has a double root at one fifth. */
  lemma QuinticBound(u: real)
    requires 0.0 <= u <= 0.25
    ensures u * u * (u * u) * (1.0 - 4.0 * u) <= 1.0 / 3125.0
  {
    var cofactor := 4.0 * (u * u * u) + 3.0 / 5.0 * (u * u) + 2.0 / 25.0 * u + 1.0 / 125.0;
    CubeBound(u, u * u, u * u * u);
    Square(u - 1.0 / 5.0);
    MulNonNegative((u - 1.0 / 5.0) * (u - 1.0 / 5.0), cofactor);
    QuinticIdentity(u);
  }

  lemma QuinticIdentity(u: real)
    ensures 1.0 / 3125.0 - u * u * (u * u) * (1.0 - 4.0 * u)
         == (u - 1.0 / 5.0) * (u - 1.0 / 5.0) * (4.0 * (u * u * u) + 3.0 / 5.0 * (u * u) + 2.0 / 25.0 * u + 1.0 / 125.0)
  {
  }

  lemma AccelerationBound(s: real)
    requires 0.0 <= s <= 1.0
    ensures ProfileAcceleration(s) * ProfileAcceleration(s) <= 7056.0 / 125.0
  {
    var u, w := U(s), 1.0 - 2.0 * s;
    URange(s);
    AccelerationFactors(s, u, w);
    QuinticBound(u);
    SquaredAcceleration(u, w, ProfileAcceleration(s));
  }

  lemma SquaredAcceleration(u: real, w: real, a: real)
    requires a == 420.0 * (u * u) * w && w * w == 1.0 - 4.0 * u
    requires u * u * (u * u) * (1.0 - 4.0 * u) <= 1.0 / 3125.0
    ensures a * a <= 7056.0 / 125.0
  {
    assert a * a == 176400.0 * (u * u * (u * u) * (w * w));
  }

  lemma JerkBound(s: real)
    requires 0.0 <= s <= 1.0
    ensures -52.5 <= ProfileJerk(s) <= 42.0
  {
    var u := U(s);
    URange(s);
    JerkFactors(s, u);
    MulNonNegative(1.0 - 4.0 * u, 1.0 + 20.0 * u);
    Square(1.0 - 10.0 * u);
    JerkIdentities(u);
  }

  lemma JerkIdentities(u: real)
    ensures 840.0 * u * (1.0 - 5.0 * u) + 52.5 == 52.5 * ((1.0 - 4.0 * u) * (1.0 + 20.0 * u))
    ensures 42.0 - 840.0 * u * (1.0 - 5.0 * u) == 42.0 * ((1.0 - 10.0 * u) * (1.0 - 10.0 * u))
  {
  }

  // ---- the scaled trajectory -----------------------------------------------

  /** Bounds of the whole motion, in terms of displacement and duration. */
  ghost predicate WithinBounds(x: TrajectorySample, start: real, displacement: real, duration: real)
    requires duration > 0.0
  {
    PowersNonZero(duration);
    && Min(start, start + displacement) <= x.position <= Max(start, start + displacement)
    && Abs(x.velocity) <= ScaledBy(Abs(displacement), 35.0 / 16.0, duration)
    && Squared(x.acceleration) <= 7056.0 / 125.0 * Squared(Ratio(displacement, Squared(duration)))
    && Abs(x.jerk) <= ScaledBy(Abs(displacement), 52.5, Cubed(duration))
  }

  lemma PhaseInUnit(duration: real, time: real)
    requires duration > 0.0
    ensures 0.0 <= Phase(duration, time) <= 1.0
  {
  }

  lemma ScaledIsBounded(d: real, p: real, t: real, bound: real)
    requires t > 0.0 && -bound <= p <= bound
    ensures Abs(ScaledBy(d, p, t)) <= ScaledBy(Abs(d), bound, t)
  {
    var top := Abs(d) * bound;
    ProductBounded(d, p, bound, top);
    QuotientMonotone(d * p, top, t);
    QuotientMonotone(-top, d * p, t);
    Negated(top, t);
  }

  lemma ProductBounded(d: real, p: real, bound: real, top: real)
    requires -bound <= p <= bound && top == Abs(d) * bound
    ensures -top <= d * p <= top
  {
    MulMonotone(p, bound, Abs(d));
    MulMonotone(-bound, p, Abs(d));
  }

  lemma Negated(x: real, t: real)
    requires t != 0.0
    ensures (-x) / t == -(x / t)
  {
    var k := x / t;
    assert k * t == x;
    assert (-k) * t == -x;
    DivideMultiply(-k, t);
  }

  lemma ScaledIsProduct(d: real, p: real, q: real, k: real)
    requires q != 0.0 && k == d / q
    ensures ScaledBy(d, p, q) == k * p
  {
    assert k * q == d;
    Regroup(k, p, q);
    DivideMultiply(k * p, q);
  }

  lemma Regroup(k: real, p: real, q: real)
    ensures k * q * p == (k * p) * q
  {
  }

  lemma SquareIsBounded(d: real, p: real, q: real, bound: real)
    requires q != 0.0 && p * p <= bound
    ensures Squared(ScaledBy(d, p, q)) <= bound * Squared(Ratio(d, q))
  {
    var k := Ratio(d, q);
    ScaledIsProduct(d, p, q, k);
    Square(k);
    SquareOfProduct(k, p, k * k, p * p, bound);
  }

  lemma SquareOfProduct(k: real, p: real, kk: real, pp: real, bound: real)
    requires kk == k * k && pp == p * p && kk >= 0.0 && pp <= bound
    ensures (k * p) * (k * p) <= bound * kk
  {
    MulMonotone(pp, bound, kk);
    assert (k * p) * (k * p) == (p * p) * (k * k);
  }

  lemma CubePositive(t: real)
    requires t > 0.0
    ensures Cubed(t) > 0.0
  {
    NonZeroProduct(t, t, Squared(t));
    NonZeroProduct(Squared(t), t, Cubed(t));
  }

  /** At every time the motion is inside its bounds. */
  lemma TrajectoryIsBounded(start: real, displacement: real, duration: real, time: real)
    requires duration > 0.0
    ensures WithinBounds(SepticState(start, displacement, duration, time), start, displacement, duration)
  {
    hide Profile, ProfileVelocity, ProfileAcceleration, ProfileJerk, Phase, Squared, Cubed, ScaledBy, Ratio;
    var s := Phase(duration, time);
    PhaseInUnit(duration, time);
    PowersNonZero(duration);
    CubePositive(duration);
    ProfileInUnit(s);
    VelocityBound(s);
    AccelerationBound(s);
    JerkBound(s);
    BetweenEnds(start, displacement, Profile(s));
    ScaledIsBounded(displacement, ProfileVelocity(s), duration, 35.0 / 16.0);
    SquareIsBounded(displacement, ProfileAcceleration(s), Squared(duration), 7056.0 / 125.0);
    ScaledIsBounded(displacement, ProfileJerk(s), Cubed(duration), 52.5);
  }

  lemma BetweenEnds(start: real, d: real, p: real)
    requires 0.0 <= p <= 1.0
    ensures Min(start, start + d) <= start + d * p <= Max(start, start + d)
  {
    BetweenBounds(start, start + d, p, Min(start, start + d), Max(start, start + d));
  }

  // ---- the way back --------------------------------------------------------

  lemma RatioIs(x: real, d: real, k: real)
    requires d != 0.0 && k * d == x
    ensures Ratio(x, d) == k
  {
    DivideMultiply(k, d);
  }

  lemma RatioMirrors(duration: real, time: real)
    requires duration > 0.0
    ensures Ratio(duration - time, duration) == 1.0 - Ratio(time, duration)
  {
    var k := Ratio(time, duration);
    assert k * duration == time;
    assert (1.0 - k) * duration == duration - time;
    RatioIs(duration - time, duration, 1.0 - k);
  }

  lemma PhaseMirrors(duration: real, time: real)
    requires duration > 0.0
    ensures Phase(duration, duration - time) == 1.0 - Phase(duration, time)
  {
    RatioMirrors(duration, time);
    hide Ratio;
  }

  lemma ProfileMirrors(s: real, t: real)
    requires t == 1.0 - s
    ensures Profile(t) == 1.0 - Profile(s) && ProfileVelocity(t) == ProfileVelocity(s)
    ensures ProfileAcceleration(t) == -ProfileAcceleration(s) && ProfileJerk(t) == ProfileJerk(s)
  {
    ProfileFactors(s, t);
    assert U(t) == U(s);
    VelocityFactors(s, U(s));
    VelocityFactors(t, U(s));
    AccelerationFactors(s, U(s), 1.0 - 2.0 * s);
    AccelerationFactors(t, U(s), 1.0 - 2.0 * t);
    JerkFactors(s, U(s));
    JerkFactors(t, U(s));
  }

  /** The return motion is the outward motion in reverse: at mirrored times the
      positions and accelerations agree, velocity and jerk change sign. */
  lemma ReturnMirrorsOutward(start: real, d: real, duration: real, time: real)
    requires duration > 0.0
    ensures var out := SepticState(start, d, duration, duration - time);
            var back := SepticState(start + d, -d, duration, time);
            && back.position == out.position && back.velocity == -out.velocity
            && back.acceleration == out.acceleration && back.jerk == -out.jerk
  {
    hide Profile, ProfileVelocity, ProfileAcceleration, ProfileJerk, Phase, Squared, Cubed, ScaledBy, Ratio;
    var s := Phase(duration, time);
    PhaseMirrors(duration, time);
    PowersNonZero(duration);
    ProfileMirrors(s, 1.0 - s);
    MirroredPosition(start, d, Profile(s), Profile(1.0 - s));
    MirroredScale(d, ProfileVelocity(s), duration);
    MirroredScale(d, ProfileJerk(s), Cubed(duration));
    TwiceMirrored(d, ProfileAcceleration(s), Squared(duration));
  }

  lemma MirroredPosition(start: real, d: real, p: real, q: real)
    requires q == 1.0 - p
    ensures start + d + (-d) * p == start + d * q
  {
  }

  lemma MirroredScale(d: real, p: real, t: real)
    requires t != 0.0
    ensures ScaledBy(-d, p, t) == -ScaledBy(d, p, t)
  {
    assert (-d) * p == -(d * p);
    Negated(d * p, t);
  }

  lemma TwiceMirrored(d: real, p: real, t: real)
    requires t != 0.0
    ensures ScaledBy(-d, p, t) == ScaledBy(d, -p, t)
  {
    assert (-d) * p == d * (-p);
  }

  lemma NothingScaled(d: real, t: real)
    requires t != 0.0
    ensures ScaledBy(d, 0.0, t) == 0.0
  {
  }

  lemma PhaseEnds(duration: real)
    requires duration > 0.0
    ensures Phase(duration, 0.0) == 0.0 && Phase(duration, duration) == 1.0
  {
    Fraction(0.0, duration);
    DivideMultiply(1.0, duration);
  }

  /** Both ends of the motion are exact and at rest. */
  lemma EndsAtRest(start: real, d: real, duration: real)
    requires duration > 0.0
    ensures SepticState(start, d, duration, 0.0) == TrajectorySample(start, 0.0, 0.0, 0.0)
    ensures SepticState(start, d, duration, duration) == TrajectorySample(start + d, 0.0, 0.0, 0.0)
  {
    hide Phase, Squared, Cubed, ScaledBy;
    PhaseEnds(duration);
    PowersNonZero(duration);
    NothingScaled(d, duration);
    NothingScaled(d, Squared(duration));
    NothingScaled(d, Cubed(duration));
  }
}
