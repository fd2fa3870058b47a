// The joint probe's sampled limit check and its command plan.

module PlanCheck {
  import opened Reals
  import opened SepticTrajectory

  const SAMPLES: nat := 2000
  const DISPLACEMENT: real := 0.25 * PI / 180.0
  const DURATION: real := 2.0
  const VELOCITY_LIMIT: real := 0.005
  const ACCELERATION_LIMIT: real := 0.010
  const JERK_LIMIT: real := 0.040

  function SampleAt(displacement: real, duration: real, i: nat): TrajectorySample
    requires duration > 0.0
  {
    SepticState(0.0, displacement, duration, i as real * duration / 2000.0)
  }

  function PeakVelocity(displacement: real, duration: real): real
    requires duration > 0.0
  {
    ScaledBy(Abs(displacement), 35.0 / 16.0, duration)
  }

  function PeakJerk(displacement: real, duration: real): real
    requires duration > 0.0
  {
    PowersNonZero(duration);
    ScaledBy(Abs(displacement), 52.5, Cubed(duration))
  }

  /** Half way through, velocity and jerk are at their extremes. */
  lemma PeaksAtHalf(displacement: real, duration: real)
    requires duration > 0.0
    ensures Abs(SampleAt(displacement, duration, 1000).velocity) == PeakVelocity(displacement, duration)
    ensures Abs(SampleAt(displacement, duration, 1000).jerk) == PeakJerk(displacement, duration)
  {
    RatioIs(1000.0 * duration / 2000.0, duration, 0.5);
    assert Phase(duration, 1000.0 * duration / 2000.0) == 0.5;
    HalfWay();
    PowersNonZero(duration);
    CubePositive(duration);
    hide ProfileVelocity, ProfileJerk, Phase, Cubed, Squared, ScaledBy;
    ScaledMagnitude(displacement, 35.0 / 16.0, duration);
    ScaledMagnitude(displacement, 52.5, Cubed(duration));
    ScaledSign(displacement, 52.5, Cubed(duration));
  }

  lemma HalfWay()
    ensures ProfileVelocity(0.5) == 35.0 / 16.0 && ProfileJerk(0.5) == -52.5
  {
  }

  lemma ScaledSign(d: real, p: real, t: real)
    requires t > 0.0
    ensures ScaledBy(d, -p, t) == -ScaledBy(d, p, t)
  {
    assert d * (-p) == -(d * p);
    Negated(d * p, t);
  }

  lemma ScaledMagnitude(d: real, p: real, t: real)
    requires t > 0.0 && p >= 0.0
    ensures Abs(ScaledBy(d, p, t)) == ScaledBy(Abs(d), p, t)
  {
    MulNonNegative(Abs(d), p);
    Fraction(Abs(d) * p, t);
    if d < 0.0 {
      assert d * p == -(Abs(d) * p);
      Negated(Abs(d) * p, t);
    }
  }

  /** The running maxima over the 2001 samples. Those of velocity and jerk are
      the exact peaks of the whole motion. */
  method SampledPeaks(displacement: real, duration: real) returns (maxV: real, maxA: real, maxJ: real)
    requires duration > 0.0
    ensures maxV == PeakVelocity(displacement, duration)
    ensures maxJ == PeakJerk(displacement, duration)
    ensures forall i | 0 <= i <= SAMPLES :: Abs(SampleAt(displacement, duration, i).acceleration) <= maxA
    ensures exists i | 0 <= i <= SAMPLES :: Abs(SampleAt(displacement, duration, i).acceleration) == maxA
  {
    hide SepticState, PeakVelocity, PeakJerk;
    maxV, maxA, maxJ := 0.0, 0.0, 0.0;
    ghost var at := 0;
    for i := 0 to SAMPLES + 1
      invariant 0.0 <= maxV <= PeakVelocity(displacement, duration) || i == 0
      invariant maxJ <= PeakJerk(displacement, duration) || i == 0
      invariant i == 0 ==> maxV == maxA == maxJ == 0.0
      invariant forall k | 0 <= k < i :: Abs(SampleAt(displacement, duration, k).velocity) <= maxV
      invariant forall k | 0 <= k < i :: Abs(SampleAt(displacement, duration, k).jerk) <= maxJ
      invariant forall k | 0 <= k < i :: Abs(SampleAt(displacement, duration, k).acceleration) <= maxA
      invariant 0 <= at <= SAMPLES && (i > 0 ==> at < i && Abs(SampleAt(displacement, duration, at).acceleration) == maxA)
    {
      var s := SampleAt(displacement, duration, i);
      SampleIsBounded(displacement, duration, i);
      if i == 0 || Abs(s.acceleration) > maxA {
        at := i;
      }
      maxV := Max(maxV, Abs(s.velocity));
      maxA := Max(maxA, Abs(s.acceleration));
      maxJ := Max(maxJ, Abs(s.jerk));
    }
    PeaksAtHalf(displacement, duration);
  }

  lemma SampleIsBounded(displacement: real, duration: real, i: nat)
    requires duration > 0.0
    ensures Abs(SampleAt(displacement, duration, i).velocity) <= PeakVelocity(displacement, duration)
    ensures Abs(SampleAt(displacement, duration, i).jerk) <= PeakJerk(displacement, duration)
  {
    TrajectoryIsBounded(0.0, displacement, duration, i as real * duration / 2000.0);
  }

  /** What the samples must obey. */
  ghost predicate Accepted(displacement: real, duration: real, velocity: real, acceleration: real, jerk: real)
    requires duration > 0.0
  {
    && PeakVelocity(displacement, duration) <= velocity && PeakJerk(displacement, duration) <= jerk
    && forall i | 0 <= i <= SAMPLES :: Abs(SampleAt(displacement, duration, i).acceleration) <= acceleration
  }

  /** Whether the plan is within its three limits, by sampling. */
  method CheckLimits(displacement: real, duration: real, velocity: real, acceleration: real, jerk: real) returns (ok: bool)
    requires duration > 0.0
    ensures ok <==> Accepted(displacement, duration, velocity, acceleration, jerk)
    ensures Allows(displacement, duration, velocity, acceleration, jerk) ==> ok
  {
    hide PeakVelocity, PeakJerk, SepticState, Allows;
    if Allows(displacement, duration, velocity, acceleration, jerk) {
      AllowedIsAccepted(displacement, duration, velocity, acceleration, jerk);
    }
    var maxV, maxA, maxJ := SampledPeaks(displacement, duration);
    ok := !(maxV > velocity || maxA > acceleration || maxJ > jerk);
  }

  /** The velocity and jerk limits hold at every time exactly when the peaks
      obey them, so sampling decides them. */
  lemma PeaksDecide(displacement: real, duration: real, velocity: real, jerk: real)
    requires duration > 0.0
    ensures PeakVelocity(displacement, duration) <= velocity && PeakJerk(displacement, duration) <= jerk
       <==> forall t :: var x := SepticState(0.0, displacement, duration, t); Abs(x.velocity) <= velocity && Abs(x.jerk) <= jerk
  {
    PeaksAtHalf(displacement, duration);
    forall t
      ensures Abs(SepticState(0.0, displacement, duration, t).velocity) <= PeakVelocity(displacement, duration)
      ensures Abs(SepticState(0.0, displacement, duration, t).jerk) <= PeakJerk(displacement, duration)
    {
      TrajectoryIsBounded(0.0, displacement, duration, t);
    }
    hide SepticState, PeakVelocity, PeakJerk;
  }

  /** What the three limits ask of displacement and duration. */
  ghost predicate Allows(displacement: real, duration: real, velocity: real, acceleration: real, jerk: real)
    requires duration > 0.0
  {
    PowersNonZero(duration);
    && PeakVelocity(displacement, duration) <= velocity && PeakJerk(displacement, duration) <= jerk
    && acceleration >= 0.0
    && 7056.0 / 125.0 * Squared(Ratio(displacement, Squared(duration))) <= Squared(acceleration)
  }

  /** A motion its limits allow obeys all three of them at every time. */
  lemma LimitsHold(start: real, displacement: real, duration: real, velocity: real, acceleration: real, jerk: real,
                   time: real)
    requires duration > 0.0 && Allows(displacement, duration, velocity, acceleration, jerk)
    ensures var x := SepticState(start, displacement, duration, time);
            Abs(x.velocity) <= velocity && Abs(x.acceleration) <= acceleration && Abs(x.jerk) <= jerk
  {
    hide SepticState;
    TrajectoryIsBounded(start, displacement, duration, time);
    SquareRootBound(SepticState(start, displacement, duration, time).acceleration, acceleration);
  }

  /** A motion its limits allow passes the sampled check. */
  lemma AllowedIsAccepted(displacement: real, duration: real, velocity: real, acceleration: real, jerk: real)
    requires duration > 0.0 && Allows(displacement, duration, velocity, acceleration, jerk)
    ensures Accepted(displacement, duration, velocity, acceleration, jerk)
  {
    forall i | 0 <= i <= SAMPLES
      ensures Abs(SampleAt(displacement, duration, i).acceleration) <= acceleration
    {
      LimitsHold(0.0, displacement, duration, velocity, acceleration, jerk, i as real * duration / 2000.0);
    }
  }

  /** The planned quarter-degree motion is one its limits allow, and the check
      accepts it. */
  lemma PlannedMotionIsAllowed()
    ensures Allows(DISPLACEMENT, DURATION, VELOCITY_LIMIT, ACCELERATION_LIMIT, JERK_LIMIT)
    ensures Accepted(DISPLACEMENT, DURATION, VELOCITY_LIMIT, ACCELERATION_LIMIT, JERK_LIMIT)
  {
    AllowedIsAccepted(DISPLACEMENT, DURATION, VELOCITY_LIMIT, ACCELERATION_LIMIT, JERK_LIMIT) by {
      assert Allows(DISPLACEMENT, DURATION, VELOCITY_LIMIT, ACCELERATION_LIMIT, JERK_LIMIT);
    }
  }

  lemma SquareRootBound(x: real, bound: real)
    requires bound >= 0.0 && Squared(x) <= Squared(bound)
    ensures Abs(x) <= bound
  {
    if Abs(x) > bound {
      Beyond(Abs(x), bound, Squared(x), Squared(bound));
    }
  }

  lemma Beyond(x: real, bound: real, xx: real, bb: real)
    requires x > bound >= 0.0 && xx == x * x && bb == bound * bound
    ensures xx > bb
  {
    NonZeroProduct(x - bound, x + bound, (x - bound) * (x + bound));
  }
}

module ProbePlan {
  import opened Reals
  import opened Joints
  import opened SepticTrajectory
  import PlanCheck

  const JOINT: nat := 5
  const DT: real := 0.008
  const SLACK: real := 0.000000000000001

  datatype Leg = Outward | Hold | Return | Settle

  datatype PlanPoint = PlanPoint(q: Vector, v: Vector, a: Vector, leg: Leg)

  /** Displacement, duration and point counts of a profile. */
  datatype Timing = Timing(displacement: real, duration: real, steps: nat, holds: nat, settles: nat)

  /** Rounding to the nearest integer, halves away from zero. */
  function Rounded(x: real): int {
    if x >= 0.0 then (x + 0.5).Floor else -((-x + 0.5).Floor)
  }

  /** The two profiles; their point counts come out even. */
  function TimingOf(five: bool): (t: Timing)
    ensures t.steps > 0 && t.duration > 0.0 && t.displacement > 0.0 && t.steps as real * DT == t.duration
    ensures Total(t) == if five then 1439 else 551
  {
    assert Rounded(2.0 / DT) == 250 && Rounded(0.4 / DT) == 50;
    assert Rounded(5.0 / DT) == 625 && Rounded(1.0 / DT) == 125 && Rounded(0.5 / DT) == 63;
    if five then Timing(5.0 * PI / 180.0, 5.0, Rounded(5.0 / DT), Rounded(1.0 / DT), Rounded(0.5 / DT))
    else Timing(PlanCheck.DISPLACEMENT, 2.0, Rounded(2.0 / DT), Rounded(0.4 / DT), 0)
  }

  function Total(t: Timing): nat {
    t.steps + 1 + t.holds + t.steps + t.settles
  }

  function At(start: Vector, s: TrajectorySample, leg: Leg): PlanPoint {
    PlanPoint(start[JOINT := s.position], ZERO[JOINT := s.velocity], ZERO[JOINT := s.acceleration], leg)
  }

  function OutwardPoint(start: Vector, t: Timing, i: nat): PlanPoint
    requires t.duration > 0.0
  {
    At(start, SepticState(start[JOINT], t.displacement, t.duration, i as real * DT), Outward)
  }

  function ReturnPoint(start: Vector, t: Timing, i: nat): PlanPoint
    requires t.duration > 0.0
  {
    At(start, SepticState(start[JOINT] + t.displacement, -t.displacement, t.duration, i as real * DT), Return)
  }

  function HoldPoint(start: Vector, t: Timing): PlanPoint {
    PlanPoint(start[JOINT := start[JOINT] + t.displacement], ZERO, ZERO, Hold)
  }

  function SettlePoint(start: Vector): PlanPoint {
    PlanPoint(start, ZERO, ZERO, Settle)
  }

  /** Point n of the whole plan. */
  function PointAt(start: Vector, t: Timing, n: nat): PlanPoint
    requires t.duration > 0.0
  {
    if n <= t.steps then OutwardPoint(start, t, n)
    else if n <= t.steps + t.holds then HoldPoint(start, t)
    else if n <= t.steps + t.holds + t.steps then ReturnPoint(start, t, n - t.steps - t.holds)
    else SettlePoint(start)
  }

  /** The plan, written leg by leg into one preallocated vector. */
  method MakePlan(start: Vector, five: bool) returns (p: array<PlanPoint>)
    ensures fresh(p) && p.Length == Total(TimingOf(five)) == if five then 1439 else 551
    ensures forall n | 0 <= n < p.Length :: p[n] == PointAt(start, TimingOf(five), n)
  {
    hide TimingOf;
    var t := TimingOf(five);
    hide OutwardPoint, ReturnPoint, HoldPoint, SettlePoint;
    p := new PlanPoint[Total(t)](_ => PlanPoint(ZERO, ZERO, ZERO, Outward));
    var n := 0;
    for i := 0 to t.steps + 1
      invariant n == i
      invariant forall k | 0 <= k < n :: p[k] == PointAt(start, t, k)
    {
      p[n] := OutwardPoint(start, t, i);
      n := n + 1;
    }
    for i := 0 to t.holds
      invariant n == t.steps + 1 + i
      invariant forall k | 0 <= k < n :: p[k] == PointAt(start, t, k)
    {
      p[n] := HoldPoint(start, t);
      n := n + 1;
    }
    for i := 1 to t.steps + 1
      invariant n == t.steps + t.holds + i
      invariant forall k | 0 <= k < n :: p[k] == PointAt(start, t, k)
    {
      p[n] := ReturnPoint(start, t, i);
      n := n + 1;
    }
    for i := 0 to t.settles
      invariant n == t.steps + 1 + t.holds + t.steps + i
      invariant forall k | 0 <= k < n :: p[k] == PointAt(start, t, k)
    {
      p[n] := SettlePoint(start);
      n := n + 1;
    }
  }

  // ---- validation ----------------------------------------------------------

  /** Only the probed joint moves, and it stays within the displacement. */
  predicate PointIsValid(p: PlanPoint, start: Vector, displacement: real) {
    && (forall j | 0 <= j < 6 && j != JOINT :: p.q[j] == start[j] && p.v[j] == 0.0 && p.a[j] == 0.0)
    && -SLACK <= p.q[JOINT] - start[JOINT] <= displacement + SLACK
  }

  predicate PlanIsValid(plan: seq<PlanPoint>, start: Vector, displacement: real) {
    && plan != [] && plan[0].q == start && plan[|plan| - 1].q == start
    && forall n | 0 <= n < |plan| :: PointIsValid(plan[n], start, displacement)
  }

  method ValidatePlan(plan: array<PlanPoint>, start: Vector, displacement: real) returns (valid: bool)
    ensures valid <==> PlanIsValid(plan[..], start, displacement)
  {
    if plan.Length == 0 {
      return false;
    }
    var first := MaximumAbsoluteDelta(plan[0].q, start);
    if first != 0.0 {
      return false;
    }
    for n := 0 to plan.Length
      invariant forall k | 0 <= k < n :: PointIsValid(plan[k], start, displacement)
    {
      var ok := ValidatePoint(plan[n], start, displacement);
      if !ok {
        assert !PointIsValid(plan[..][n], start, displacement);
        return false;
      }
    }
    var last := MaximumAbsoluteDelta(plan[plan.Length - 1].q, start);
    return last == 0.0;
  }

  method ValidatePoint(p: PlanPoint, start: Vector, displacement: real) returns (ok: bool)
    ensures ok <==> PointIsValid(p, start, displacement)
  {
    for j := 0 to 6
      invariant forall k | 0 <= k < j && k != JOINT :: p.q[k] == start[k] && p.v[k] == 0.0 && p.a[k] == 0.0
    {
      if j != JOINT && (p.q[j] != start[j] || p.v[j] != 0.0 || p.a[j] != 0.0) {
        return false;
      }
    }
    var delta := p.q[JOINT] - start[JOINT];
    return !(delta < -SLACK || delta > displacement + SLACK);
  }

  method MaximumAbsoluteDelta(x: Vector, y: Vector) returns (m: real)
    ensures m == 0.0 <==> x == y
  {
    m := 0.0;
    for j := 0 to 6
      invariant m >= 0.0
      invariant m == 0.0 <==> forall k | 0 <= k < j :: x[k] == y[k]
    {
      m := Max(m, Abs(x[j] - y[j]));
    }
    if m == 0.0 {
      VectorsEqual(x, y);
    }
  }

  /** A valid plan never commands more than the displacement and twice the
      rounding slack between any two of its points, and only on the probed joint. */
  lemma ValidPlanStaysTogether(plan: seq<PlanPoint>, start: Vector, displacement: real, i: nat, k: nat)
    requires PlanIsValid(plan, start, displacement) && i < |plan| && k < |plan|
    ensures forall j | 0 <= j < 6 && j != 5 :: plan[i].q[j] == plan[k].q[j] == start[j] && plan[i].v[j] == 0.0
    ensures Abs(plan[i].q[5] - plan[k].q[5]) <= displacement + 0.000000000000002
    ensures Abs(plan[i].q[5] - start[5]) <= Max(0.0, displacement) + 0.000000000000001
  {
    assert PointIsValid(plan[i], start, displacement) && PointIsValid(plan[k], start, displacement);
  }

  // ---- the plan is always valid --------------------------------------------

  lemma OutwardIsValid(start: Vector, t: Timing, i: nat)
    requires t.displacement > 0.0 && t.duration > 0.0
    ensures PointIsValid(OutwardPoint(start, t, i), start, t.displacement)
    ensures PointIsValid(ReturnPoint(start, t, i), start, t.displacement)
  {
    TrajectoryIsBounded(start[JOINT], t.displacement, t.duration, i as real * DT);
    TrajectoryIsBounded(start[JOINT] + t.displacement, -t.displacement, t.duration, i as real * DT);
    hide SepticState;
  }

  lemma PointsAreValid(start: Vector, t: Timing, n: nat)
    requires t.displacement > 0.0 && t.duration > 0.0
    ensures PointIsValid(PointAt(start, t, n), start, t.displacement)
  {
    if n <= t.steps {
      OutwardIsValid(start, t, n);
    } else if t.steps + t.holds < n {
      OutwardIsValid(start, t, n - t.steps - t.holds);
    }
  }

  /** The plan begins and ends at the start vector, at rest. */
  lemma PlanEnds(start: Vector, t: Timing)
    requires t.steps > 0 && t.duration > 0.0 && t.steps as real * DT == t.duration
    ensures PointAt(start, t, 0) == PlanPoint(start, ZERO, ZERO, Outward)
    ensures PointAt(start, t, Total(t) - 1).q == start
    ensures PointAt(start, t, Total(t) - 1).v == ZERO && PointAt(start, t, Total(t) - 1).a == ZERO
  {
    hide SepticState;
    EndsAtRest(start[JOINT], t.displacement, t.duration);
    EndsAtRest(start[JOINT] + t.displacement, -t.displacement, t.duration);
    assert 0 as real * DT == 0.0;
    assert start[JOINT := start[JOINT]] == start && ZERO[JOINT := 0.0] == ZERO;
  }

  /** Every plan made of the profile's points is one the validation accepts. */
  lemma WholePlanIsValid(plan: seq<PlanPoint>, start: Vector, t: Timing)
    requires t.steps > 0 && t.duration > 0.0 && t.displacement > 0.0 && t.steps as real * DT == t.duration
    requires |plan| == Total(t) && forall n | 0 <= n < |plan| :: plan[n] == PointAt(start, t, n)
    ensures PlanIsValid(plan, start, t.displacement)
  {
    hide PointAt, PointIsValid;
    PlanEnds(start, t);
    forall n | 0 <= n < |plan|
      ensures PointIsValid(plan[n], start, t.displacement)
    {
      PointsAreValid(start, t, n);
    }
  }

  /** The two profiles: a quarter of a degree out and back in 2 s each after
      0.4 s of hold, or five degrees in 5 s each with 1 s of hold and half a
      second to settle, in points 8 ms apart. */
  lemma ProfileMeans(five: bool)
    ensures var t := TimingOf(five);
            && t.displacement == (if five then 5.0 else 0.25) * PI / 180.0
            && t.duration == (if five then 5.0 else 2.0)
            && t.steps == (if five then 625 else 250) && t.holds == (if five then 125 else 50)
            && t.settles == (if five then 63 else 0)
    ensures DT == 0.008
  {
    assert Rounded(2.0 / DT) == 250 && Rounded(0.4 / DT) == 50;
    assert Rounded(5.0 / DT) == 625 && Rounded(1.0 / DT) == 125 && Rounded(0.5 / DT) == 63;
  }

  /** The plan's four legs by their points: out along the profile, at the
      displaced position, back along it, and at the start again. */
  lemma LegsMean(start: Vector, t: Timing, n: nat)
    requires t.duration > 0.0 && t.displacement > 0.0 && t.steps as real * DT == t.duration && n < Total(t)
    ensures var p := PointAt(start, t, n);
            var away := start[JOINT := start[JOINT] + t.displacement];
            && (n == 0 ==> p.leg == Outward && p.q == start)
            && (n == t.steps ==> p.leg == Outward && p.q == away)
            && (t.steps < n <= t.steps + t.holds ==> p.leg == Hold && p.q == away && p.v == p.a == ZERO)
            && (n == t.steps + t.holds + t.steps && t.steps > 0 ==> p.leg == Return && p.q == start)
            && (n > t.steps + t.holds + t.steps ==> p.leg == Settle && p.q == start && p.v == p.a == ZERO)
  {
    hide SepticState;
    EndsAtRest(start[JOINT], t.displacement, t.duration);
    EndsAtRest(start[JOINT] + t.displacement, -t.displacement, t.duration);
    assert 0 as real * DT == 0.0;
    assert start[JOINT := start[JOINT]] == start;
  }

  /** Whatever the start, both profiles' plans pass validation. */
  method PlanAndValidate(start: Vector, five: bool) returns (plan: array<PlanPoint>, valid: bool)
    ensures fresh(plan) && plan.Length == Total(TimingOf(five))
    ensures forall n | 0 <= n < plan.Length :: plan[n] == PointAt(start, TimingOf(five), n)
    ensures valid && PlanIsValid(plan[..], start, TimingOf(five).displacement)
  {
    hide PointAt, PointIsValid, PlanIsValid, TimingOf;
    plan := MakePlan(start, five);
    WholePlanIsValid(plan[..], start, TimingOf(five));
    valid := ValidatePlan(plan, start, TimingOf(five).displacement);
  }

  /** The return leg commands the outward leg's vectors in reverse order, with
      the velocities negated. */
  lemma ReturnLegIsReversed(start: Vector, t: Timing, k: nat)
    requires t.duration > 0.0 && t.steps as real * DT == t.duration && 1 <= k <= t.steps
    ensures var back := PointAt(start, t, t.steps + t.holds + k);
            var out := PointAt(start, t, t.steps - k);
            && back.leg == Return && out.leg == Outward
            && back.q == out.q && back.a == out.a && back.v == ZERO[JOINT := -out.v[JOINT]]
  {
    hide SepticState;
    ReturnMirrorsOutward(start[JOINT], t.displacement, t.duration, k as real * DT);
    assert (t.steps - k) as real * DT == t.duration - k as real * DT;
  }
}
