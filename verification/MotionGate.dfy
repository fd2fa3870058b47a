// The finite-difference gate in front of the controller. The worker and the
// resampler library each carry a copy of it; the arithmetic is defined once.

module MotionGate {
  import opened Results
  import opened Reals
  import opened Joints
  import opened ServoPoints
  import opened TransitionLimiter

  /** Finite differences of one candidate position against the last command. */
  datatype Sample = Sample(velocity: Vector, acceleration: Vector, jerk: Vector)

  const STILL: Sample := Sample(ZERO, ZERO, ZERO)

  /** The last dispatched command and its finite differences. */
  datatype History = History(position: Vector, velocity: Vector, acceleration: Vector) {
    function Joint(j: nat): Motion
      requires j < 6
    {
      At(position, velocity, acceleration, j)
    }
  }

  function Jerk(position: real, m: Motion, dt: real): real
    requires dt > 0.0
  {
    (Measured(position, m, dt).acceleration - m.acceleration) / dt
  }

  function Differences(position: Vector, h: History, dt: real): Sample
    requires dt > 0.0
  {
    Sample(seq(6, j requires 0 <= j < 6 => Measured(position[j], h.Joint(j), dt).velocity),
           seq(6, j requires 0 <= j < 6 => Measured(position[j], h.Joint(j), dt).acceleration),
           seq(6, j requires 0 <= j < 6 => Jerk(position[j], h.Joint(j), dt)))
  }

  function Advance(position: Vector, sample: Sample): History {
    History(position, sample.velocity, sample.acceleration)
  }

  function Seconds(from: nat, to: nat): real
    requires from <= to
  {
    (to - from) as real / 1000000000.0
  }

  lemma SecondsPositive(from: nat, to: nat)
    requires from < to
    ensures Seconds(from, to) > 0.0
  {
  }

  method ComputeDifferences(position: Vector, h: History, dt: real) returns (sample: Sample)
    requires dt > 0.0
    ensures sample == Differences(position, h, dt)
  {
    var velocity, acceleration, jerk := ZERO, ZERO, ZERO;
    ghost var d := Differences(position, h, dt);
    for joint := 0 to 6
      invariant |velocity| == 6 && |acceleration| == 6 && |jerk| == 6
      invariant forall j | 0 <= j < joint ::
        velocity[j] == d.velocity[j] && acceleration[j] == d.acceleration[j] && jerk[j] == d.jerk[j]
    {
      var v := (position[joint] - h.position[joint]) / dt;
      var a := (v - h.velocity[joint]) / dt;
      velocity := velocity[joint := v];
      acceleration := acceleration[joint := a];
      jerk := jerk[joint := (a - h.acceleration[joint]) / dt];
    }
    VectorsEqual(velocity, d.velocity);
    VectorsEqual(acceleration, d.acceleration);
    VectorsEqual(jerk, d.jerk);
    return Sample(velocity, acceleration, jerk);
  }

  predicate Exceeds(values: Vector, limits: Vector) {
    exists j | 0 <= j < 6 :: Abs(values[j]) > limits[j] + SLACK
  }

  predicate ExceedsScalar(values: Vector, limit: real) {
    exists j | 0 <= j < 6 :: Abs(values[j]) > limit + SLACK
  }

  /** Any joint outside the velocity, recoverable acceleration or nominal jerk limit. */
  predicate TransitionRequired(sample: Sample, velocity: Vector, recoverable: real, jerk: real) {
    || Exceeds(sample.velocity, velocity)
    || ExceedsScalar(sample.acceleration, recoverable)
    || ExceedsScalar(sample.jerk, jerk)
  }

  /** What the final gate lets through. */
  predicate WithinFinalBoundaries(sample: Sample, velocity: Vector, hard: real, jerk: real) {
    && (forall j | 0 <= j < 6 :: Abs(sample.velocity[j]) <= velocity[j] + SLACK)
    && (forall j | 0 <= j < 6 :: Abs(sample.acceleration[j]) <= hard + SLACK)
    && (forall j | 0 <= j < 6 :: JerkWithinBoundary(sample.jerk[j], jerk))
  }

  /** The first joint's first violation, in the order the library checks them. */
  function FinalGate(sample: Sample, velocity: Vector, hard: real, jerk: real, j: nat := 0): Option<Error>
    requires j <= 6
    decreases 6 - j
  {
    if j == 6 then None
    else if Abs(sample.velocity[j]) > velocity[j] + SLACK then Some(VelocityBoundary)
    else if Abs(sample.acceleration[j]) > hard + SLACK then Some(AccelerationBoundary)
    else if !JerkWithinBoundary(sample.jerk[j], jerk) then Some(JerkBoundary)
    else FinalGate(sample, velocity, hard, jerk, j + 1)
  }

  /** The gate is silent exactly inside the boundaries, and names a real violation otherwise. */
  lemma {:induction false} FinalGateMeaning(sample: Sample, velocity: Vector, hard: real, jerk: real, j: nat := 0)
    requires j <= 6
    ensures FinalGate(sample, velocity, hard, jerk, j).None? <==>
              forall k | j <= k < 6 :: && Abs(sample.velocity[k]) <= velocity[k] + SLACK
                                       && Abs(sample.acceleration[k]) <= hard + SLACK
                                       && JerkWithinBoundary(sample.jerk[k], jerk)
    ensures FinalGate(sample, velocity, hard, jerk, j) == Some(VelocityBoundary) ==>
              exists k | j <= k < 6 :: Abs(sample.velocity[k]) > velocity[k] + SLACK
    ensures FinalGate(sample, velocity, hard, jerk, j) == Some(AccelerationBoundary) ==>
              exists k | j <= k < 6 :: Abs(sample.acceleration[k]) > hard + SLACK
    ensures FinalGate(sample, velocity, hard, jerk, j) == Some(JerkBoundary) ==>
              exists k | j <= k < 6 :: !JerkWithinBoundary(sample.jerk[k], jerk)
    ensures FinalGate(sample, velocity, hard, jerk, j) in
              {None, Some(VelocityBoundary), Some(AccelerationBoundary), Some(JerkBoundary)}
    decreases 6 - j
  {
    if j < 6 {
      FinalGateMeaning(sample, velocity, hard, jerk, j + 1);
    }
  }

  method RequireFinalBoundaries(sample: Sample, velocity: Vector, hard: real, jerk: real) returns (error: Option<Error>)
    ensures error == FinalGate(sample, velocity, hard, jerk)
    ensures error.None? <==> WithinFinalBoundaries(sample, velocity, hard, jerk)
  {
    FinalGateMeaning(sample, velocity, hard, jerk);
    for joint := 0 to 6
      invariant FinalGate(sample, velocity, hard, jerk) == FinalGate(sample, velocity, hard, jerk, joint)
    {
      if Abs(sample.velocity[joint]) > velocity[joint] + SLACK {
        return Some(VelocityBoundary);
      }
      if Abs(sample.acceleration[joint]) > hard + SLACK {
        return Some(AccelerationBoundary);
      }
      if !JerkWithinBoundary(sample.jerk[joint], jerk) {
        return Some(JerkBoundary);
      }
    }
    return None;
  }

  /** The final boundaries in numbers: 1e-12 of slack on velocity and
      acceleration, and on jerk 1e-6 plus 2.5e-7 of the limit. */
  lemma BoundariesInNumbers(sample: Sample, velocity: Vector, hard: real, jerk: real)
    requires jerk >= 0.0
    ensures WithinFinalBoundaries(sample, velocity, hard, jerk)
       <==> forall j | 0 <= j < 6 ::
              && -velocity[j] - 0.000000000001 <= sample.velocity[j] <= velocity[j] + 0.000000000001
              && -hard - 0.000000000001 <= sample.acceleration[j] <= hard + 0.000000000001
              && -1.00000025 * jerk - 0.000001 <= sample.jerk[j] <= 1.00000025 * jerk + 0.000001
  {
  }

  // ---- the shaper against the gate -----------------------------------------

  /** The acceleration overhang of a previous command fits into the jerk boundary over dt. */
  predicate Room(recoverable: real, jerk: real, dt: real) {
    AccelerationMargin(recoverable) + SLACK <= dt * JerkBoundaryWithTolerance(jerk)
  }

  /** A shaped point never exceeds the recoverable acceleration, and its jerk
      is inside the final boundary whenever the overhang has room. */
  lemma ShapedPassesGate(proposed: real, m: Motion, dt: real, recoverable: real, jerk: real)
    requires dt > 0.0 && recoverable > BOUNDARY_MARGIN && jerk > 0.0
    requires Abs(m.acceleration) <= recoverable + SLACK && Room(recoverable, jerk, dt)
    ensures AccelerationTarget(recoverable) > 0.0
    ensures var p := Shaped(proposed, m, dt, AccelerationTarget(recoverable), JerkTarget(jerk)).position;
            && Abs(Measured(p, m, dt).acceleration) <= recoverable
            && JerkWithinBoundary(Jerk(p, m, dt), jerk)
  {
    TargetIsInside(recoverable);
    JerkTargetIsInside(jerk);
    ShapedJerkBounded(proposed, m, dt, AccelerationTarget(recoverable), JerkTarget(jerk),
                      JerkBoundaryWithTolerance(jerk), AccelerationMargin(recoverable) + SLACK);
  }

  lemma ShapedJerkBounded(proposed: real, m: Motion, dt: real, a: real, target: real, bound: real, room: real)
    requires dt > 0.0 && a > 0.0 && 0.0 < target <= bound
    requires Abs(m.acceleration) - a <= room <= dt * bound
    ensures var p := Shaped(proposed, m, dt, a, target).position;
            && Abs(Measured(p, m, dt).acceleration) <= a
            && Abs(Jerk(p, m, dt)) <= bound
  {
    ShapedEnvelope(proposed, m, dt, a, target);
    MeasuredIsShaped(proposed, m, dt, a, target);
    var x := ShapedAcceleration(proposed, m, dt, a, target);
    ChangeFits(x - m.acceleration, target, bound, dt, Abs(m.acceleration) - a, room);
    JerkOf(Shaped(proposed, m, dt, a, target), m, dt, bound, x);
  }

  lemma JerkOf(s: Motion, m: Motion, dt: real, bound: real, x: real)
    requires dt > 0.0 && Measured(s.position, m, dt) == s && s.acceleration == x
    requires Abs((x - m.acceleration) / dt) <= bound
    ensures Abs(Jerk(s.position, m, dt)) <= bound
  {
  }

  lemma TargetIsInside(recoverable: real)
    requires recoverable > BOUNDARY_MARGIN
    ensures 0.0 < AccelerationTarget(recoverable) < recoverable
    ensures AccelerationTarget(recoverable) == recoverable - AccelerationMargin(recoverable)
  {
  }

  lemma JerkTargetIsInside(jerk: real)
    requires jerk > 0.0
    ensures 0.0 < JerkTarget(jerk) <= JerkBoundaryWithTolerance(jerk)
  {
  }

  lemma ChangeFits(change: real, target: real, bound: real, dt: real, overhang: real, room: real)
    requires target <= bound && dt > 0.0
    requires overhang <= room <= dt * bound
    requires Abs(change) <= Max(target * dt, overhang)
    ensures Abs(change / dt) <= bound
  {
    MulMonotone(target, bound, dt);
    DividedBound(change, dt, bound);
  }

  lemma DividedBound(x: real, d: real, bound: real)
    requires d > 0.0 && Abs(x) <= d * bound
    ensures Abs(x / d) <= bound
  {
    QuotientMonotone(x, d * bound, d);
    QuotientMonotone(-(d * bound), x, d);
    DivideMultiply(bound, d);
    assert -(d * bound) / d == -bound;
  }

  /** Whatever needs no shaping already satisfies the final gate. */
  lemma UnshapedPassesGate(sample: Sample, velocity: Vector, recoverable: real, hard: real, jerk: real)
    requires !TransitionRequired(sample, velocity, recoverable, jerk)
    requires recoverable <= hard && jerk > 0.0
    ensures WithinFinalBoundaries(sample, velocity, hard, jerk)
    ensures forall j | 0 <= j < 6 :: Abs(sample.acceleration[j]) <= recoverable + SLACK
  {
  }
}
