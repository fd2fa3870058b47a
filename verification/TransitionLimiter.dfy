// The transition shaper of the servo output path: a critically damped tracker
// whose acceleration and change of acceleration are clamped, and the final
// jerk boundary it must stay below.

module ServoPoints {
  import opened Joints

  datatype Error =
    | InvalidPeriod
    | NotInitialized
    | NoAcceptedTarget
    | JointLimitViolation
    | InvalidTimestamp
    | TimestampNotMonotonic
    | SequenceNotMonotonic
    | ServoTimeBackwards
    | DurationOverflow
    | InvalidTimestep
    | InvalidTransitionLimits
    | DegenerateBoundary
    | NotConfigured
    | CommandTimeBackwards
    | VelocityBoundary
    | AccelerationBoundary
    | JerkBoundary
    | RecoverableBoundary

  /** One evaluated servo point, as handed to the controller. */
  datatype Point = Point(
    position: Vector,
    segmentVelocity: Vector,
    servoTime: nat,
    fromSequence: nat,
    toSequence: nat,
    fromAccepted: nat,
    toAccepted: nat,
    alpha: real,
    endpoint: bool)
}

module TransitionLimiter {
  import opened Results
  import opened Reals
  import opened Joints
  import opened ServoPoints

  const HEADROOM: real := 0.005
  const JERK_TOLERANCE_ABSOLUTE: real := 0.000001
  const JERK_TOLERANCE_RELATIVE: real := 0.00000025
  const BOUNDARY_MARGIN: real := 0.000000001
  /** Comparison slack of the final velocity, acceleration and recoverable checks. */
  const SLACK: real := 0.000000000001

  /** The internal jerk the shaper aims for. */
  function JerkTarget(limit: real): real {
    Abs(limit) * (1.0 - HEADROOM)
  }

  /** The final jerk boundary, tolerance included. */
  function JerkBoundaryWithTolerance(limit: real): real {
    Abs(limit) + (JERK_TOLERANCE_ABSOLUTE + JERK_TOLERANCE_RELATIVE * Abs(limit))
  }

  predicate JerkWithinBoundary(jerk: real, limit: real) {
    Abs(jerk) <= JerkBoundaryWithTolerance(limit)
  }

  /** The margin the shaper keeps below the acceleration boundary. */
  function AccelerationMargin(boundary: real): real {
    Max(BOUNDARY_MARGIN, boundary * BOUNDARY_MARGIN)
  }

  /** The internal acceleration the shaper is clamped to. */
  function AccelerationTarget(boundary: real): real {
    boundary - AccelerationMargin(boundary)
  }

  // ---- one joint -----------------------------------------------------------

  /** Position, velocity and acceleration of one joint at its last command. */
  datatype Motion = Motion(position: real, velocity: real, acceleration: real)

  /** The unclamped critically damped feedback for a position error. */
  function Feedback(error: real, velocity: real, w: real): real {
    w * w * error - 2.0 * w * velocity
  }

  function DesiredAcceleration(proposed: real, m: Motion, w: real): real {
    Feedback(proposed - m.position, m.velocity, w)
  }

  function ShapedAcceleration(proposed: real, m: Motion, dt: real, a: real, jerk: real): real
    requires a > 0.0
  {
    var step := jerk * dt;
    var limited := Clamp(DesiredAcceleration(proposed, m, jerk / a), m.acceleration - step, m.acceleration + step);
    Clamp(limited, -a, a)
  }

  /** Semi-implicit integration over one step. */
  function Integrated(m: Motion, acceleration: real, dt: real): Motion {
    var velocity := m.velocity + acceleration * dt;
    Motion(m.position + velocity * dt, velocity, acceleration)
  }

  function Shaped(proposed: real, m: Motion, dt: real, a: real, jerk: real): Motion
    requires a > 0.0
  {
    Integrated(m, ShapedAcceleration(proposed, m, dt, a, jerk), dt)
  }

  /** What the finite differences of the final gate report for a new position. */
  function Measured(position: real, m: Motion, dt: real): Motion
    requires dt > 0.0
  {
    var velocity := (position - m.position) / dt;
    Motion(position, velocity, (velocity - m.velocity) / dt)
  }

  lemma MeasuredIsIntegrated(m: Motion, acceleration: real, dt: real)
    requires dt > 0.0
    ensures var s := Integrated(m, acceleration, dt); Measured(s.position, m, dt) == s
  {
    var velocity := m.velocity + acceleration * dt;
    DivideMultiply(velocity, dt);
    DivideMultiply(acceleration, dt);
    assert (m.position + velocity * dt) - m.position == velocity * dt;
    assert velocity - m.velocity == acceleration * dt;
  }

  /** The gate's finite differences recover exactly what the shaper integrated. */
  lemma MeasuredIsShaped(proposed: real, m: Motion, dt: real, a: real, jerk: real)
    requires a > 0.0 && dt > 0.0
    ensures var s := Shaped(proposed, m, dt, a, jerk); Measured(s.position, m, dt) == s
  {
    MeasuredIsIntegrated(m, ShapedAcceleration(proposed, m, dt, a, jerk), dt);
  }

  /** A shaped acceleration never leaves the internal boundary, and its change
      is within the internal jerk whenever the previous one was inside it. */
  lemma ShapedEnvelope(proposed: real, m: Motion, dt: real, a: real, jerk: real)
    requires a > 0.0 && dt > 0.0 && jerk > 0.0
    ensures var x := ShapedAcceleration(proposed, m, dt, a, jerk);
            && Abs(x) <= a
            && Abs(x - m.acceleration) <= Max(jerk * dt, Abs(m.acceleration) - a)
  {
    MulNonNegative(jerk, dt);
  }

  // ---- six joints ----------------------------------------------------------

  function At(position: Vector, velocity: Vector, acceleration: Vector, j: nat): Motion
    requires j < 6
  {
    Motion(position[j], velocity[j], acceleration[j])
  }

  /** The shaped positions of all six joints. */
  function ShapedPositions(proposed: Vector, position: Vector, velocity: Vector, acceleration: Vector,
                           dt: real, a: real, jerk: real): Vector
    requires a > 0.0
  {
    seq(6, j requires 0 <= j < 6 => Shaped(proposed[j], At(position, velocity, acceleration, j), dt, a, jerk).position)
  }

  /** The limiter as specified: argument checks, six independent joints, position check. */
  function LimitedPoint(proposed: Point, position: Vector, velocity: Vector, acceleration: Vector,
                        dt: real, boundary: real, jerkBoundary: real): Result<Point, Error>
  {
    if dt <= 0.0 then Err(InvalidTimestep)
    else if boundary <= 0.0 || jerkBoundary <= 0.0 then Err(InvalidTransitionLimits)
    // At or below the margin the program divides by zero or clamps to an
    // inverted interval; the model refuses instead of inventing a value.
    else if AccelerationTarget(boundary) <= 0.0 then Err(DegenerateBoundary)
    else
      var shaped := ShapedPositions(proposed.position, position, velocity, acceleration, dt,
                                    AccelerationTarget(boundary), JerkTarget(jerkBoundary));
      if InLimits(shaped) then Ok(proposed.(position := shaped, endpoint := false)) else Err(JointLimitViolation)
  }

  method ShapeJoint(proposed: real, m: Motion, dt: real, a: real, jerk: real) returns (position: real)
    requires a > 0.0
    ensures position == Shaped(proposed, m, dt, a, jerk).position
  {
    var frequency := jerk / a;
    var desired := DesiredAcceleration(proposed, m, frequency);
    var maximumChange := jerk * dt;
    var jerkLimited := Clamp(desired, m.acceleration - maximumChange, m.acceleration + maximumChange);
    var acceleration := Clamp(jerkLimited, -a, a);
    assert acceleration == ShapedAcceleration(proposed, m, dt, a, jerk);
    var velocity := m.velocity + acceleration * dt;
    position := m.position + velocity * dt;
  }

  method ShapeJoints(proposed: Vector, position: Vector, velocity: Vector, acceleration: Vector,
                     dt: real, a: real, jerk: real) returns (limited: Vector)
    requires a > 0.0
    ensures limited == ShapedPositions(proposed, position, velocity, acceleration, dt, a, jerk)
  {
    ghost var shaped := ShapedPositions(proposed, position, velocity, acceleration, dt, a, jerk);
    limited := proposed;
    for joint := 0 to 6
      invariant forall j | 0 <= j < joint :: limited[j] == shaped[j]
    {
      var next := ShapeJoint(proposed[joint], At(position, velocity, acceleration, joint), dt, a, jerk);
      limited := limited[joint := next];
    }
    VectorsEqual(limited, shaped);
  }

  method ComputeLimitedPoint(proposed: Point, position: Vector, velocity: Vector, acceleration: Vector,
                             dt: real, boundary: real, jerkBoundary: real)
    returns (r: Result<Point, Error>)
    ensures r == LimitedPoint(proposed, position, velocity, acceleration, dt, boundary, jerkBoundary)
  {
    if !(dt > 0.0) {
      return Err(InvalidTimestep);
    }
    if !(boundary > 0.0 && jerkBoundary > 0.0) {
      return Err(InvalidTransitionLimits);
    }
    var a := AccelerationTarget(boundary);
    if a <= 0.0 {
      return Err(DegenerateBoundary);
    }
    var limited := ShapeJoints(proposed.position, position, velocity, acceleration, dt, a, JerkTarget(jerkBoundary));
    if !InLimits(limited) {
      return Err(JointLimitViolation);
    }
    return Ok(proposed.(position := limited, endpoint := false));
  }
}
