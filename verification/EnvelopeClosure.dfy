// Closure of the acceleration and jerk envelope over every run of the library:
// which points the final gate can still reject, and why.

module EnvelopeClosure {
  import opened Results
  import opened Reals
  import opened Joints
  import opened ServoPoints
  import opened TransitionLimiter
  import opened MotionGate
  import opened ResamplerSpec
  import Runs = ResamplerRuns
  import opened SelectedOutputSpec

  /** Every handle state between calls, once configured and initialized. */
  ghost predicate Closed(h: Handle) {
    && Runs.Reachable(h.resampler)
    && h.previousCommand == h.resampler.lastServoTime
    && h.configured && ValidLimits(h.limits) && h.limits.recoverable > BOUNDARY_MARGIN
    && (forall j | 0 <= j < 6 :: Abs(h.previous.acceleration[j]) <= h.limits.recoverable + SLACK)
  }

  /** The overhang of the previous acceleration has room in the jerk boundary. */
  ghost predicate Roomy(h: Handle, t: nat) {
    t > h.previousCommand ==> Room(h.limits.recoverable, h.limits.jerk, Seconds(h.previousCommand, t))
  }

  function ShapedTo(h: Handle, proposed: Vector, t: nat): Vector
    requires t > h.previousCommand && AccelerationTarget(h.limits.recoverable) > 0.0
  {
    ShapedPositions(proposed, h.previous.position, h.previous.velocity, h.previous.acceleration,
                    Seconds(h.previousCommand, t), AccelerationTarget(h.limits.recoverable), JerkTarget(h.limits.jerk))
  }

  /** The only three things that can stop a shaped point. */
  ghost predicate ShapedIsAdmissible(h: Handle, proposed: Vector, t: nat)
    requires t > h.previousCommand && AccelerationTarget(h.limits.recoverable) > 0.0
  {
    var shaped := ShapedTo(h, proposed, t);
    && InLimits(shaped)
    && !Exceeds(Differences(shaped, h.previous, Seconds(h.previousCommand, t)).velocity, h.limits.velocity)
    && h.resampler.servoPeriod + t <= MAX_U64
  }

  lemma StillIsQuiet(l: Limits)
    requires ValidLimits(l)
    ensures !TransitionRequired(STILL, l.velocity, l.recoverable, l.jerk)
    ensures FinalGate(STILL, l.velocity, l.hard, l.jerk).None?
  {
    FinalGateMeaning(STILL, l.velocity, l.hard, l.jerk);
  }

  lemma QuietPassesGate(sample: Sample, l: Limits)
    requires ValidLimits(l) && !TransitionRequired(sample, l.velocity, l.recoverable, l.jerk)
    ensures FinalGate(sample, l.velocity, l.hard, l.jerk).None?
    ensures forall j | 0 <= j < 6 :: Abs(sample.acceleration[j]) <= l.recoverable + SLACK
  {
    UnshapedPassesGate(sample, l.velocity, l.recoverable, l.hard, l.jerk);
    FinalGateMeaning(sample, l.velocity, l.hard, l.jerk);
  }

  /** A point that needs no shaping is never rejected. */
  lemma UnshapedSelectionSucceeds(h: Handle, t: nat)
    requires Closed(h) && h.resampler.hasAccepted && t >= h.previousCommand
    requires Evaluate(h.resampler, t).Ok?
    requires Measure(h, Evaluate(h.resampler, t).value.position, t).Ok?
    requires !NeedsShaping(h, Measure(h, Evaluate(h.resampler, t).value.position, t).value)
    ensures Select(h, t).Ok? && Closed(Select(h, t).value.0)
    ensures !Select(h, t).value.1.limited
    ensures InLimits(Select(h, t).value.1.point.position)
  {
    var p := Evaluate(h.resampler, t).value;
    var m := Measure(h, p.position, t).value;
    QuietPassesGate(m, h.limits);
    Runs.EvaluatedPoint(h.resampler, t);
    Runs.EmitKeepsReachable(h.resampler, t, t);
    assert Select(h, t) == Dispatch(h, p, false, false, t);
  }

  /** The gate's view of a shaped vector. */
  lemma ShapedSample(h: Handle, proposed: Vector, t: nat)
    requires Closed(h) && t > h.previousCommand && Roomy(h, t)
    ensures AccelerationTarget(h.limits.recoverable) > 0.0
    ensures var s := Differences(ShapedTo(h, proposed, t), h.previous, Seconds(h.previousCommand, t));
            && (forall j | 0 <= j < 6 :: Abs(s.acceleration[j]) <= h.limits.recoverable)
            && (forall j | 0 <= j < 6 :: JerkWithinBoundary(s.jerk[j], h.limits.jerk))
  {
    TargetIsInside(h.limits.recoverable);
    var dt := Seconds(h.previousCommand, t);
    var s := Differences(ShapedTo(h, proposed, t), h.previous, dt);
    forall j | 0 <= j < 6
      ensures Abs(s.acceleration[j]) <= h.limits.recoverable
      ensures JerkWithinBoundary(s.jerk[j], h.limits.jerk)
    {
      ShapedPassesGate(proposed[j], h.previous.Joint(j), dt, h.limits.recoverable, h.limits.jerk);
    }
  }

  /** A shaped point is only ever rejected for its velocity or its position
      (or when the servo clock itself runs out). */
  lemma ShapedSelection(h: Handle, t: nat)
    requires Closed(h) && h.resampler.hasAccepted && t > h.previousCommand && Roomy(h, t)
    requires Evaluate(h.resampler, t).Ok?
    requires NeedsShaping(h, Measure(h, Evaluate(h.resampler, t).value.position, t).value)
    ensures AccelerationTarget(h.limits.recoverable) > 0.0
    ensures Select(h, t).Ok? <==> ShapedIsAdmissible(h, Evaluate(h.resampler, t).value.position, t)
    ensures match Select(h, t)
            case Ok(next) => Closed(next.0) && next.1.limited && InLimits(next.1.point.position)
            case Err(e) => e in {JointLimitViolation, VelocityBoundary, DurationOverflow}
  {
    var p := Evaluate(h.resampler, t).value;
    ShapedSample(h, p.position, t);
    var shaped := ShapedTo(h, p.position, t);
    assert Min(h.limits.recoverable, h.limits.hard) == h.limits.recoverable;
    if InLimits(shaped) {
      var point := p.(position := shaped, endpoint := false);
      var motion := Differences(shaped, h.previous, Seconds(h.previousCommand, t));
      assert Choose(h, p, true, t) == Ok(point);
      assert Select(h, t) == Dispatch(h, point, true, true, t);
      FinalGateMeaning(motion, h.limits.velocity, h.limits.hard, h.limits.jerk);
      GateIsVelocityOnly(motion, h.limits);
      if h.resampler.servoPeriod + t <= MAX_U64 {
        Runs.ShapedKeepsReachable(h.resampler, t, shaped);
      }
    }
  }

  lemma GateIsVelocityOnly(motion: Sample, l: Limits)
    requires ValidLimits(l)
    requires forall j | 0 <= j < 6 :: Abs(motion.acceleration[j]) <= l.recoverable
    requires forall j | 0 <= j < 6 :: JerkWithinBoundary(motion.jerk[j], l.jerk)
    ensures FinalGate(motion, l.velocity, l.hard, l.jerk)
         == if Exceeds(motion.velocity, l.velocity) then Some(VelocityBoundary) else None
  {
    FinalGateMeaning(motion, l.velocity, l.hard, l.jerk);
  }

  /** Calls of the library after creation, configuration and initialization. */
  datatype Call =
    | HoldCall(position: Vector, accepted: nat, sequence: nat)
    | AcceptCall(destination: Vector, accepted: nat, sequence: nat)
    | SelectCall(servoTime: nat)

  function Outcome(h: Handle, c: Call): Result<Handle, Error>
    requires h.resampler.segmentStart <= h.resampler.lastServoTime
  {
    match c
    case HoldCall(position, accepted, sequence) =>
      (match Hold(h.resampler, position, accepted, sequence)
       case Ok(r) => Ok(h.(resampler := r))
       case Err(e) => Err(e))
    case AcceptCall(destination, accepted, sequence) =>
      (match Accept(h.resampler, destination, accepted, sequence)
       case Ok(r) => Ok(h.(resampler := r))
       case Err(e) => Err(e))
    case SelectCall(t) =>
      (match Select(h, t)
       case Ok(next) => Ok(next.0)
       case Err(e) => Err(e))
  }

  /** A run in which rejected calls leave the handle as it was. Running out of
      servo clock, the one rejection that does not, ends the run. */
  ghost predicate RunsTo(h: Handle, calls: seq<Call>, h': Handle)
    decreases |calls|
  {
    if calls == [] then h' == h
    else
      && h.resampler.segmentStart <= h.resampler.lastServoTime
      && (calls[0].SelectCall? ==> Roomy(h, calls[0].servoTime))
      && match Outcome(h, calls[0])
         case Ok(next) => RunsTo(next, calls[1..], h')
         case Err(e) => e != DurationOverflow && RunsTo(h, calls[1..], h')
  }

  lemma OutcomeIsClosed(h: Handle, c: Call)
    requires Closed(h) && (c.SelectCall? ==> Roomy(h, c.servoTime))
    ensures Outcome(h, c).Ok? ==> Closed(Outcome(h, c).value)
  {
    match c
    case HoldCall(position, accepted, sequence) =>
    case AcceptCall(destination, accepted, sequence) =>
      if Outcome(h, c).Ok? {
        Runs.AcceptKeepsReachable(h.resampler, destination, accepted, sequence);
      }
    case SelectCall(t) =>
      if Outcome(h, c).Ok? {
        SelectionCases(h, t);
      }
  }

  /** A selection succeeds inside the joint limits and keeps the envelope, or is
      rejected for one of the listed reasons; past the time checks only a point
      that had to be shaped can be rejected, and never for acceleration or jerk. */
  ghost predicate Contained(h: Handle, t: nat)
    requires h.resampler.segmentStart <= h.resampler.lastServoTime
  {
    match Select(h, t)
    case Ok(next) => Closed(next.0) && InLimits(next.1.point.position)
    case Err(e) =>
      || (e == NoAcceptedTarget && !h.resampler.hasAccepted)
      || (e == ServoTimeBackwards && h.resampler.hasAccepted && t < h.previousCommand)
      || (&& e in {JointLimitViolation, VelocityBoundary, DurationOverflow}
          && h.resampler.hasAccepted && t > h.previousCommand
          && NeedsShaping(h, Measure(h, Evaluate(h.resampler, t).value.position, t).value))
  }

  /** Every selection in a closed state: rejected up front for its time or for
      want of a target, unshaped and accepted, or shaped. */
  lemma SelectionCases(h: Handle, t: nat)
    requires Closed(h) && Roomy(h, t)
    ensures Contained(h, t)
  {
    if h.resampler.hasAccepted && t >= h.previousCommand {
      var p := Evaluate(h.resampler, t).value;
      if t == h.previousCommand {
        StillIsQuiet(h.limits);
      }
      if NeedsShaping(h, Measure(h, p.position, t).value) {
        ShapedSelection(h, t);
      } else {
        UnshapedSelectionSucceeds(h, t);
      }
    }
  }

  /** Envelope closure: after every run, the previous acceleration is inside the
      recoverable boundary, and whatever is selected next stays contained. */
  lemma {:induction false} EnvelopeCloses(h: Handle, calls: seq<Call>, h': Handle, t: nat)
    requires Closed(h) && RunsTo(h, calls, h')
    ensures Closed(h')
    ensures Roomy(h', t) ==> Contained(h', t)
    decreases |calls|
  {
    if calls == [] {
      if Roomy(h', t) {
        SelectionCases(h', t);
      }
    } else {
      OutcomeIsClosed(h, calls[0]);
      match Outcome(h, calls[0])
      case Ok(next) => EnvelopeCloses(next, calls[1..], h', t);
      case Err(e) => EnvelopeCloses(h, calls[1..], h', t);
    }
  }

  /** The first state of every run. */
  lemma InitialIsClosed(r: State, l: Limits, position: Vector, servoTime: nat)
    requires WellFormed(r) && ValidLimits(l) && l.recoverable > BOUNDARY_MARGIN
    requires Initialize(r, position, servoTime).Ok?
    ensures Closed(Handle(Initialize(r, position, servoTime).value, l, History(position, ZERO, ZERO), servoTime, true, false))
  {
  }

  /** With the worker's default boundaries every strictly later time has room. */
  lemma DefaultsHaveRoom(from: nat, to: nat)
    requires from < to
    ensures Room(4.0 * PI, 20.0 * PI, Seconds(from, to))
  {
    assert Seconds(from, to) >= 0.000000001;
    MulMonotone(0.000000001, Seconds(from, to), JerkBoundaryWithTolerance(20.0 * PI));
  }
}
