// The resampler library's handle: evaluation, transition shaping and the final
// boundary check behind one call.

module SelectedOutputSpec {
  import opened Results
  import opened Reals
  import opened Joints
  import opened ServoPoints
  import opened TransitionLimiter
  import opened MotionGate
  import opened ResamplerSpec

  datatype Limits = Limits(velocity: Vector, recoverable: real, hard: real, jerk: real)

  /** The fields of a library handle. */
  datatype Handle = Handle(resampler: State, limits: Limits, previous: History, previousCommand: nat,
                           configured: bool, previousLimited: bool)

  /** What one selection reports to the caller. */
  datatype Selected = Selected(point: Point, motion: Sample, limited: bool, recovered: bool)

  predicate ValidLimits(l: Limits) {
    && (forall j | 0 <= j < 6 :: l.velocity[j] > 0.0)
    && l.recoverable > 0.0 && l.hard >= l.recoverable && l.jerk > 0.0
  }

  function Measure(h: Handle, position: Vector, t: nat): Result<Sample, Error> {
    if t == h.previousCommand then Ok(STILL)
    else if t < h.previousCommand then Err(CommandTimeBackwards)
    else Ok(Differences(position, h.previous, Seconds(h.previousCommand, t)))
  }

  /** The history at rest. Initialization sets it before any check. */
  function Restarted(h: Handle, position: Vector, t: nat): Handle {
    h.(previous := History(position, ZERO, ZERO), previousCommand := t, previousLimited := false)
  }

  predicate NeedsShaping(h: Handle, sample: Sample) {
    TransitionRequired(sample, h.limits.velocity, h.limits.recoverable, h.limits.jerk)
  }

  /** The point to dispatch: shaped when required and time has passed, else as proposed. */
  function Choose(h: Handle, proposed: Point, shape: bool, t: nat): Result<Point, Error>
    requires shape ==> t > h.previousCommand
  {
    if shape then
      LimitedPoint(proposed, h.previous.position, h.previous.velocity, h.previous.acceleration,
                   Seconds(h.previousCommand, t), Min(h.limits.recoverable, h.limits.hard), h.limits.jerk)
    else Ok(proposed)
  }

  function Commitment(h: Handle, point: Point, shape: bool, t: nat): Result<State, Error> {
    if shape then CommitLimited(h.resampler, point) else Commit(h.resampler, point, t)
  }

  /** What a failed selection leaves behind: nothing has changed, unless the
      servo clock overflowed after the shaped point had been emitted. */
  function Failed(h: Handle, t: nat, e: Error): Handle
    requires h.resampler.segmentStart <= h.resampler.lastServoTime
  {
    if e != DurationOverflow then h
    else match Evaluate(h.resampler, t)
      case Err(_) => h
      case Ok(proposed) =>
        match Choose(h, proposed, t > h.previousCommand, t)
        case Err(_) => h
        case Ok(point) => h.(resampler := Stranded(h.resampler, point))
  }

  /** The whole selection; Failed tells what an error leaves behind. */
  function Select(h: Handle, t: nat): Result<(Handle, Selected), Error>
    requires h.resampler.segmentStart <= h.resampler.lastServoTime
  {
    if !h.configured then Err(NotConfigured)
    else match Evaluate(h.resampler, t)
      case Err(e) => Err(e)
      case Ok(proposed) =>
        match Measure(h, proposed.position, t)
        case Err(e) => Err(e)
        case Ok(candidate) =>
          var limited := NeedsShaping(h, candidate);
          var shape := limited && t > h.previousCommand;
          match Choose(h, proposed, shape, t)
          case Err(e) => Err(e)
          case Ok(point) => Dispatch(h, point, limited, shape, t)
  }

  /** Final check, commit and the handle's bookkeeping. */
  function Dispatch(h: Handle, point: Point, limited: bool, shape: bool, t: nat): Result<(Handle, Selected), Error> {
    match Measure(h, point.position, t)
    case Err(e) => Err(e)
    case Ok(motion) =>
      match FinalGate(motion, h.limits.velocity, h.limits.hard, h.limits.jerk)
      case Some(e) => Err(e)
      case None =>
        match Commitment(h, point, shape, t)
        case Err(e) => Err(e)
        case Ok(r) =>
          Ok((h.(resampler := r, previous := Advance(point.position, motion), previousCommand := t,
                 previousLimited := limited),
              Selected(point, motion, limited, h.previousLimited && !limited)))
  }

  // ---- what a caller can read off the reports --------------------------------

  /** What is dispatched is reported and remembered. */
  ghost predicate Reports(h: Handle, t: nat, next: Handle, x: Selected) {
    && t >= h.previousCommand
    && next.previous == History(x.point.position, x.motion.velocity, x.motion.acceleration)
    && next.previousCommand == t && next.previousLimited == x.limited
    && next.limits == h.limits && next.configured == h.configured
    && x.motion == (if t == h.previousCommand then STILL
                    else Differences(x.point.position, h.previous, Seconds(h.previousCommand, t)))
    && (x.recovered <==> h.previousLimited && !x.limited)
    && WithinFinalBoundaries(x.motion, h.limits.velocity, h.limits.hard, h.limits.jerk)
  }

  lemma DispatchReports(h: Handle, point: Point, limited: bool, shape: bool, t: nat)
    requires Dispatch(h, point, limited, shape, t).Ok?
    ensures var r := Dispatch(h, point, limited, shape, t).value;
            Reports(h, t, r.0, r.1) && r.1.point == point && r.1.limited == limited
  {
    FinalGateMeaning(Dispatch(h, point, limited, shape, t).value.1.motion, h.limits.velocity, h.limits.hard, h.limits.jerk);
    hide FinalGate, WithinFinalBoundaries, Differences, Commitment;
  }

  lemma SelectionReports(h: Handle, t: nat)
    requires h.resampler.segmentStart <= h.resampler.lastServoTime && Select(h, t).Ok?
    ensures var next, x := Select(h, t).value.0, Select(h, t).value.1;
            && h.configured && Reports(h, t, next, x) && Evaluate(h.resampler, t).Ok?
            && (!x.limited ==> Evaluate(h.resampler, t) == Ok(x.point))
            && (x.limited <==> Measure(h, Evaluate(h.resampler, t).value.position, t).Ok?
                               && NeedsShaping(h, Measure(h, Evaluate(h.resampler, t).value.position, t).value))
  {
    hide Dispatch, Reports, Evaluate, NeedsShaping, Measure, LimitedPoint;
    var proposed := Evaluate(h.resampler, t).value;
    var limited := NeedsShaping(h, Measure(h, proposed.position, t).value);
    var shape := limited && t > h.previousCommand;
    var point := Choose(h, proposed, shape, t).value;
    DispatchReports(h, point, limited, shape, t);
  }

  /** Two selections in a row: the second one's motion is measured against what
      the first one reported, and it reports a recovery exactly when the first
      was shaped and it is not. */
  lemma ConsecutiveSelections(h: Handle, t: nat, u: nat)
    requires h.resampler.segmentStart <= h.resampler.lastServoTime && Select(h, t).Ok?
    requires var next := Select(h, t).value.0;
             next.resampler.segmentStart <= next.resampler.lastServoTime && Select(next, u).Ok?
    ensures t <= u
    ensures var x := Select(h, t).value.1;
            var y := Select(Select(h, t).value.0, u).value.1;
            var from := History(x.point.position, x.motion.velocity, x.motion.acceleration);
            && (y.recovered <==> x.limited && !y.limited)
            && y.motion == (if u == t then STILL else Differences(y.point.position, from, Seconds(t, u)))
  {
    hide Select;
    SelectionReports(h, t);
    SelectionReports(Select(h, t).value.0, u);
  }
}

module SelectedOutput {
  import opened Results
  import opened Reals
  import opened Joints
  import opened ServoPoints
  import opened TransitionLimiter
  import opened MotionGate
  import opened ServoResampler
  import opened Spec = SelectedOutputSpec

  class ResamplerHandle {
    const resampler: JointServoResampler
    var limits: Limits
    var previous: History
    var previousCommand: nat
    var configured: bool
    var previousLimited: bool

    ghost function Snapshot(): Handle
      reads this, resampler
    {
      Handle(resampler.Snapshot(), limits, previous, previousCommand, configured, previousLimited)
    }

    ghost predicate Valid()
      reads this, resampler
    {
      resampler.Valid()
    }

    constructor (r: JointServoResampler)
      requires r.Valid()
      ensures resampler == r && Valid()
      ensures Snapshot() == Handle(r.Snapshot(), Limits(ZERO, 0.0, 0.0, 0.0), History(ZERO, ZERO, ZERO), 0, false, false)
    {
      resampler := r;
      limits := Limits(ZERO, 0.0, 0.0, 0.0);
      previous := History(ZERO, ZERO, ZERO);
      previousCommand := 0;
      configured, previousLimited := false, false;
    }

    method Initialize(position: Vector, servoTime: nat) returns (r: Result<(), Error>)
      requires Valid()
      modifies this, resampler
      ensures Valid()
      ensures match ResamplerSpec.Initialize(old(Snapshot()).resampler, position, servoTime)
              case Err(e) => r == Err(e) && Snapshot() == Restarted(old(Snapshot()), position, servoTime)
              case Ok(s) => r == Ok(()) && Snapshot() == Restarted(old(Snapshot()), position, servoTime).(resampler := s)
    {
      previous := History(position, ZERO, ZERO);
      previousCommand := servoTime;
      previousLimited := false;
      r := resampler.Initialize(position, servoTime);
    }

    method ConfigureTransition(velocity: Vector, recoverable: real, hard: real, jerk: real) returns (ok: bool)
      requires Valid()
      modifies this
      ensures Valid()
      ensures ok <==> ValidLimits(Limits(velocity, recoverable, hard, jerk))
      ensures ok ==> Snapshot() == old(Snapshot()).(limits := Limits(velocity, recoverable, hard, jerk), configured := true)
      ensures !ok ==> Snapshot() == old(Snapshot()).(limits := old(limits).(velocity := velocity))
    {
      limits := limits.(velocity := velocity);
      if !ValidLimits(Limits(velocity, recoverable, hard, jerk)) {
        return false;
      }
      limits := Limits(velocity, recoverable, hard, jerk);
      configured := true;
      return true;
    }

    method Measured(position: Vector, t: nat) returns (r: Result<Sample, Error>)
      ensures r == Measure(Snapshot(), position, t)
    {
      if t == previousCommand {
        return Ok(STILL);
      }
      if t < previousCommand {
        return Err(CommandTimeBackwards);
      }
      SecondsPositive(previousCommand, t);
      var sample := ComputeDifferences(position, previous, Seconds(previousCommand, t));
      return Ok(sample);
    }

    method EvaluateSelected(t: nat) returns (r: Result<Selected, Error>)
      requires Valid()
      modifies this, resampler
      ensures Valid()
      ensures match Select(old(Snapshot()), t)
              case Err(e) => r == Err(e) && Snapshot() == Failed(old(Snapshot()), t, e)
              case Ok(next) => r == Ok(next.1) && Snapshot() == next.0
    {
      hide ResamplerSpec.Evaluate, ResamplerSpec.Stranded, LimitedPoint, InLimits;
      if !configured {
        return Err(NotConfigured);
      }
      var evaluated := resampler.Evaluate(t);
      if evaluated.Err? {
        return Err(evaluated.error);
      }
      var proposed := evaluated.value;
      var candidate := Measured(proposed.position, t);
      if candidate.Err? {
        return Err(candidate.error);
      }
      var limited := TransitionRequired(candidate.value, limits.velocity, limits.recoverable, limits.jerk);
      var selected := proposed;
      if limited && t > previousCommand {
        var shaped := ComputeLimitedPoint(proposed, previous.position, previous.velocity, previous.acceleration,
                                          Seconds(previousCommand, t), Min(limits.recoverable, limits.hard), limits.jerk);
        if shaped.Err? {
          return Err(shaped.error);
        }
        selected := shaped.value;
      }
      assert Choose(Snapshot(), proposed, limited && t > previousCommand, t) == Ok(selected);
      r := DispatchSelected(selected, limited, limited && t > previousCommand, t);
    }

    method DispatchSelected(selected: Point, limited: bool, shape: bool, t: nat) returns (r: Result<Selected, Error>)
      requires Valid()
      modifies this, resampler
      ensures Valid()
      ensures match Dispatch(old(Snapshot()), selected, limited, shape, t)
              case Err(e) => r == Err(e) && (e == DurationOverflow ==> shape) && Snapshot() == (if e == DurationOverflow
                               then old(Snapshot()).(resampler := ResamplerSpec.Stranded(old(Snapshot()).resampler, selected))
                               else old(Snapshot()))
              case Ok(next) => r == Ok(next.1) && Snapshot() == next.0
    {
      hide WithinFinalBoundaries, ResamplerSpec.Emitted, InLimits, Differences;
      var motion := Measured(selected.position, t);
      if motion.Err? {
        return Err(motion.error);
      }
      var violation := RequireFinalBoundaries(motion.value, limits.velocity, limits.hard, limits.jerk);
      if violation.Some? {
        return Err(violation.value);
      }
      var committed;
      if shape {
        committed := resampler.CommitTransitionLimited(selected);
      } else {
        committed := resampler.Commit(selected, t);
      }
      if committed.Err? {
        return Err(committed.error);
      }
      var recovered := previousLimited && !limited;
      previous := Advance(selected.position, motion.value);
      previousCommand := t;
      previousLimited := limited;
      return Ok(Selected(selected, motion.value, limited, recovered));
    }
  }
}
