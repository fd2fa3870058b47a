// The library's own loop toward a fixed destination: one selection per servo
// period, shaped only while the destination itself crosses a boundary. While
// shaping lasts the loop runs the limiter's cycles; where it ends, the
// destination is dispatched at once, and whether it is kept is another matter.

module SelectionLoop {
  import opened Results
  import opened Reals
  import opened Joints
  import opened ServoPoints
  import opened TransitionLimiter
  import opened MotionGate
  import opened ResamplerSpec
  import opened SelectedOutputSpec
  import opened EnvelopeClosure
  import opened LimiterConvergence

  predicate Begun(h: Handle) {
    h.resampler.segmentStart <= h.resampler.lastServoTime
  }

  /** The time of the next selection, and the step to it in seconds. */
  function Due(h: Handle): nat {
    h.previousCommand + h.resampler.servoPeriod
  }

  function StepOf(h: Handle): real {
    Seconds(0, h.resampler.servoPeriod)
  }

  /** One selection, a servo period after the last one. */
  function Tick(h: Handle): (r: Result<(Handle, Selected), Error>)
    requires Begun(h)
    ensures r.Ok? ==> Begun(r.value.0)
  {
    Select(h, Due(h))
  }

  /** n selections in a row. */
  function Ticks(h: Handle, n: nat): (r: Result<Handle, Error>)
    requires Begun(h)
    ensures r.Ok? ==> Begun(r.value)
  {
    if n == 0 then Ok(h)
    else match Ticks(h, n - 1)
      case Err(e) => Err(e)
      case Ok(s) => match Tick(s) { case Err(e) => Err(e) case Ok(next) => Ok(next.0) }
  }

  /** The loop heads for `target`: a fresh segment of one period leads there, or
      the robot is already there. */
  ghost predicate Facing(h: Handle, target: Vector) {
    && Closed(h) && h.resampler.hasAccepted
    && h.resampler.destination == target && h.resampler.emitted == h.previous.position
    && (if h.resampler.active
        then && h.resampler.start == h.resampler.emitted && h.resampler.segmentStart == h.resampler.lastServoTime
             && h.resampler.segmentEnd == h.resampler.segmentStart + h.resampler.servoPeriod
        else h.resampler.emitted == target)
  }

  /** Dispatching the destination itself would cross a boundary. */
  predicate Shapes(t: History, target: Vector, l: Limits, dt: real)
    requires dt > 0.0
  {
    TransitionRequired(Differences(target, t, dt), l.velocity, l.recoverable, l.jerk)
  }

  function ShapedOf(t: History, target: Vector, l: Limits, dt: real): Vector
    requires AccelerationTarget(l.recoverable) > 0.0
  {
    ShapedPositions(target, t.position, t.velocity, t.acceleration, dt, AccelerationTarget(l.recoverable), JerkTarget(l.jerk))
  }

  /** A successful tick that dispatched `position`. */
  ghost predicate Follows(h: Handle, next: Handle, target: Vector, position: Vector)
    requires StepOf(h) > 0.0
  {
    && Facing(next, target) && next.limits == h.limits && next.resampler.servoPeriod == h.resampler.servoPeriod
    && next.previousCommand == Due(h)
    && next.previous == Dispatched(h.previous, position, StepOf(h))
  }

  lemma PeriodIsPositive(h: Handle)
    requires Closed(h)
    ensures StepOf(h) > 0.0 && Seconds(h.previousCommand, Due(h)) == StepOf(h)
    ensures Begun(h) && AccelerationTarget(h.limits.recoverable) > 0.0
  {
    TargetIsInside(h.limits.recoverable);
  }

  /** The proposal of a tick is the destination. */
  lemma ProposesTarget(h: Handle, target: Vector)
    requires Facing(h, target)
    ensures Evaluate(h.resampler, Due(h)).Ok?
    ensures Evaluate(h.resampler, Due(h)).value.position == target
  {
    if h.resampler.active {
      Runs.AlphaShape(h.resampler, Due(h));
      assert Alpha(h.resampler, Due(h)) == 1.0;
      Runs.AlongEnds(h.resampler);
    }
  }

  /** A tick that needs no shaping dispatches the destination. */
  lemma PlainTick(h: Handle, target: Vector)
    requires Facing(h, target) && StepOf(h) > 0.0 && !Shapes(h.previous, target, h.limits, StepOf(h))
    ensures Tick(h).Ok?
    ensures Follows(h, Tick(h).value.0, target, target)
  {
    PeriodIsPositive(h);
    ProposesTarget(h, target);
    UnshapedSelectionSucceeds(h, Due(h));
    Runs.EmitKeepsReachable(h.resampler, Due(h), Due(h));
    hide Runs.Reachable, Exceeds, ExceedsScalar;
  }

  /** What a tick that needs shaping hands to the gate. */
  lemma ShapedChoice(h: Handle, target: Vector)
    requires Facing(h, target) && StepOf(h) > 0.0 && Shapes(h.previous, target, h.limits, StepOf(h))
    requires AccelerationTarget(h.limits.recoverable) > 0.0
    ensures Evaluate(h.resampler, Due(h)).Ok?
    ensures var shaped := ShapedOf(h.previous, target, h.limits, StepOf(h));
            var point := Evaluate(h.resampler, Due(h)).value.(position := shaped, endpoint := false);
            && (InLimits(shaped) ==> Tick(h) == Dispatch(h, point, true, true, Due(h)))
            && (!InLimits(shaped) ==> Tick(h).Err?)
  {
    PeriodIsPositive(h);
    ProposesTarget(h, target);
    hide Evaluate, Dispatch, Facing, InLimits, Exceeds, ExceedsScalar, Runs.Reachable;
    assert Min(h.limits.recoverable, h.limits.hard) == h.limits.recoverable;
  }

  /** The gate's view of a shaped vector, and what the commit needs. */
  lemma ShapedDispatch(h: Handle, target: Vector, point: Point, t: nat)
    requires Facing(h, target) && t > h.previousCommand && point.servoTime == t
    ensures var motion := Differences(point.position, h.previous, Seconds(h.previousCommand, t));
            && (Dispatch(h, point, true, true, t).Ok?
                <==> WithinFinalBoundaries(motion, h.limits.velocity, h.limits.hard, h.limits.jerk)
                     && h.resampler.servoPeriod + t <= MAX_U64)
            && (Dispatch(h, point, true, true, t).Ok? ==>
                 Dispatch(h, point, true, true, t).value.0
                 == h.(resampler := CommitLimited(h.resampler, point).value, previous := Advance(point.position, motion),
                       previousCommand := t, previousLimited := true))
  {
    var motion := Differences(point.position, h.previous, Seconds(h.previousCommand, t));
    FinalGateMeaning(motion, h.limits.velocity, h.limits.hard, h.limits.jerk);
    hide FinalGate, WithinFinalBoundaries, Differences, Runs.Reachable;
  }

  /** A shaped command keeps the loop facing its destination. */
  lemma ShapedFaces(h: Handle, target: Vector, point: Point, next: Handle)
    requires Facing(h, target) && StepOf(h) > 0.0 && AccelerationTarget(h.limits.recoverable) > 0.0
    requires point == Evaluate(h.resampler, Due(h)).value
                        .(position := ShapedOf(h.previous, target, h.limits, StepOf(h)), endpoint := false)
    requires InLimits(point.position) && CommitLimited(h.resampler, point).Ok?
    requires next == h.(resampler := CommitLimited(h.resampler, point).value,
                        previous := Dispatched(h.previous, point.position, StepOf(h)),
                        previousCommand := Due(h), previousLimited := true)
    ensures Facing(next, target)
  {
    PeriodIsPositive(h);
    ProposesTarget(h, target);
    Runs.ShapedKeepsReachable(h.resampler, Due(h), point.position);
    ShapedIsTame(h, target);
    hide Runs.Reachable, Shaped, Differences;
  }

  lemma ShapedIsTame(h: Handle, target: Vector)
    requires Closed(h) && StepOf(h) > 0.0 && AccelerationTarget(h.limits.recoverable) > 0.0
    ensures var shaped := ShapedOf(h.previous, target, h.limits, StepOf(h));
            forall j | 0 <= j < 6 :: Abs(Differences(shaped, h.previous, StepOf(h)).acceleration[j]) <= h.limits.recoverable
  {
    var a, jerk := AccelerationTarget(h.limits.recoverable), JerkTarget(h.limits.jerk);
    TargetIsInside(h.limits.recoverable);
    JerkTargetIsInside(h.limits.jerk);
    var shaped := ShapedOf(h.previous, target, h.limits, StepOf(h));
    forall j | 0 <= j < 6
      ensures Abs(Differences(shaped, h.previous, StepOf(h)).acceleration[j]) <= h.limits.recoverable
    {
      ShapedEnvelope(target[j], h.previous.Joint(j), StepOf(h), a, jerk);
      MeasuredIsShaped(target[j], h.previous.Joint(j), StepOf(h), a, jerk);
    }
  }

  /** A tick that needs shaping dispatches the shaped point, or is rejected for
      that point's position, its motion or the end of the servo clock. */
  lemma ShapedTick(h: Handle, target: Vector)
    requires Facing(h, target) && StepOf(h) > 0.0 && Shapes(h.previous, target, h.limits, StepOf(h))
    requires AccelerationTarget(h.limits.recoverable) > 0.0
    ensures var shaped := ShapedOf(h.previous, target, h.limits, StepOf(h));
            && (Tick(h).Ok?
                <==> InLimits(shaped) && h.resampler.servoPeriod + Due(h) <= MAX_U64
                     && WithinFinalBoundaries(Differences(shaped, h.previous, StepOf(h)),
                                              h.limits.velocity, h.limits.hard, h.limits.jerk))
            && (Tick(h).Ok? ==> Follows(h, Tick(h).value.0, target, shaped))
  {
    PeriodIsPositive(h);
    ProposesTarget(h, target);
    ShapedChoice(h, target);
    var shaped := ShapedOf(h.previous, target, h.limits, StepOf(h));
    var point := Evaluate(h.resampler, Due(h)).value.(position := shaped, endpoint := false);
    assert point.servoTime == Due(h);
    ShapedDispatch(h, target, point, Due(h));
    if Tick(h).Ok? {
      assert CommitLimited(h.resampler, point).Ok?;
      ShapedFaces(h, target, point, Tick(h).value.0);
    }
    hide Evaluate, Dispatch, Facing, InLimits, WithinFinalBoundaries, Tick, ShapedOf, Shapes, Differences;
  }
}
