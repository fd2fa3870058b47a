// The selection loop toward a fixed destination, tick by tick, and the part of
// a run in which every selection is shaped: the limiter's own cycles.

module DestinationLoop {
  import opened Results
  import opened Reals
  import opened Joints
  import opened ServoPoints
  import opened TransitionLimiter
  import opened MotionGate
  import opened ResamplerSpec
  import opened SelectedOutputSpec
  import opened LimiterConvergence
  import opened SelectionLoop
  import Landing = JointLanding

  // ---- one tick, and runs of them ------------------------------------------

  function BoundsOf(l: Limits, j: nat): Landing.Bounds
    requires j < 6
  {
    Landing.Bounds(l.velocity[j], l.recoverable, l.jerk)
  }

  function ReachOf(l: Limits, dt: real, j: nat): Landing.Bounds
    requires j < 6
  {
    Landing.Reach(BoundsOf(l, j), dt)
  }

  lemma ShapesMeans(t: History, target: Vector, l: Limits, dt: real)
    requires dt > 0.0
    ensures Shapes(t, target, l, dt) <==> exists j | 0 <= j < 6 :: Landing.Crosses(t.Joint(j), target[j], BoundsOf(l, j), dt)
  {
    var d := Differences(target, t, dt);
    hide Measured, Jerk;
    forall j | 0 <= j < 6
      ensures Landing.Crosses(t.Joint(j), target[j], BoundsOf(l, j), dt)
         <==> || Abs(d.velocity[j]) > l.velocity[j] + SLACK || Abs(d.acceleration[j]) > l.recoverable + SLACK
              || Abs(d.jerk[j]) > l.jerk + SLACK
    {
    }
  }

  lemma IsReady(h: Handle, target: Vector)
    requires Facing(h, target)
    ensures Begun(h) && StepOf(h) > 0.0 && ValidLimits(h.limits) && InLimits(target)
    ensures 0.0 < AccelerationTarget(h.limits.recoverable) < h.limits.recoverable
  {
    PeriodIsPositive(h);
    TargetIsInside(h.limits.recoverable);
  }

  function Position(h: Handle, target: Vector): Vector
    requires StepOf(h) > 0.0 && AccelerationTarget(h.limits.recoverable) > 0.0
  {
    if Shapes(h.previous, target, h.limits, StepOf(h)) then ShapedOf(h.previous, target, h.limits, StepOf(h)) else target
  }

  lemma AnyTick(h: Handle, target: Vector)
    requires Facing(h, target)
    ensures Begun(h) && StepOf(h) > 0.0 && AccelerationTarget(h.limits.recoverable) > 0.0
    ensures Tick(h).Ok? ==> Follows(h, Tick(h).value.0, target, Position(h, target))
    ensures !Shapes(h.previous, target, h.limits, StepOf(h)) ==> Tick(h).Ok?
  {
    PeriodIsPositive(h);
    hide Tick, Facing, ShapedOf;
    if Shapes(h.previous, target, h.limits, StepOf(h)) {
      ShapedTick(h, target);
    } else {
      PlainTick(h, target);
    }
  }

  lemma OneMoreTick(h: Handle, n: nat)
    requires Begun(h) && Ticks(h, n).Ok?
    ensures var s := Ticks(h, n).value;
            && (Tick(s).Ok? ==> Ticks(h, n + 1) == Ok(Tick(s).value.0))
            && (Tick(s).Err? ==> Ticks(h, n + 1).Err?)
  {
    hide Tick;
  }

  /** n ticks later, still facing the same destination. */
  ghost predicate Later(h: Handle, s: Handle, target: Vector, n: nat) {
    && Facing(s, target) && s.limits == h.limits && s.resampler.servoPeriod == h.resampler.servoPeriod
    && s.previousCommand == h.previousCommand + n * h.resampler.servoPeriod
  }

  lemma {:induction false} RunFaces(h: Handle, target: Vector, n: nat)
    requires Facing(h, target)
    ensures Begun(h)
    ensures Ticks(h, n).Ok? ==> Later(h, Ticks(h, n).value, target, n)
  {
    hide Tick, Ticks, Facing, Later, Begun;
    IsReady(h, target);
    if n == 0 {
      LaterBegins(h, target, n);
    } else {
      RunFaces(h, target, n - 1);
      FewerTicks(h, n);
      if Ticks(h, n).Ok? {
        NextFaces(h, Ticks(h, n - 1).value, target, n);
      }
    }
  }

  /** A run of n ticks is one of n - 1 ticks and one more. */
  lemma FewerTicks(h: Handle, n: nat)
    requires Begun(h) && n > 0
    ensures Ticks(h, n).Ok? ==>
              && Ticks(h, n - 1).Ok? && Tick(Ticks(h, n - 1).value).Ok?
              && Ticks(h, n) == Ok(Tick(Ticks(h, n - 1).value).value.0)
  {
    hide Tick;
  }

  lemma LaterBegins(h: Handle, target: Vector, n: nat)
    requires Facing(h, target) && n == 0
    ensures Begun(h) && Ticks(h, n) == Ok(h) && Later(h, h, target, n)
  {
    IsReady(h, target);
  }

  lemma NextFaces(h: Handle, s: Handle, target: Vector, n: nat)
    requires n > 0 && Later(h, s, target, n - 1) && Begun(s) && Tick(s).Ok?
    ensures Later(h, Tick(s).value.0, target, n)
  {
    hide Tick, Facing, Shapes, Position, Dispatched;
    AnyTick(s, target);
    Multiple(n, h.resampler.servoPeriod);
  }

  lemma Multiple(n: nat, period: nat)
    requires n > 0
    ensures (n - 1) * period + period == n * period
  {
  }

  /** The same period and the same limits. */
  lemma LaterFaces(h: Handle, s: Handle, target: Vector, n: nat)
    requires Later(h, s, target, n)
    ensures Facing(s, target) && s.limits == h.limits && StepOf(s) == StepOf(h)
  {
  }

  // ---- while shaping lasts -------------------------------------------------

  ghost predicate ShapesAt(h: Handle, target: Vector, k: nat)
    requires Begun(h) && StepOf(h) > 0.0
  {
    Ticks(h, k).Ok? ==> Shapes(Ticks(h, k).value.previous, target, h.limits, StepOf(h))
  }

  /** Each of the first n ticks needs shaping. */
  ghost predicate StillShaping(h: Handle, target: Vector, n: nat)
    requires Begun(h) && StepOf(h) > 0.0
  {
    forall k: nat | k < n :: ShapesAt(h, target, k)
  }

  lemma ShapedPointIs(proposed: Point, t: History, l: Limits, dt: real)
    requires dt > 0.0 && ValidLimits(l) && AccelerationTarget(l.recoverable) > 0.0
    requires InLimits(ShapedOf(t, proposed.position, l, dt))
    ensures LimitedPoint(proposed, t.position, t.velocity, t.acceleration, dt, l.recoverable, l.jerk)
         == Ok(proposed.(position := ShapedOf(t, proposed.position, l, dt), endpoint := false))
  {
  }

  /** While every selection is shaped, the loop is the limiter's own cycles. */
  lemma {:induction false} ShapedRunIsCycles(h: Handle, proposed: Point, n: nat)
    requires Facing(h, proposed.position)
    ensures Begun(h) && StepOf(h) > 0.0
    ensures StillShaping(h, proposed.position, n) && Ticks(h, n).Ok? ==>
              Cycles(proposed, h.previous, StepOf(h), h.limits.recoverable, h.limits.jerk, n) == Ok(Ticks(h, n).value.previous)
  {
    hide Tick, Ticks, Shapes, Dispatched, LimitedPoint, Cycles, Facing, Later, Begun, StepOf;
    IsReady(h, proposed.position);
    if n == 0 {
      LaterBegins(h, proposed.position, n);
      NoCycles(proposed, h.previous, StepOf(h), h.limits.recoverable, h.limits.jerk);
    } else if StillShaping(h, proposed.position, n) && Ticks(h, n).Ok? {
      assert ShapesAt(h, proposed.position, n - 1);
      FewerTicks(h, n);
      ShapedRunIsCycles(h, proposed, n - 1);
      RunFaces(h, proposed.position, n - 1);
      LaterFaces(h, Ticks(h, n - 1).value, proposed.position, n - 1);
      ShapedCycle(h, Ticks(h, n - 1).value, proposed, n);
    }
  }

  lemma ShapedCycle(h: Handle, s: Handle, proposed: Point, n: nat)
    requires n > 0 && Facing(s, proposed.position) && Begun(s) && Tick(s).Ok? && StepOf(s) > 0.0
    requires Shapes(s.previous, proposed.position, s.limits, StepOf(s))
    requires Cycles(proposed, h.previous, StepOf(s), s.limits.recoverable, s.limits.jerk, n - 1) == Ok(s.previous)
    ensures Cycles(proposed, h.previous, StepOf(s), s.limits.recoverable, s.limits.jerk, n) == Ok(Tick(s).value.0.previous)
  {
    hide Tick, Shapes, ShapedOf, Dispatched, LimitedPoint, Cycles, Facing, StepOf, InLimits;
    IsReady(s, proposed.position);
    ShapedTick(s, proposed.position);
    ShapedPointIs(proposed, s.previous, s.limits, StepOf(s));
    OneMore(proposed, h.previous, StepOf(s), s.limits.recoverable, s.limits.jerk, n - 1);
  }

  /** The feedback never asks for more than the velocity limits. */
  ghost predicate Slow(target: Vector, start: Vector, w: real, l: Limits) {
    forall j | 0 <= j < 6 :: Speed(w, Abs(target[j] - start[j])) <= l.velocity[j] + SLACK
  }

  /** A shaped cycle of the converging run passes the final gate. */
  lemma ShapedCyclePasses(proposed: Point, start: Vector, w: real, dt: real, l: Limits, t: History, n: nat)
    requires ValidLimits(l) && InLimits(proposed.position)
    requires UnsaturatedTrack(proposed.position, start, w, dt, l.recoverable, l.jerk)
    requires Slow(proposed.position, start, w, l) && Tracked(proposed, start, w, dt, t, n)
    ensures AccelerationTarget(l.recoverable) > 0.0
    ensures var shaped := ShapedOf(t, proposed.position, l, dt);
            && InLimits(shaped)
            && WithinFinalBoundaries(Differences(shaped, t, dt), l.velocity, l.hard, l.jerk)
            && Tracked(proposed, start, w, dt, Dispatched(t, shaped, dt), n + 1)
            && Unclamped(proposed, t, Dispatched(t, shaped, dt), w)
  {
    UnsaturatedBoundaries(proposed.position, start, w, dt, l.recoverable, l.jerk);
    NextTracked(proposed, start, w, dt, l.recoverable, l.jerk, t, n);
    var shaped := ShapedOf(t, proposed.position, l, dt);
    ShapedPointIs(proposed, t, l, dt);
    var next := Dispatched(t, shaped, dt);
    forall j | 0 <= j < 6
      ensures Abs(next.velocity[j]) <= l.velocity[j] + SLACK && Abs(next.acceleration[j]) <= l.hard
      ensures JerkWithinBoundary(Differences(shaped, t, dt).jerk[j], l.jerk)
    {
      JointPasses(proposed, start, w, dt, l, t, next, n, j);
      assert Differences(shaped, t, dt).jerk[j] == (next.acceleration[j] - t.acceleration[j]) / dt;
    }
    hide Tracked, Unclamped, Shaped;
  }

  /** What tracking says about one joint. */
  lemma JointFacts(proposed: Point, start: Vector, w: real, dt: real, t: History, n: nat, j: nat)
    requires j < 6 && Tracked(proposed, start, w, dt, t, n)
    ensures var e0, e := Abs(proposed.position[j] - start[j]), Abs(proposed.position[j] - t.position[j]);
            e <= e0 && Abs(t.acceleration[j]) <= Peak(w, e0) && Abs(t.velocity[j]) <= Speed(w, e)
  {
    hide Pow, Decay, Peak, InLimits, Speed;
    assert Calm(t.Joint(j), proposed.position[j], w, Abs(proposed.position[j] - start[j]));
    assert Converged(t, proposed.position, start, w, dt, n, j);
  }

  lemma JointPasses(proposed: Point, start: Vector, w: real, dt: real, l: Limits, t: History, next: History, n: nat, j: nat)
    requires j < 6 && ValidLimits(l) && UnsaturatedTrack(proposed.position, start, w, dt, l.recoverable, l.jerk)
    requires Slow(proposed.position, start, w, l)
    requires Tracked(proposed, start, w, dt, t, n) && Tracked(proposed, start, w, dt, next, n + 1)
    ensures Abs(next.velocity[j]) <= l.velocity[j] + SLACK && Abs(next.acceleration[j]) <= l.hard
    ensures JerkWithinBoundary((next.acceleration[j] - t.acceleration[j]) / dt, l.jerk)
  {
    hide Tracked, Peak, Speed, JerkTarget, JerkBoundaryWithTolerance;
    var e0, e := Abs(proposed.position[j] - start[j]), Abs(proposed.position[j] - next.position[j]);
    JointFacts(proposed, start, w, dt, t, n, j);
    JointFacts(proposed, start, w, dt, next, n + 1, j);
    assert Unsaturated(AccelerationTarget(l.recoverable), JerkTarget(l.jerk), w, dt, e0);
    hide Unsaturated, UnsaturatedTrack, Slow;
    JerkTargetIsInside(l.jerk);
    BoundsPass(next.velocity[j], w, e, e0, l.velocity[j] + SLACK);
    JerkPasses(next.acceleration[j], t.acceleration[j], Peak(w, e0), JerkTarget(l.jerk), JerkBoundaryWithTolerance(l.jerk), dt);
  }

  lemma BoundsPass(v: real, w: real, e: real, e0: real, limit: real)
    requires w > 0.0 && 0.0 <= e <= e0 && Abs(v) <= Speed(w, e) && Speed(w, e0) <= limit
    ensures Abs(v) <= limit
  {
    MulMonotone(e, e0, w);
  }

  lemma JerkPasses(x: real, y: real, peak: real, target: real, bound: real, dt: real)
    requires Abs(x) <= peak && Abs(y) <= peak && 2.0 * peak <= target * dt && target <= bound && dt > 0.0
    ensures Abs((x - y) / dt) <= bound
  {
    var room := dt * bound;
    MulMonotone(target, bound, dt);
    assert target * dt <= room;
    assert Abs(x - y) <= room;
    DividedBound(x - y, dt, bound);
  }

  /** The history of a robot at rest. */
  function Resting(position: Vector): History {
    History(position, ZERO, ZERO)
  }

  /** The start of a converging run: at rest, in the unsaturated range. */
  ghost predicate AtRest(h: Handle, target: Vector, w: real) {
    && Facing(h, target)
    && h.previous == Resting(h.previous.position) && InLimits(h.previous.position)
    && UnsaturatedTrack(target, h.previous.position, w, StepOf(h), h.limits.recoverable, h.limits.jerk)
  }

  /** While shaping lasts, the loop is never rejected and converges as the
      limiter's cycles do: geometrically and without crossing the destination. */
  lemma {:induction false} ShapedRunConverges(h: Handle, proposed: Point, w: real, n: nat)
    requires AtRest(h, proposed.position, w) && Slow(proposed.position, h.previous.position, w, h.limits)
    requires h.previousCommand + (n + 1) * h.resampler.servoPeriod <= MAX_U64
    ensures Begun(h) && StepOf(h) > 0.0
    ensures StillShaping(h, proposed.position, n) ==>
              Ticks(h, n).Ok? && Tracked(proposed, h.previous.position, w, StepOf(h), Ticks(h, n).value.previous, n)
  {
    hide Tick, Ticks, Shapes, Dispatched, Tracked, Facing, Later, Begun, StepOf, UnsaturatedTrack, Slow, ShapedOf;
    var target := proposed.position;
    IsReady(h, target);
    if n == 0 {
      LaterBegins(h, target, n);
      RestIsTracked(proposed, h.previous.position, w, StepOf(h), h.limits.recoverable, h.limits.jerk);
    } else if StillShaping(h, target, n) {
      assert ShapesAt(h, target, n - 1);
      Multiple(n + 1, h.resampler.servoPeriod);
      ShapedRunConverges(h, proposed, w, n - 1);
      var s := Ticks(h, n - 1).value;
      RunFaces(h, target, n - 1);
      LaterFaces(h, s, target, n - 1);
      ShapedCyclePasses(proposed, h.previous.position, w, StepOf(h), h.limits, s.previous, n - 1);
      ShapedTickHasRoom(h, s, target, n);
      ShapedTick(s, target);
      OneMoreTick(h, n - 1);
    }
  }

  lemma ShapedTickHasRoom(h: Handle, s: Handle, target: Vector, n: nat)
    requires n > 0 && Later(h, s, target, n - 1) && h.previousCommand + (n + 1) * h.resampler.servoPeriod <= MAX_U64
    ensures s.resampler.servoPeriod + Due(s) <= MAX_U64
  {
    Multiple(n, h.resampler.servoPeriod);
    Multiple(n + 1, h.resampler.servoPeriod);
  }
}
