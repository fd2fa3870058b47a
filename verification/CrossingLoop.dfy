// Runs that were shaped before they land. Shaping always ends, the landing after
// it is too fast to be held, and so the loop reaches its destination without
// crossing it exactly when it never had to be shaped.

module CrossingLoop {
  import opened Results
  import opened Reals
  import opened Joints
  import opened ServoPoints
  import opened TransitionLimiter
  import opened MotionGate
  import opened ResamplerSpec
  import opened SelectedOutputSpec
  import opened LimiterConvergence
  import opened SelectionLoop
  import opened DestinationLoop
  import opened LandingLoop

  // ---- landing after shaping -----------------------------------------------

  /** No candidate of the run crosses a velocity limit. */
  ghost predicate InReach(start: Vector, target: Vector, l: Limits, dt: real) {
    forall j | 0 <= j < 6 :: Abs(target[j] - start[j]) <= ReachOf(l, dt, j).velocity
  }

  /** One step of jerk is within the acceleration boundary. */
  predicate JerkBinds(l: Limits, dt: real) {
    (l.jerk + SLACK) * dt <= l.recoverable + SLACK
  }

  lemma JerkIsLess(l: Limits, dt: real, j: nat)
    requires j < 6 && dt > 0.0 && ValidLimits(l) && JerkBinds(l, dt)
    ensures 0.0 < ReachOf(l, dt, j).jerk <= ReachOf(l, dt, j).acceleration
  {
    Landing.ReachPositive(BoundsOf(l, j), dt);
    Landing.PowersMonotone((l.jerk + SLACK) * dt, l.recoverable + SLACK, dt);
    Landing.StepIs(l.jerk + SLACK, dt, (l.jerk + SLACK) * dt);
  }

  /** A velocity within reach is also slow enough for the feedback. */
  lemma ReachIsSlow(start: Vector, target: Vector, w: real, l: Limits, dt: real)
    requires dt > 0.0 && w > 0.0 && w * dt <= 0.5 && ValidLimits(l) && InReach(start, target, l, dt)
    ensures Slow(target, start, w, l)
  {
    hide Speed;
    forall j | 0 <= j < 6
      ensures Speed(w, Abs(target[j] - start[j])) <= l.velocity[j] + SLACK
    {
      SpeedWithin(w, dt, Abs(target[j] - start[j]), l.velocity[j] + SLACK, (l.velocity[j] + SLACK) * dt);
    }
  }

  lemma SpeedWithin(w: real, dt: real, e: real, v: real, reach: real)
    requires dt > 0.0 && w > 0.0 && w * dt <= 0.5 && v > 0.0 && reach == v * dt && e <= reach
    ensures Speed(w, e) <= v
  {
    MulMonotone(e, reach, w);
    assert reach * w == (w * dt) * v;
    MulMonotone(w * dt, 0.5, v);
  }

  /** An unclamped cycle is a free step on every joint. */
  lemma JointSteps(proposed: Point, t: History, l: Limits, dt: real, w: real, j: nat)
    requires j < 6 && dt > 0.0 && AccelerationTarget(l.recoverable) > 0.0
    requires Unclamped(proposed, t, Dispatched(t, ShapedOf(t, proposed.position, l, dt), dt), w)
    ensures var next := Dispatched(t, ShapedOf(t, proposed.position, l, dt), dt);
            Landing.Steps(t.Joint(j), next.Joint(j), proposed.position[j], w * dt, dt)
  {
    hide AccelerationTarget, JerkTarget, ShapedAcceleration, Measured, Landing.Steps;
    var m, target, a, jerk := t.Joint(j), proposed.position[j], AccelerationTarget(l.recoverable), JerkTarget(l.jerk);
    var next := Dispatched(t, ShapedOf(t, proposed.position, l, dt), dt).Joint(j);
    MeasuredIsShaped(target, m, dt, a, jerk);
    assert next == Shaped(target, m, dt, a, jerk);
    assert next.acceleration == DesiredAcceleration(target, m, w);
    assert next == Integrated(m, DesiredAcceleration(target, m, w), dt);
    Landing.FreeMotion(m, target, w, dt, w * dt);
  }

  lemma JointBehind(proposed: Point, start: Vector, w: real, dt: real, t: History, n: nat, j: nat)
    requires j < 6 && w > 0.0 && dt > 0.0 && Tracked(proposed, start, w, dt, t, n)
    ensures Landing.Behind(t.Joint(j), proposed.position[j], w * dt, dt)
    ensures var e0, e := proposed.position[j] - start[j], proposed.position[j] - t.position[j];
            Abs(e) <= Abs(e0) && (e > 0.0 ==> e0 > 0.0) && (e < 0.0 ==> e0 < 0.0)
  {
    hide Pow, Decay, Peak, InLimits, Landing.Behind;
    assert Calm(t.Joint(j), proposed.position[j], w, Abs(proposed.position[j] - start[j]));
    assert Converged(t, proposed.position, start, w, dt, n, j);
    Landing.SpeedIsBehind(t.Joint(j), proposed.position[j], w, w * dt, dt);
  }

  /** The state before the last shaped cycle: at rest, or after another cycle. */
  ghost predicate Preceded(proposed: Point, start: Vector, w: real, dt: real, l: Limits, t0: History, t: History, n: nat)
    requires dt > 0.0 && AccelerationTarget(l.recoverable) > 0.0
  {
    if n == 0 then t == Resting(start)
    else && Tracked(proposed, start, w, dt, t0, n - 1)
         && t == Dispatched(t0, ShapedOf(t0, proposed.position, l, dt), dt)
         && Unclamped(proposed, t0, t, w)
  }

  /** A landing right after a shaped cycle is followed by one beyond the destination. */
  lemma LandingAfterShaping(proposed: Point, start: Vector, w: real, dt: real, l: Limits,
                            t0: History, t: History, t': History, n: nat)
    requires dt > 0.0 && ValidLimits(l) && AccelerationTarget(l.recoverable) > 0.0
    requires UnsaturatedTrack(proposed.position, start, w, dt, l.recoverable, l.jerk)
    requires InReach(start, proposed.position, l, dt) && JerkBinds(l, dt)
    requires Tracked(proposed, start, w, dt, t, n) && Preceded(proposed, start, w, dt, l, t0, t, n)
    requires t' == Dispatched(t, ShapedOf(t, proposed.position, l, dt), dt) && Unclamped(proposed, t, t', w)
    requires Shapes(t, proposed.position, l, dt)
    ensures var landed := Dispatched(t', proposed.position, dt);
            && Shapes(landed, proposed.position, l, dt)
            && Overshoots(start, proposed.position, ShapedOf(landed, proposed.position, l, dt))
  {
    var target := proposed.position;
    UnsaturatedBoundaries(target, start, w, dt, l.recoverable, l.jerk);
    ShapesMeans(Dispatched(t', target, dt), target, l, dt);
    ShapesMeans(t, target, l, dt);
    hide Shapes, UnsaturatedTrack, AccelerationTarget, JerkTarget, Landing.Crosses;
    var j: nat :| j < 6 && Landing.Crosses(t.Joint(j), target[j], BoundsOf(l, j), dt);
    CrossingJoint(proposed, start, w, dt, l, t0, t, t', n, j);
    JointBehind(proposed, start, w, dt, t, n, j);
    hide Tracked, Preceded, Unclamped, Shaped, Landing.Behind;
    var landed := Dispatched(t', target, dt);
    assert landed.Joint(j) == Measured(target[j], t'.Joint(j), dt);
    assert Beyond(start[j], target[j], ShapedOf(landed, target, l, dt)[j]);
  }

  lemma CrossingJoint(proposed: Point, start: Vector, w: real, dt: real, l: Limits,
                      t0: History, t: History, t': History, n: nat, j: nat)
    requires j < 6 && dt > 0.0 && w > 0.0 && w * dt <= 0.5 && ValidLimits(l) && AccelerationTarget(l.recoverable) > 0.0
    requires InReach(start, proposed.position, l, dt) && JerkBinds(l, dt)
    requires Tracked(proposed, start, w, dt, t, n) && Preceded(proposed, start, w, dt, l, t0, t, n)
    requires t' == Dispatched(t, ShapedOf(t, proposed.position, l, dt), dt) && Unclamped(proposed, t, t', w)
    requires Landing.Crosses(t.Joint(j), proposed.position[j], BoundsOf(l, j), dt)
    ensures Landing.Crosses(Measured(proposed.position[j], t'.Joint(j), dt), proposed.position[j], BoundsOf(l, j), dt)
    ensures var target := proposed.position[j];
            var next := Shaped(target, Measured(target, t'.Joint(j), dt), dt,
                               AccelerationTarget(l.recoverable), JerkTarget(l.jerk));
            if target > t.position[j] then next.position > target else next.position < target && target < t.position[j]
  {
    hide AccelerationTarget, JerkTarget, Landing.Crosses, Landing.Within, Landing.Travel, Landing.Swing, Landing.Reach,
         Shaped, Measured, Landing.Steps, Landing.Behind, Tracked, Unclamped, ShapedOf, Dispatched;
    var target, rho := proposed.position[j], w * dt;
    Landing.PositiveSquare(w, dt, rho);
    Landing.CandidateWithin(t.Joint(j), target, BoundsOf(l, j), dt);
    JointBehind(proposed, start, w, dt, t, n, j);
    JointSteps(proposed, t, l, dt, w, j);
    if n == 0 {
      Landing.NothingMoves(t.Joint(j), dt);
    } else {
      JointBehind(proposed, start, w, dt, t0, n - 1, j);
      JointSteps(proposed, t0, l, dt, w, j);
    }
    JerkIsLess(l, dt, j);
    JerkTargetIsBelow(l.jerk);
    Landing.CrossingGoesPast(t0.Joint(j), t.Joint(j), t'.Joint(j), target, AccelerationTarget(l.recoverable),
                             JerkTarget(l.jerk), BoundsOf(l, j), dt, rho, n == 0);
  }

  /** The histories along the shaped part of a run. */
  lemma ShapedStretch(h: Handle, proposed: Point, w: real, n: nat)
    requires AtRest(h, proposed.position, w) && InReach(h.previous.position, proposed.position, h.limits, StepOf(h))
    requires h.previousCommand + (n + 1) * h.resampler.servoPeriod <= MAX_U64
    ensures Begun(h) && StepOf(h) > 0.0 && AccelerationTarget(h.limits.recoverable) > 0.0
    ensures StillShaping(h, proposed.position, n) && n > 0 ==>
              && Ticks(h, n - 1).Ok? && Ticks(h, n).Ok?
              && var t, t' := Ticks(h, n - 1).value.previous, Ticks(h, n).value.previous;
              && Tracked(proposed, h.previous.position, w, StepOf(h), t, n - 1)
              && Shapes(t, proposed.position, h.limits, StepOf(h))
              && t' == Dispatched(t, ShapedOf(t, proposed.position, h.limits, StepOf(h)), StepOf(h))
              && Unclamped(proposed, t, t', w)
  {
    hide Tick, Ticks, Shapes, Dispatched, Tracked, Facing, Later, Begun, StepOf, UnsaturatedTrack, Slow, ShapedOf, Unclamped,
         InReach;
    var target := proposed.position;
    IsReady(h, target);
    UnsaturatedBoundaries(target, h.previous.position, w, StepOf(h), h.limits.recoverable, h.limits.jerk);
    FrequencyIsPositive(h, target, w);
    ReachIsSlow(h.previous.position, target, w, h.limits, StepOf(h));
    if StillShaping(h, target, n) && n > 0 {
      assert ShapesAt(h, target, n - 1);
      Multiple(n + 1, h.resampler.servoPeriod);
      ShapedRunConverges(h, proposed, w, n - 1);
      ShapedRunConverges(h, proposed, w, n);
      FewerTicks(h, n);
      var s := Ticks(h, n - 1).value;
      RunFaces(h, target, n - 1);
      LaterFaces(h, s, target, n - 1);
      ShapedCyclePasses(proposed, h.previous.position, w, StepOf(h), h.limits, s.previous, n - 1);
      ShapedTick(s, target);
    }
  }

  lemma FrequencyIsPositive(h: Handle, target: Vector, w: real)
    requires AtRest(h, target, w)
    ensures w > 0.0
  {
  }

  lemma StillShapingBefore(h: Handle, target: Vector, n: nat)
    requires Begun(h) && StepOf(h) > 0.0 && n > 0 && StillShaping(h, target, n)
    ensures StillShaping(h, target, n - 1)
  {
  }

  /** A run that was shaped n times and then lands: the destination itself, and
      after it a point beyond it, unless that one is rejected. */
  lemma LandsBeyond(h: Handle, proposed: Point, w: real, n: nat)
    requires AtRest(h, proposed.position, w) && InReach(h.previous.position, proposed.position, h.limits, StepOf(h))
    requires JerkBinds(h.limits, StepOf(h))
    requires h.previousCommand + (n + 1) * h.resampler.servoPeriod <= MAX_U64
    ensures Begun(h) && StepOf(h) > 0.0
    ensures n > 0 && StillShaping(h, proposed.position, n) && !ShapesAt(h, proposed.position, n) ==>
              && Kept(h, proposed.position, n + 1)
              && (Ticks(h, n + 2).Ok? ==>
                   Overshoots(h.previous.position, proposed.position, Ticks(h, n + 2).value.previous.position))
  {
    hide Tick, Ticks, Shapes, Dispatched, Tracked, Facing, Later, Begun, StepOf, UnsaturatedTrack, Slow, ShapedOf, Unclamped,
         InReach, JerkBinds, Overshoots;
    var target := proposed.position;
    IsReady(h, target);
    if n > 0 && StillShaping(h, target, n) && !ShapesAt(h, target, n) {
      ShapedStretch(h, proposed, w, n);
      StillShapingBefore(h, target, n);
      Multiple(n + 1, h.resampler.servoPeriod);
      ShapedStretch(h, proposed, w, n - 1);
      var s := Ticks(h, n).value;
      var t := Ticks(h, n - 1).value.previous;
      var t0 := if n == 1 then t else Ticks(h, n - 2).value.previous;
      LaterBegins(h, target, 0);
      RunFaces(h, target, n);
      LaterFaces(h, s, target, n);
      LandingAfterShaping(proposed, h.previous.position, w, StepOf(h), h.limits, t0, t, s.previous, n - 1);
      PlainThenShaped(h, s, target, n);
    }
  }

  /** A plain tick onto the destination, and what a shaped one after it does. */
  lemma PlainThenShaped(h: Handle, s: Handle, target: Vector, n: nat)
    requires Begun(h) && Ticks(h, n) == Ok(s) && Facing(s, target) && StepOf(s) > 0.0
    requires !Shapes(s.previous, target, s.limits, StepOf(s)) && AccelerationTarget(s.limits.recoverable) > 0.0
    requires Shapes(Dispatched(s.previous, target, StepOf(s)), target, s.limits, StepOf(s))
    ensures Kept(h, target, n + 1)
    ensures Ticks(h, n + 2).Ok? ==>
              Ticks(h, n + 2).value.previous.position
              == ShapedOf(Dispatched(s.previous, target, StepOf(s)), target, s.limits, StepOf(s))
  {
    hide Tick, Ticks, Shapes, StepOf, Facing, Begun, ShapedOf, Dispatched;
    PlainTick(s, target);
    OneMoreTick(h, n);
    var next := Tick(s).value.0;
    FollowsLanded(s, next, target);
    ShapedTick(next, target);
    ShapedPosition(next, target);
    OneMoreTick(h, n + 1);
  }

  // ---- shaping ends, and what the whole run then amounts to ----------------

  /** n cycles of the geometric decay bring every error below the jerk boundary. */
  ghost predicate Enough(start: Vector, target: Vector, l: Limits, dt: real, w: real, n: nat) {
    forall j | 0 <= j < 6 :: Landing.LongEnough(target[j] - start[j], w * dt, n, ReachOf(l, dt, j).jerk)
  }

  lemma QuietJoint(proposed: Point, start: Vector, w: real, dt: real, l: Limits, t: History, t': History, n: nat, j: nat)
    requires j < 6 && dt > 0.0 && w > 0.0 && w * dt <= 0.5 && ValidLimits(l) && AccelerationTarget(l.recoverable) > 0.0
    requires InReach(start, proposed.position, l, dt) && JerkBinds(l, dt)
    requires Enough(start, proposed.position, l, dt, w, n)
    requires Tracked(proposed, start, w, dt, t, n) && Tracked(proposed, start, w, dt, t', n + 1)
    requires t' == Dispatched(t, ShapedOf(t, proposed.position, l, dt), dt) && Unclamped(proposed, t, t', w)
    ensures !Landing.Crosses(t'.Joint(j), proposed.position[j], BoundsOf(l, j), dt)
  {
    hide AccelerationTarget, JerkTarget, Landing.Crosses, Landing.Travel, Landing.Swing, Landing.Reach, Landing.FreeSwing,
         Landing.FreeStepTo, Landing.Approaching, Landing.DecayedTo, Landing.LongEnough, Tracked, Unclamped, ShapedOf,
         Dispatched;
    var target, rho := proposed.position[j], w * dt;
    Landing.PositiveSquare(w, dt, rho);
    Landing.CandidateWithin(t'.Joint(j), target, BoundsOf(l, j), dt);
    JointBehind(proposed, start, w, dt, t, n, j);
    JointBehind(proposed, start, w, dt, t', n + 1, j);
    JointSteps(proposed, t, l, dt, w, j);
    JerkIsLess(l, dt, j);
    JointDecay(proposed, start, w, dt, t, n, j);
    Landing.SidesOf(t.Joint(j), target, rho, dt);
    Landing.DecayedEitherWay(target - t.position[j], Landing.Travel(t.Joint(j), dt), target - t'.position[j],
                             Landing.Travel(t'.Joint(j), dt), Landing.Swing(t'.Joint(j), dt), target - start[j], rho, n,
                             ReachOf(l, dt, j));
  }

  lemma JointDecay(proposed: Point, start: Vector, w: real, dt: real, t: History, n: nat, j: nat)
    requires j < 6 && Tracked(proposed, start, w, dt, t, n)
    ensures Landing.DecayedTo(proposed.position[j] - t.position[j], proposed.position[j] - start[j], w * dt, n)
  {
    hide Pow, InLimits;
    assert Converged(t, proposed.position, start, w, dt, n, j);
  }

  lemma QuietAfter(proposed: Point, start: Vector, w: real, dt: real, l: Limits, t: History, t': History, n: nat)
    requires dt > 0.0 && w > 0.0 && w * dt <= 0.5 && ValidLimits(l) && AccelerationTarget(l.recoverable) > 0.0
    requires InReach(start, proposed.position, l, dt) && JerkBinds(l, dt)
    requires Enough(start, proposed.position, l, dt, w, n)
    requires Tracked(proposed, start, w, dt, t, n) && Tracked(proposed, start, w, dt, t', n + 1)
    requires t' == Dispatched(t, ShapedOf(t, proposed.position, l, dt), dt) && Unclamped(proposed, t, t', w)
    ensures !Shapes(t', proposed.position, l, dt)
  {
    ShapesMeans(t', proposed.position, l, dt);
    hide Shapes, InReach, JerkBinds, Enough, Tracked, Unclamped, ShapedOf, Dispatched, Landing.Crosses, AccelerationTarget;
    forall j: nat | j < 6
      ensures !Landing.Crosses(t'.Joint(j), proposed.position[j], BoundsOf(l, j), dt)
    {
      QuietJoint(proposed, start, w, dt, l, t, t', n, j);
    }
  }

  /** Shaping lasts at most n + 1 ticks. */
  lemma ShapingEnds(h: Handle, proposed: Point, w: real, n: nat)
    requires AtRest(h, proposed.position, w) && InReach(h.previous.position, proposed.position, h.limits, StepOf(h))
    requires JerkBinds(h.limits, StepOf(h))
    requires Enough(h.previous.position, proposed.position, h.limits, StepOf(h), w, n)
    requires h.previousCommand + (n + 2) * h.resampler.servoPeriod <= MAX_U64
    ensures Begun(h) && StepOf(h) > 0.0
    ensures exists k: nat | k <= n + 1 :: StillShaping(h, proposed.position, k) && !ShapesAt(h, proposed.position, k)
  {
    hide Tick, Ticks, Shapes, Dispatched, Tracked, Facing, Later, Begun, StepOf, UnsaturatedTrack, Slow, ShapedOf, Unclamped,
         InReach, JerkBinds, Enough;
    var target := proposed.position;
    IsReady(h, target);
    FrequencyIsPositive(h, target, w);
    UnsaturatedBoundaries(target, h.previous.position, w, StepOf(h), h.limits.recoverable, h.limits.jerk);
    ReachIsSlow(h.previous.position, target, w, h.limits, StepOf(h));
    if StillShaping(h, target, n + 1) {
      ShapedStretch(h, proposed, w, n + 1);
      ShapedRunConverges(h, proposed, w, n + 1);
      QuietAfter(proposed, h.previous.position, w, StepOf(h), h.limits, Ticks(h, n).value.previous,
                 Ticks(h, n + 1).value.previous, n);
      assert !ShapesAt(h, target, n + 1);
    } else {
      FirstPlain(h, target, n + 1);
    }
  }

  lemma {:induction false} FirstPlain(h: Handle, target: Vector, n: nat)
    requires Begun(h) && StepOf(h) > 0.0 && !StillShaping(h, target, n)
    ensures exists k: nat | k < n :: StillShaping(h, target, k) && !ShapesAt(h, target, k)
  {
    hide ShapesAt;
    if n > 0 {
      if StillShaping(h, target, n - 1) {
        assert !ShapesAt(h, target, n - 1);
      } else {
        FirstPlain(h, target, n - 1);
      }
    }
  }

  /** Tick k is not rejected, and its command is not beyond the destination. */
  ghost predicate Clean(h: Handle, target: Vector, k: nat)
    requires Begun(h)
  {
    Ticks(h, k).Ok? && !Overshoots(h.previous.position, target, Ticks(h, k).value.previous.position)
  }

  /** From rest in the unsaturated range the loop reaches its destination without
      a rejection and without crossing it if and only if the error was gentle on
      every joint, and so was never shaped at all. */
  lemma CleanExactly(h: Handle, proposed: Point, w: real, n: nat)
    requires AtRest(h, proposed.position, w) && InReach(h.previous.position, proposed.position, h.limits, StepOf(h))
    requires JerkBinds(h.limits, StepOf(h))
    requires Enough(h.previous.position, proposed.position, h.limits, StepOf(h), w, n)
    requires h.previousCommand + (n + 2) * h.resampler.servoPeriod <= MAX_U64
    ensures Begun(h)
    ensures (forall k: nat | k <= n + 3 :: Clean(h, proposed.position, k))
       <==> AllGentle(h.previous.position, proposed.position, h.limits, StepOf(h))
  {
    hide Tick, Ticks, Shapes, Facing, Begun, StepOf, UnsaturatedTrack, InReach, JerkBinds, Enough, AllGentle, ShortStep;
    var target := proposed.position;
    IsReady(h, target);
    if AllGentle(h.previous.position, target, h.limits, StepOf(h)) {
      RatioIsShort(h, target, w);
      LandsAndStays(h, target);
      FirstTicks(h);
      forall k: nat | k <= n + 3
        ensures Clean(h, target, k)
      {
        assert k >= 1 ==> Kept(h, target, k);
      }
    } else {
      ShapingEnds(h, proposed, w, n);
      var k: nat :| k <= n + 1 && StillShaping(h, target, k) && !ShapesAt(h, target, k);
      hide Overshoots;
      FirstTicks(h);
      if k == 0 {
        RoughLandingOvershoots(h, target);
      } else {
        ClockAllows(h, n, k);
        LandsBeyond(h, proposed, w, k);
      }
      assert !Clean(h, target, k + 2);
    }
  }

  lemma ClockAllows(h: Handle, n: nat, k: nat)
    requires k <= n + 1 && h.previousCommand + (n + 2) * h.resampler.servoPeriod <= MAX_U64
    ensures h.previousCommand + (k + 1) * h.resampler.servoPeriod <= MAX_U64
  {
    FewerPeriods(k + 1, n + 2, h.resampler.servoPeriod);
  }

  lemma FewerPeriods(few: nat, many: nat, period: nat)
    requires few <= many
    ensures few * period <= many * period
  {
    var rest := many - few;
    assert many * period == few * period + rest * period;
  }

  lemma RatioIsShort(h: Handle, target: Vector, w: real)
    requires AtRest(h, target, w)
    ensures ShortStep(h.limits, StepOf(h))
  {
    hide StepOf, AccelerationTarget, JerkTarget;
    UnsaturatedBoundaries(target, h.previous.position, w, StepOf(h), h.limits.recoverable, h.limits.jerk);
    assert Unsaturated(AccelerationTarget(h.limits.recoverable), JerkTarget(h.limits.jerk), w, StepOf(h),
                       Abs(target[0] - h.previous.position[0]));
  }
}

/** A run that meets every premise of convergence and overshoots. */
module OvershootExample {
  import opened Results
  import opened Reals
  import opened Joints
  import opened ServoPoints
  import opened TransitionLimiter
  import opened MotionGate
  import opened ResamplerSpec
  import opened SelectedOutputSpec
  import opened EnvelopeClosure
  import opened LimiterConvergence
  import opened SelectionLoop
  import opened DestinationLoop
  import opened LandingLoop
  import opened CrossingLoop

  /** The first target, and the first one after a hold, put the loop in this state. */
  lemma FirstTargetFaces(h: Handle, target: Vector, accepted: nat, sequence: nat)
    requires Closed(h) && h.resampler.emitted == h.previous.position
    requires !h.resampler.hasAccepted || h.resampler.internalHold
    requires Accept(h.resampler, target, accepted, sequence).Ok?
    ensures Facing(h.(resampler := Accept(h.resampler, target, accepted, sequence).value), target)
  {
    OutcomeIsClosed(h, AcceptCall(target, accepted, sequence));
  }

  /** The worker's default limits, an 8 ms period, at rest at zero. */
  const PERIOD: nat := 8_000_000
  const DEFAULTS: Limits := Limits([PI, PI, PI, PI, PI, PI], 4.0 * PI, 4.0 * PI, 20.0 * PI)
  const NEARBY: Vector := [0.00002, 0.0, 0.0, 0.0, 0.0, 0.0]

  function Example(): Result<Handle, Error> {
    match Initialize(Fresh(PERIOD), ZERO, PERIOD)
    case Err(e) => Err(e)
    case Ok(r) =>
      match Accept(r, NEARBY, 1, 1)
      case Err(e) => Err(e)
      case Ok(accepted) => Ok(Handle(accepted, DEFAULTS, Resting(ZERO), PERIOD, true, false))
  }

  lemma ExampleFaces()
    ensures Example().Ok? && Facing(Example().value, NEARBY) && StepOf(Example().value) == 0.008
    ensures Example().value.limits == DEFAULTS && Example().value.previous == Resting(ZERO)
    ensures Example().value.resampler.servoPeriod == PERIOD && Example().value.previousCommand == PERIOD
  {
    var r := Initialize(Fresh(PERIOD), ZERO, PERIOD).value;
    InitialIsClosed(Fresh(PERIOD), DEFAULTS, ZERO, PERIOD);
    FirstTargetFaces(Handle(r, DEFAULTS, Resting(ZERO), PERIOD, true, false), NEARBY, 1, 1);
    hide Facing, Closed;
  }

  function Frequency(l: Limits): real
    requires AccelerationTarget(l.recoverable) > 0.0
  {
    JerkTarget(l.jerk) / AccelerationTarget(l.recoverable)
  }

  lemma DefaultFrequency()
    ensures AccelerationTarget(DEFAULTS.recoverable) > 0.0
    ensures 4.97 < Frequency(DEFAULTS) < 4.98
  {
    var w := Frequency(DEFAULTS);
    assert w * AccelerationTarget(DEFAULTS.recoverable) == JerkTarget(DEFAULTS.jerk);
  }

  lemma ExampleIsUnsaturated()
    ensures AccelerationTarget(DEFAULTS.recoverable) > 0.0
    ensures UnsaturatedTrack(NEARBY, ZERO, Frequency(DEFAULTS), 0.008, DEFAULTS.recoverable, DEFAULTS.jerk)
    ensures InReach(ZERO, NEARBY, DEFAULTS, 0.008) && JerkBinds(DEFAULTS, 0.008)
  {
    DefaultFrequency();
    var w := Frequency(DEFAULTS);
    MulMonotone(w, 4.98, w);
    assert w * w <= 25.0;
    forall j | 0 <= j < 6
      ensures Unsaturated(AccelerationTarget(DEFAULTS.recoverable), JerkTarget(DEFAULTS.jerk), w, 0.008,
                          Abs(NEARBY[j] - ZERO[j]))
    {
      MulMonotone(Abs(NEARBY[j] - ZERO[j]), 0.00002, w * w);
      MulNonNegative(w * w, Abs(NEARBY[j] - ZERO[j]));
    }
  }

  lemma ExampleIsRough()
    ensures !AllGentle(ZERO, NEARBY, DEFAULTS, 0.008)
  {
    assert !Landing.Gentle(NEARBY[0] - ZERO[0], ReachOf(DEFAULTS, 0.008, 0));
  }

  lemma ExampleIsPlain()
    ensures !Shapes(Resting(ZERO), NEARBY, DEFAULTS, 0.008)
  {
    hide Shapes, Landing.Crosses;
    ShapesMeans(Resting(ZERO), NEARBY, DEFAULTS, 0.008);
    forall j: nat | j < 6
      ensures !Landing.Crosses(Resting(ZERO).Joint(j), NEARBY[j], BoundsOf(DEFAULTS, j), 0.008)
    {
      RestJoint(ZERO, NEARBY, DEFAULTS, 0.008, j);
      ExampleReach(j);
    }
  }

  lemma ExampleReach(j: nat)
    requires j < 6
    ensures Landing.Within(NEARBY[j] - ZERO[j], 0.0, 0.0, ReachOf(DEFAULTS, 0.008, j))
  {
  }

  lemma ExampleLands(j: nat)
    requires j < 6
    ensures Dispatched(Resting(ZERO), NEARBY, 0.008).Joint(j)
         == if j == 0 then Motion(0.00002, 0.0025, 0.3125) else Motion(0.0, 0.0, 0.0)
  {
    hide Dispatched, Measured, Landing.Crosses, Landing.Within, Landing.Travel, Landing.Swing, Landing.Reach;
    RestJoint(ZERO, NEARBY, DEFAULTS, 0.008, j);
    ExampleMeasures();
    assert ZERO[j] == 0.0 && NEARBY[j] == if j == 0 then 0.00002 else 0.0;
  }

  lemma ExampleMeasures()
    ensures Measured(0.00002, Motion(0.0, 0.0, 0.0), 0.008) == Motion(0.00002, 0.0025, 0.3125)
    ensures Measured(0.0, Motion(0.0, 0.0, 0.0), 0.008) == Motion(0.0, 0.0, 0.0)
  {
    assert 0.00002 / 0.008 == 0.0025 && 0.0025 / 0.008 == 0.3125;
  }

  /** The shaped step after the landing. */
  lemma ExampleShape(a: real, jerk: real)
    requires a == AccelerationTarget(DEFAULTS.recoverable) && jerk == JerkTarget(DEFAULTS.jerk)
    ensures a > 0.0
    ensures var m := Motion(0.00002, 0.0025, 0.3125);
            var next := Shaped(0.00002, m, 0.008, a, jerk);
            && 0.000038 < next.position < 0.00004 && 0.0 < next.velocity < 0.0025 && -0.025 < next.acceleration < 0.0
    ensures Shaped(0.0, Motion(0.0, 0.0, 0.0), 0.008, a, jerk) == Motion(0.0, 0.0, 0.0)
  {
    DefaultFrequency();
    var w := Frequency(DEFAULTS);
    assert w == jerk / a;
    var d := DesiredAcceleration(0.00002, Motion(0.00002, 0.0025, 0.3125), w);
    assert d == -0.005 * w;
    assert DesiredAcceleration(0.0, Motion(0.0, 0.0, 0.0), w) == 0.0;
  }

  /** The gate's view of one joint of that step. */
  lemma ExampleJoint(landed: History, shaped: Vector, j: nat)
    requires j < 6 && AccelerationTarget(DEFAULTS.recoverable) > 0.0
    requires landed == Dispatched(Resting(ZERO), NEARBY, 0.008) && shaped == ShapedOf(landed, NEARBY, DEFAULTS, 0.008)
    ensures LOWER[j] <= shaped[j] <= UPPER[j] && (j == 0 ==> shaped[j] > NEARBY[j] + 0.000018)
    ensures var d := Differences(shaped, landed, 0.008);
            Abs(d.velocity[j]) <= PI && Abs(d.acceleration[j]) <= 4.0 * PI && Abs(d.jerk[j]) <= 20.0 * PI
  {
    hide Shaped, Dispatched, ShapedAcceleration, AccelerationTarget, JerkTarget, Measured;
    var a, jerk := AccelerationTarget(DEFAULTS.recoverable), JerkTarget(DEFAULTS.jerk);
    var m := landed.Joint(j);
    ExampleLands(j);
    ExampleShape(a, jerk);
    MeasuredIsShaped(NEARBY[j], m, 0.008, a, jerk);
    var next := Shaped(NEARBY[j], m, 0.008, a, jerk);
    assert shaped[j] == next.position;
    assert Differences(shaped, landed, 0.008).velocity[j] == next.velocity;
    assert Differences(shaped, landed, 0.008).acceleration[j] == next.acceleration;
    assert Differences(shaped, landed, 0.008).jerk[j] == (next.acceleration - m.acceleration) / 0.008;
  }

  lemma ExamplePasses(landed: History, shaped: Vector)
    requires AccelerationTarget(DEFAULTS.recoverable) > 0.0
    requires landed == Dispatched(Resting(ZERO), NEARBY, 0.008) && shaped == ShapedOf(landed, NEARBY, DEFAULTS, 0.008)
    ensures InLimits(shaped) && shaped[0] > NEARBY[0] + 0.000018
    ensures WithinFinalBoundaries(Differences(shaped, landed, 0.008), DEFAULTS.velocity, DEFAULTS.hard, DEFAULTS.jerk)
  {
    hide Dispatched, ShapedOf, Differences, AccelerationTarget;
    forall j: nat | j < 6
      ensures LOWER[j] <= shaped[j] <= UPPER[j] && (j == 0 ==> shaped[j] > NEARBY[j] + 0.000018)
      ensures var d := Differences(shaped, landed, 0.008);
              Abs(d.velocity[j]) <= PI && Abs(d.acceleration[j]) <= 4.0 * PI && Abs(d.jerk[j]) <= 20.0 * PI
    {
      ExampleJoint(landed, shaped, j);
    }
  }

  /** With the worker's default limits, a target 20 microradians away: all
      premises of convergence hold, the first selection lands on the target, and
      the second dispatches a point another 18 microradians beyond it. */
  lemma ConvergingRunOvershoots()
    ensures Example().Ok? && AccelerationTarget(DEFAULTS.recoverable) > 0.0
    ensures var h := Example().value;
            && AtRest(h, NEARBY, Frequency(DEFAULTS)) && Slow(NEARBY, ZERO, Frequency(DEFAULTS), DEFAULTS)
            && Begun(h) && Kept(h, NEARBY, 1) && Ticks(h, 2).Ok?
            && Ticks(h, 2).value.previous.position[0] > NEARBY[0] + 0.000018
  {
    hide Example, Tick, Ticks, Shapes, StepOf, AllGentle, Facing, Begun, ShapedOf, Dispatched, UnsaturatedTrack, Slow, InReach,
         WithinFinalBoundaries, Differences, Frequency, AccelerationTarget, InLimits;
    ExampleFaces();
    var h := Example().value;
    ExampleIsUnsaturated();
    DefaultFrequency();
    var w := Frequency(DEFAULTS);
    ReachIsSlow(ZERO, NEARBY, w, DEFAULTS, 0.008);
    RestIsInLimits();
    ExampleIsRough();
    ExampleIsPlain();
    var landed := Dispatched(Resting(ZERO), NEARBY, 0.008);
    ExamplePasses(landed, ShapedOf(landed, NEARBY, DEFAULTS, 0.008));
    IsReady(h, NEARBY);
    FirstTicks(h);
    PlainTick(h, NEARBY);
    var next := Tick(h).value.0;
    FollowsLanded(h, next, NEARBY);
    RoughLandingGoesPast(ZERO, NEARBY, DEFAULTS, 0.008);
    ShapedTick(next, NEARBY);
    ShapedPosition(next, NEARBY);
    SamePeriod(h, next);
    OneMoreTick(h, 1);
  }

  lemma RestIsInLimits()
    ensures InLimits(ZERO)
  {
  }

  lemma SamePeriod(h: Handle, next: Handle)
    requires StepOf(h) > 0.0 && h.resampler.servoPeriod == PERIOD && h.previousCommand == PERIOD
    requires next.resampler.servoPeriod == h.resampler.servoPeriod && next.previousCommand == Due(h)
    ensures next.resampler.servoPeriod + Due(next) <= MAX_U64
  {
  }
}
