// What follows the tick that dispatches the destination itself: exactly when it
// is kept, and exactly when a run from rest lands at once and stays.

module LandingLoop {
  import opened Results
  import opened Reals
  import opened Joints
  import opened TransitionLimiter
  import opened MotionGate
  import opened SelectedOutputSpec
  import opened LimiterConvergence
  import opened SelectionLoop
  import opened DestinationLoop

  // ---- at the destination --------------------------------------------------

  ghost predicate Kept(h: Handle, target: Vector, n: nat)
    requires Begun(h)
  {
    Ticks(h, n).Ok? && Ticks(h, n).value.previous.position == target
  }

  /** Every joint's travel can be stopped by the next two ticks. */
  ghost predicate AllSettle(t: History, l: Limits, dt: real) {
    forall j | 0 <= j < 6 :: Landing.Settles(Landing.Travel(t.Joint(j), dt), Landing.Swing(t.Joint(j), dt), ReachOf(l, dt, j))
  }

  /** One more dispatch of the destination, at the destination. */
  lemma HeldJoint(t: History, l: Limits, dt: real, j: nat)
    requires j < 6 && dt > 0.0 && l.velocity[j] > 0.0
    ensures var m := t.Joint(j);
            && (Landing.Crosses(m, t.position[j], BoundsOf(l, j), dt)
                <==> !Landing.Within(0.0, Landing.Travel(m, dt), Landing.Swing(m, dt), ReachOf(l, dt, j)))
    ensures var next := Dispatched(t, t.position, dt).Joint(j);
            Landing.Travel(next, dt) == 0.0 && Landing.Swing(next, dt) == -Landing.Travel(t.Joint(j), dt)
  {
    Landing.HoldingStep(t.Joint(j), BoundsOf(l, j), dt);
    assert Dispatched(t, t.position, dt).Joint(j) == Measured(t.position[j], t.Joint(j), dt);
  }

  lemma SettledHistory(t: History, l: Limits, dt: real)
    requires dt > 0.0 && ValidLimits(l) && AllSettle(t, l, dt)
    ensures !Shapes(t, t.position, l, dt)
    ensures AllSettle(Dispatched(t, t.position, dt), l, dt)
  {
    ShapesMeans(t, t.position, l, dt);
    hide Landing.Crosses, Landing.Travel, Landing.Swing, Dispatched, Shapes, Landing.Reach;
    forall j | 0 <= j < 6
      ensures !Landing.Crosses(t.Joint(j), t.position[j], BoundsOf(l, j), dt)
      ensures var next := Dispatched(t, t.position, dt).Joint(j);
              Landing.Settles(Landing.Travel(next, dt), Landing.Swing(next, dt), ReachOf(l, dt, j))
    {
      HeldJoint(t, l, dt, j);
      Landing.ReachIs(BoundsOf(l, j), dt);
    }
  }

  lemma {:induction false} StaysForever(h: Handle, target: Vector, n: nat)
    requires Facing(h, target) && h.previous.position == target && AllSettle(h.previous, h.limits, StepOf(h))
    ensures Begun(h) && Kept(h, target, n) && AllSettle(Ticks(h, n).value.previous, h.limits, StepOf(h))
  {
    hide Tick, Ticks, Shapes, Facing, Later, Begun, StepOf, AllSettle;
    IsReady(h, target);
    if n == 0 {
      LaterBegins(h, target, n);
    } else {
      StaysForever(h, target, n - 1);
      var s := Ticks(h, n - 1).value;
      RunFaces(h, target, n - 1);
      LaterFaces(h, s, target, n - 1);
      SettledHistory(s.previous, h.limits, StepOf(h));
      PlainTick(s, target);
      OneMoreTick(h, n - 1);
    }
  }

  /** The overhang of any previous acceleration fits into one nominal jerk step. */
  predicate StrictRoom(l: Limits, dt: real) {
    AccelerationMargin(l.recoverable) + SLACK <= (l.jerk + SLACK) * dt
  }

  lemma OverhangFits(h: Handle, target: Vector, j: nat)
    requires j < 6 && Facing(h, target) && StrictRoom(h.limits, StepOf(h))
    ensures Abs(h.previous.acceleration[j]) - AccelerationTarget(h.limits.recoverable) <= (h.limits.jerk + SLACK) * StepOf(h)
  {
    hide StepOf;
  }

  lemma JerkTargetIsBelow(jerk: real)
    requires jerk > 0.0
    ensures 0.0 < JerkTarget(jerk) <= jerk
  {
  }

  /** Shaping moves a joint that could not be held off its destination. */
  lemma UnheldJoint(t: History, l: Limits, dt: real, j: nat)
    requires j < 6 && dt > 0.0 && ValidLimits(l) && 0.0 < AccelerationTarget(l.recoverable) <= l.recoverable
    requires Landing.Crosses(t.Joint(j), t.position[j], BoundsOf(l, j), dt)
    requires Abs(t.acceleration[j]) - AccelerationTarget(l.recoverable) <= (l.jerk + SLACK) * dt
    ensures ShapedOf(t, t.position, l, dt)[j] != t.position[j]
  {
    hide Landing.Crosses, Landing.Within, Landing.Travel, Landing.Swing, AccelerationTarget, JerkTarget, Shaped;
    HeldJoint(t, l, dt, j);
    JerkTargetIsBelow(l.jerk);
    Landing.ShapedMovesOff(t.Joint(j), AccelerationTarget(l.recoverable), JerkTarget(l.jerk), BoundsOf(l, j), dt);
  }

  lemma UnheldMoves(h: Handle, target: Vector)
    requires Facing(h, target) && h.previous.position == target && StrictRoom(h.limits, StepOf(h))
    requires StepOf(h) > 0.0 && Shapes(h.previous, target, h.limits, StepOf(h))
    ensures Begun(h) && (Tick(h).Ok? ==> Tick(h).value.0.previous.position != target)
  {
    hide Tick, StepOf, Facing, Landing.Crosses, ShapedOf, StrictRoom, Shapes;
    IsReady(h, target);
    ShapedTick(h, target);
    ShapesMeans(h.previous, target, h.limits, StepOf(h));
    var j: nat :| j < 6 && Landing.Crosses(h.previous.Joint(j), target[j], BoundsOf(h.limits, j), StepOf(h));
    OverhangFits(h, target, j);
    UnheldJoint(h.previous, h.limits, StepOf(h), j);
  }

  lemma UnsettledShapes(t: History, l: Limits, dt: real)
    requires dt > 0.0 && ValidLimits(l) && !AllSettle(t, l, dt)
    ensures Shapes(t, t.position, l, dt) || Shapes(Dispatched(t, t.position, dt), t.position, l, dt)
  {
    var next := Dispatched(t, t.position, dt);
    ShapesMeans(t, t.position, l, dt);
    ShapesMeans(next, t.position, l, dt);
    hide Landing.Crosses, Landing.Travel, Landing.Swing, Shapes, Landing.Reach, Differences;
    var j: nat :| j < 6 && !Landing.Settles(Landing.Travel(t.Joint(j), dt), Landing.Swing(t.Joint(j), dt), ReachOf(l, dt, j));
    HeldJoint(t, l, dt, j);
    HeldJoint(next, l, dt, j);
    Landing.ReachIs(BoundsOf(l, j), dt);
  }

  lemma FirstTicks(h: Handle)
    requires Begun(h)
    ensures Ticks(h, 0) == Ok(h)
    ensures Tick(h).Ok? ==> Ticks(h, 1) == Ok(Tick(h).value.0)
    ensures Tick(h).Err? ==> Ticks(h, 1).Err?
  {
    hide Tick;
    OneMoreTick(h, 0);
  }

  /** At the destination, whatever the motion it was reached with: every later
      tick keeps it if and only if the travel settles on all joints. */
  lemma KeptExactly(h: Handle, target: Vector)
    requires Facing(h, target) && h.previous.position == target && StrictRoom(h.limits, StepOf(h))
    ensures Begun(h)
    ensures (forall n: nat :: Kept(h, target, n)) <==> AllSettle(h.previous, h.limits, StepOf(h))
  {
    hide Tick, Ticks, Shapes, StepOf, AllSettle, Facing, StrictRoom, Begun;
    IsReady(h, target);
    if AllSettle(h.previous, h.limits, StepOf(h)) {
      forall n: nat
        ensures Kept(h, target, n)
      {
        StaysForever(h, target, n);
      }
    } else {
      UnsettledShapes(h.previous, h.limits, StepOf(h));
      FirstTicks(h);
      if Shapes(h.previous, target, h.limits, StepOf(h)) {
        UnheldMoves(h, target);
        assert !Kept(h, target, 1);
      } else {
        PlainTick(h, target);
        var next := Tick(h).value.0;
        SameRoom(h, next);
        UnheldMoves(next, target);
        OneMoreTick(h, 1);
        assert !Kept(h, target, 2);
      }
    }
  }

  lemma SameRoom(h: Handle, next: Handle)
    requires next.limits == h.limits && next.resampler.servoPeriod == h.resampler.servoPeriod
    ensures StepOf(next) == StepOf(h)
    ensures StrictRoom(h.limits, StepOf(h)) ==> StrictRoom(next.limits, StepOf(next))
  {
  }

  // ---- the first selections from rest --------------------------------------

  /** On every joint the error can be closed by one step and held by the next. */
  ghost predicate AllGentle(start: Vector, target: Vector, l: Limits, dt: real) {
    forall j | 0 <= j < 6 :: Landing.Gentle(target[j] - start[j], ReachOf(l, dt, j))
  }

  lemma RestJoint(start: Vector, target: Vector, l: Limits, dt: real, j: nat)
    requires j < 6 && dt > 0.0
    ensures Landing.Crosses(Resting(start).Joint(j), target[j], BoundsOf(l, j), dt)
       <==> !Landing.Within(target[j] - start[j], 0.0, 0.0, ReachOf(l, dt, j))
    ensures var next := Dispatched(Resting(start), target, dt).Joint(j);
            && next.position == target[j] && next == Measured(target[j], Motion(start[j], 0.0, 0.0), dt)
            && Landing.Travel(next, dt) == Landing.Swing(next, dt) == target[j] - start[j]
  {
    var m := Motion(start[j], 0.0, 0.0);
    assert Resting(start).Joint(j) == m;
    assert Dispatched(Resting(start), target, dt).Joint(j) == Measured(target[j], m, dt);
    hide Measured, Landing.Crosses, Landing.Reach;
    Landing.NothingMoves(m, dt);
    Landing.CandidateWithin(m, target[j], BoundsOf(l, j), dt);
    Landing.LandedTravel(m, target[j], dt);
    hide Landing.Travel, Landing.Swing;
  }

  /** A landing from rest settles exactly when it was gentle. */
  lemma LandedFromRest(start: Vector, target: Vector, l: Limits, dt: real)
    requires dt > 0.0 && !Shapes(Resting(start), target, l, dt)
    ensures AllSettle(Dispatched(Resting(start), target, dt), l, dt) <==> AllGentle(start, target, l, dt)
  {
    ShapesMeans(Resting(start), target, l, dt);
    hide Landing.Crosses, Landing.Travel, Landing.Swing, Shapes, Landing.Reach, Dispatched, Landing.Settles, Landing.Gentle;
    var next := Dispatched(Resting(start), target, dt);
    forall j | 0 <= j < 6
      ensures Landing.Settles(Landing.Travel(next.Joint(j), dt), Landing.Swing(next.Joint(j), dt), ReachOf(l, dt, j))
         <==> Landing.Gentle(target[j] - start[j], ReachOf(l, dt, j))
    {
      RestJoint(start, target, l, dt, j);
      Landing.LandingSettles(target[j] - start[j], ReachOf(l, dt, j));
    }
  }

  lemma GentleIsPlain(start: Vector, target: Vector, l: Limits, dt: real)
    requires dt > 0.0 && ValidLimits(l) && AllGentle(start, target, l, dt)
    ensures !Shapes(Resting(start), target, l, dt)
  {
    ShapesMeans(Resting(start), target, l, dt);
    hide Landing.Crosses, Shapes, Landing.Reach;
    forall j | 0 <= j < 6
      ensures !Landing.Crosses(Resting(start).Joint(j), target[j], BoundsOf(l, j), dt)
    {
      RestJoint(start, target, l, dt, j);
      assert Landing.Gentle(target[j] - start[j], ReachOf(l, dt, j));
    }
  }

  /** The step is below the reciprocal of the shaping frequency. */
  predicate ShortStep(l: Limits, dt: real) {
    && AccelerationTarget(l.recoverable) > 0.0
    && Landing.StepRatio(JerkTarget(l.jerk), AccelerationTarget(l.recoverable), dt) < 1.0
  }

  /** From rest a shaped first selection does not land. */
  lemma ShapedFirstMisses(start: Vector, target: Vector, l: Limits, dt: real)
    requires dt > 0.0 && ValidLimits(l) && ShortStep(l, dt)
    requires Shapes(Resting(start), target, l, dt)
    ensures ShapedOf(Resting(start), target, l, dt) != target
  {
    ShapesMeans(Resting(start), target, l, dt);
    hide Landing.Crosses, Shapes, AccelerationTarget, JerkTarget, Shaped, Landing.StepRatio, Landing.Reach;
    var j: nat :| j < 6 && Landing.Crosses(Resting(start).Joint(j), target[j], BoundsOf(l, j), dt);
    RestJoint(start, target, l, dt, j);
    Landing.ReachPositive(BoundsOf(l, j), dt);
    assert target[j] != start[j];
    JerkTargetIsBelow(l.jerk);
    Landing.ShapedFallsShort(start[j], target[j], AccelerationTarget(l.recoverable), JerkTarget(l.jerk), dt);
    assert ShapedOf(Resting(start), target, l, dt)[j] != target[j];
  }

  /** A position beyond the destination, seen from the start. */
  predicate Beyond(start: real, target: real, position: real) {
    start < target < position || position < target < start
  }

  ghost predicate Overshoots(start: Vector, target: Vector, position: Vector) {
    exists j | 0 <= j < 6 :: Beyond(start[j], target[j], position[j])
  }

  /** From rest, after a landing that was not gentle, shaping goes past the destination. */
  lemma RoughLandingGoesPast(start: Vector, target: Vector, l: Limits, dt: real)
    requires dt > 0.0 && ValidLimits(l) && AccelerationTarget(l.recoverable) > 0.0
    requires !Shapes(Resting(start), target, l, dt) && !AllGentle(start, target, l, dt)
    ensures var landed := Dispatched(Resting(start), target, dt);
            && landed.position == target && Shapes(landed, target, l, dt)
            && Overshoots(start, target, ShapedOf(landed, target, l, dt))
  {
    var landed := Dispatched(Resting(start), target, dt);
    ShapesMeans(Resting(start), target, l, dt);
    ShapesMeans(landed, target, l, dt);
    hide Landing.Crosses, Shapes, AccelerationTarget, JerkTarget, Shaped, Differences, Landing.Reach;
    var j: nat :| j < 6 && !Landing.Gentle(target[j] - start[j], ReachOf(l, dt, j));
    RestJoint(start, target, l, dt, j);
    HeldJoint(landed, l, dt, j);
    JerkTargetIsBelow(l.jerk);
    Landing.LandingSettles(target[j] - start[j], ReachOf(l, dt, j));
    Landing.LandingGoesPast(start[j], target[j], AccelerationTarget(l.recoverable), JerkTarget(l.jerk), BoundsOf(l, j), dt);
    assert Beyond(start[j], target[j], ShapedOf(landed, target, l, dt)[j]);
  }

  lemma {:induction false} TicksAfterFirst(h: Handle, n: nat)
    requires Begun(h) && Tick(h).Ok?
    ensures Ticks(h, n + 1) == Ticks(Tick(h).value.0, n)
  {
    hide Tick;
    FirstTicks(h);
    if n > 0 {
      TicksAfterFirst(h, n - 1);
    }
  }

  /** From rest, with a short step: the first selection lands on the destination and every later one keeps it if
      and only if the error is gentle on every joint. */
  lemma LandsAndStays(h: Handle, target: Vector)
    requires Facing(h, target) && h.previous == Resting(h.previous.position)
    requires ShortStep(h.limits, StepOf(h))
    ensures Begun(h)
    ensures (forall n: nat :: n >= 1 ==> Kept(h, target, n)) <==> AllGentle(h.previous.position, target, h.limits, StepOf(h))
  {
    hide Tick, Ticks, Shapes, StepOf, AllSettle, AllGentle, Facing, Begun, ShapedOf, Dispatched, ShortStep;
    IsReady(h, target);
    FirstTicks(h);
    var start, l, dt := h.previous.position, h.limits, StepOf(h);
    if AllGentle(start, target, l, dt) {
      GentleIsPlain(start, target, l, dt);
      PlainTick(h, target);
      LandedFromRest(start, target, l, dt);
      FollowsLanded(h, Tick(h).value.0, target);
      forall n: nat | n >= 1
        ensures Kept(h, target, n)
      {
        TicksAfterFirst(h, n - 1);
        StaysForever(Tick(h).value.0, target, n - 1);
      }
    } else if Shapes(h.previous, target, l, dt) {
      ShapedTick(h, target);
      ShapedFirstMisses(start, target, l, dt);
      ShapedPosition(h, target);
      assert !Kept(h, target, 1);
    } else {
      RoughLandingOvershoots(h, target);
      assert !Kept(h, target, 2);
    }
  }

  lemma FollowsLanded(h: Handle, next: Handle, target: Vector)
    requires StepOf(h) > 0.0 && Follows(h, next, target, target)
    ensures next.previous.position == target && StepOf(next) == StepOf(h) && Facing(next, target) && next.limits == h.limits
    ensures next.previous == Dispatched(h.previous, target, StepOf(h))
  {
  }

  lemma ShapedPosition(h: Handle, target: Vector)
    requires Begun(h) && StepOf(h) > 0.0 && AccelerationTarget(h.limits.recoverable) > 0.0
    requires Tick(h).Ok? ==> Follows(h, Tick(h).value.0, target, ShapedOf(h.previous, target, h.limits, StepOf(h)))
    ensures Tick(h).Ok? ==> Tick(h).value.0.previous.position == ShapedOf(h.previous, target, h.limits, StepOf(h))
  {
    hide Tick, ShapedOf, Facing;
  }

  /** A first selection that lands too fast is followed by one beyond the
      destination, unless that one is rejected. */
  lemma RoughLandingOvershoots(h: Handle, target: Vector)
    requires Facing(h, target) && h.previous == Resting(h.previous.position) && StepOf(h) > 0.0
    requires !Shapes(h.previous, target, h.limits, StepOf(h))
    requires !AllGentle(h.previous.position, target, h.limits, StepOf(h))
    ensures Begun(h) && Kept(h, target, 1)
    ensures Ticks(h, 2).Ok? ==> Overshoots(h.previous.position, target, Ticks(h, 2).value.previous.position)
    ensures !Kept(h, target, 2)
  {
    hide Tick, Ticks, Shapes, StepOf, AllGentle, Facing, Begun, ShapedOf, Dispatched;
    IsReady(h, target);
    FirstTicks(h);
    PlainTick(h, target);
    var next := Tick(h).value.0;
    FollowsLanded(h, next, target);
    RoughLandingGoesPast(h.previous.position, target, h.limits, StepOf(h));
    ShapedTick(next, target);
    ShapedPosition(next, target);
    OneMoreTick(h, 1);
  }
}
