// Convergence of the transition shaper toward a fixed target, from rest.
// While neither clamp fires the shaper is a discrete second-order system; the
// lemmas show that it is over-damped, so it neither overshoots nor leaves the
// unclamped region, and that the remaining error shrinks geometrically. This is
// about uninterrupted shaping; how long the program's loop runs these cycles,
// and what follows them, is the subject of DestinationLoop and CrossingLoop.

module LimiterConvergence {
  import opened Results
  import opened Reals
  import opened Joints
  import opened ServoPoints
  import opened TransitionLimiter
  import opened MotionGate

  /** The factor by which one step shrinks the error. */
  function Decay(w: real, h: real): real {
    1.0 - (w * h) * (w * h)
  }

  function Shrunk(w: real, h: real, e: real): real {
    Decay(w, h) * e
  }

  /** The largest velocity and acceleration the shaper uses at error e. */
  function Speed(w: real, e: real): real {
    w * e
  }

  function Peak(w: real, e: real): real {
    w * w * e
  }

  /** The unclamped feedback for an error e and a velocity v, both toward the target. */
  lemma FreeStep(e: real, v: real, w: real, h: real, d: real, v': real, e': real)
    requires e >= 0.0 && w > 0.0 && h > 0.0 && w * h <= 0.5
    requires 0.0 <= v <= Speed(w, e)
    requires d == Feedback(e, v, w) && v' == v + d * h && e' == e - v' * h
    ensures -Peak(w, e) <= d <= Peak(w, e)
    ensures 0.0 <= e' <= Shrunk(w, h, e)
    ensures 0.0 <= v' <= Speed(w, e')
  {
    var q := Speed(w, e);
    var rho := w * h;
    FeedbackForm(e, v, w, h, d);
    FeedbackRange(q, v, w, d);
    assert q * w == Peak(w, e);
    VelocityBounds(v, q, rho);
    assert v' == (1.0 - 2.0 * rho) * v + rho * q;
    ErrorBounds(e, v', q, w, h, rho);
  }

  lemma FeedbackForm(e: real, v: real, w: real, h: real, d: real)
    requires d == Feedback(e, v, w)
    ensures d == (Speed(w, e) - 2.0 * v) * w
    ensures v + d * h == (1.0 - 2.0 * (w * h)) * v + (w * h) * Speed(w, e)
  {
    assert d * h == (w * h) * (Speed(w, e) - 2.0 * v);
  }

  lemma FeedbackRange(q: real, v: real, w: real, d: real)
    requires 0.0 <= v <= q && w > 0.0 && d == (q - 2.0 * v) * w
    ensures -(q * w) <= d <= q * w
  {
    MulMonotone(-q, q - 2.0 * v, w);
    MulMonotone(q - 2.0 * v, q, w);
    assert (-q) * w == -(q * w);
  }

  lemma VelocityBounds(v: real, q: real, rho: real)
    requires 0.0 <= v <= q && 0.0 <= rho <= 0.5
    ensures rho * q <= (1.0 - 2.0 * rho) * v + rho * q <= (1.0 - rho) * q
  {
    MulNonNegative(1.0 - 2.0 * rho, v);
    MulNonNegative(1.0 - 2.0 * rho, q - v);
    assert (1.0 - rho) * q - ((1.0 - 2.0 * rho) * v + rho * q) == (1.0 - 2.0 * rho) * (q - v);
  }

  lemma ErrorBounds(e: real, v: real, q: real, w: real, h: real, rho: real)
    requires e >= 0.0 && w > 0.0 && h > 0.0 && rho == w * h && rho <= 0.5
    requires q == Speed(w, e)
    requires rho * q <= v <= (1.0 - rho) * q
    ensures 0.0 <= v
    ensures 0.0 <= e - v * h <= Shrunk(w, h, e)
    ensures v <= Speed(w, e - v * h)
  {
    MulNonNegative(w, e);
    MulNonNegative(w, h);
    MulNonNegative(rho, q);
    var x := rho * e;
    assert q * h == x;
    TravelBounds(e, v, q, h, rho, x);
    assert Shrunk(w, h, e) == e - rho * x;
    SpeedBound(v, q, rho);
    assert Speed(w, e - v * h) == q - rho * v;
  }

  lemma TravelBounds(e: real, v: real, q: real, h: real, rho: real, x: real)
    requires e >= 0.0 && h > 0.0 && 0.0 <= rho <= 0.5 && x == rho * e && q * h == x
    requires rho * q <= v <= (1.0 - rho) * q
    ensures rho * x <= v * h <= e
  {
    MulMonotone(rho * q, v, h);
    assert (rho * q) * h == rho * (q * h);
    MulMonotone(v, (1.0 - rho) * q, h);
    assert ((1.0 - rho) * q) * h == (1.0 - rho) * (q * h);
    MulMonotone(rho, 0.5, e);
    assert 0.5 * e <= e;
    MulNonNegative(rho, e);
    MulNonNegative(rho, x);
    assert (1.0 - rho) * x == x - rho * x;
    assert v * h <= x;
    assert x <= 0.5 * e;
  }

  lemma SpeedBound(v: real, q: real, rho: real)
    requires 0.0 <= q && 0.0 <= rho
    requires v <= (1.0 - rho) * q
    ensures v <= q - rho * v
  {
    MulMonotone(v, (1.0 - rho) * q, 1.0 + rho);
    assert ((1.0 - rho) * q) * (1.0 + rho) == q - (rho * rho) * q;
    assert rho * rho >= 0.0;
    MulNonNegative(rho * rho, q);
    assert v * (1.0 + rho) == v + rho * v;
  }

  // ---- one joint -----------------------------------------------------------

  /** The shaper is tracking without saturation: the velocity points at the
      target, is no faster than w times the error, and everything is small. */
  ghost predicate Calm(m: Motion, target: real, w: real, bound: real) {
    var e := target - m.position;
    && Abs(e) <= bound
    && Abs(m.acceleration) <= Peak(w, bound)
    && (|| (e >= 0.0 && 0.0 <= m.velocity <= Speed(w, e))
        || (e <= 0.0 && Speed(w, e) <= m.velocity <= 0.0))
  }

  /** The step is small enough, and the error bound keeps both clamps idle. */
  ghost predicate Unsaturated(a: real, jerk: real, w: real, h: real, bound: real) {
    && a > 0.0 && jerk > 0.0 && w > 0.0 && h > 0.0 && bound >= 0.0
    && w == jerk / a
    && w * h <= 0.5
    && Peak(w, bound) <= a
    && 2.0 * Peak(w, bound) <= jerk * h
  }

  /** One unsaturated step: what the feedback asked for, closer and without crossing. */
  ghost predicate Approaches(m: Motion, m': Motion, target: real, w: real, h: real) {
    var e, e' := target - m.position, target - m'.position;
    && m'.acceleration == DesiredAcceleration(target, m, w)
    && Abs(e') <= Shrunk(w, h, Abs(e))
    && (e >= 0.0 ==> e' >= 0.0)
    && (e <= 0.0 ==> e' <= 0.0)
  }

  /** The step the feedback asks for when nothing is clamped. */
  function Free(target: real, m: Motion, w: real, h: real): Motion {
    Integrated(m, DesiredAcceleration(target, m, w), h)
  }

  function Flip(m: Motion): Motion {
    Motion(-m.position, -m.velocity, -m.acceleration)
  }

  lemma FreeIsOdd(target: real, m: Motion, w: real, h: real)
    ensures Free(-target, Flip(m), w, h) == Flip(Free(target, m, w, h))
  {
    var x := DesiredAcceleration(target, m, w);
    FeedbackIsOdd(target - m.position, m.velocity, w);
    assert -target - (-m.position) == -(target - m.position);
    assert DesiredAcceleration(-target, Flip(m), w) == -x;
    IntegratedIsOdd(m, x, h);
  }

  lemma IntegratedIsOdd(m: Motion, x: real, h: real)
    ensures Integrated(Flip(m), -x, h) == Flip(Integrated(m, x, h))
  {
    assert (-x) * h == -(x * h);
    var v := m.velocity + x * h;
    assert (-v) * h == -(v * h);
  }

  lemma FeedbackIsOdd(e: real, v: real, w: real)
    ensures Feedback(-e, -v, w) == -Feedback(e, v, w)
  {
    assert w * w * (-e) == -(w * w * e);
    assert 2.0 * w * (-v) == -(2.0 * w * v);
  }

  lemma FreeUpward(m: Motion, target: real, w: real, h: real, e: real)
    requires w > 0.0 && h > 0.0 && w * h <= 0.5
    requires e == target - m.position && e >= 0.0 && 0.0 <= m.velocity <= Speed(w, e)
    ensures var f := Free(target, m, w, h);
            var e' := target - f.position;
            && Abs(f.acceleration) <= Peak(w, e)
            && 0.0 <= e' <= Shrunk(w, h, e)
            && 0.0 <= f.velocity <= Speed(w, e')
  {
    var f := Free(target, m, w, h);
    FreeStep(e, m.velocity, w, h, f.acceleration, f.velocity, target - f.position);
  }

  lemma CalmFreeUpward(m: Motion, target: real, w: real, h: real, bound: real)
    requires w > 0.0 && h > 0.0 && w * h <= 0.5
    requires Calm(m, target, w, bound)
    requires target >= m.position && m.velocity >= 0.0
    ensures Calm(Free(target, m, w, h), target, w, bound)
    ensures Approaches(m, Free(target, m, w, h), target, w, h)
  {
    var e := target - m.position;
    if e == 0.0 {
      assert Speed(w, e) == 0.0;
    }
    FreeUpward(m, target, w, h, e);
    PeakBound(w, e, bound);
    Shrinks(w, h, e);
  }

  lemma PeakBound(w: real, e: real, bound: real)
    requires 0.0 <= e <= bound
    ensures Peak(w, e) <= Peak(w, bound)
  {
    assert w * w >= 0.0;
    MulMonotone(e, bound, w * w);
  }

  lemma Shrinks(w: real, h: real, e: real)
    requires e >= 0.0
    ensures Shrunk(w, h, e) <= e
  {
    var rho := w * h;
    assert rho * rho >= 0.0;
    MulNonNegative(rho * rho, e);
    assert (1.0 - rho * rho) * e == e - rho * rho * e;
  }

  lemma FlipCalm(m: Motion, target: real, w: real, bound: real)
    requires Calm(m, target, w, bound)
    ensures Calm(Flip(m), -target, w, bound)
  {
    assert Speed(w, -target + m.position) == -Speed(w, target - m.position);
  }

  lemma CalmFree(m: Motion, target: real, w: real, h: real, bound: real)
    requires w > 0.0 && h > 0.0 && w * h <= 0.5
    requires Calm(m, target, w, bound)
    ensures Calm(Free(target, m, w, h), target, w, bound)
    ensures Approaches(m, Free(target, m, w, h), target, w, h)
  {
    var e := target - m.position;
    if e >= 0.0 && m.velocity >= 0.0 {
      CalmFreeUpward(m, target, w, h, bound);
    } else {
      if e >= 0.0 {
        MulNonNegative(w, e);
      }
      FlipCalm(m, target, w, bound);
      CalmFreeUpward(Flip(m), -target, w, h, bound);
      FreeIsOdd(target, m, w, h);
      FlipCalm(Free(-target, Flip(m), w, h), -target, w, bound);
    }
  }

  lemma DesiredIsSmall(m: Motion, target: real, w: real, h: real, bound: real)
    requires w > 0.0 && h > 0.0 && w * h <= 0.5
    requires Calm(m, target, w, bound)
    ensures Abs(DesiredAcceleration(target, m, w)) <= Peak(w, bound)
  {
    CalmFree(m, target, w, h, bound);
  }

  /** Neither clamp fires. */
  lemma ClampsIdle(desired: real, acceleration: real, step: real, a: real, peak: real)
    requires Abs(desired) <= peak && Abs(acceleration) <= peak
    requires peak <= a && 2.0 * peak <= step
    ensures Clamp(Clamp(desired, acceleration - step, acceleration + step), -a, a) == desired
  {
  }

  lemma ShapedIsFree(m: Motion, target: real, a: real, jerk: real, w: real, h: real)
    requires a > 0.0 && w == jerk / a
    requires var d := DesiredAcceleration(target, m, w);
             Clamp(Clamp(d, m.acceleration - jerk * h, m.acceleration + jerk * h), -a, a) == d
    ensures Shaped(target, m, h, a, jerk) == Free(target, m, w, h)
  {
    var x := DesiredAcceleration(target, m, w);
    assert ShapedAcceleration(target, m, h, a, jerk)
        == Clamp(Clamp(x, m.acceleration - jerk * h, m.acceleration + jerk * h), -a, a);
    assert ShapedAcceleration(target, m, h, a, jerk) == x;
  }

  lemma CalmStep(m: Motion, target: real, a: real, jerk: real, w: real, h: real, bound: real)
    requires Unsaturated(a, jerk, w, h, bound) && Calm(m, target, w, bound)
    ensures Calm(Shaped(target, m, h, a, jerk), target, w, bound)
    ensures Approaches(m, Shaped(target, m, h, a, jerk), target, w, h)
  {
    DesiredIsSmall(m, target, w, h, bound);
    ClampsIdle(DesiredAcceleration(target, m, w), m.acceleration, jerk * h, a, Peak(w, bound));
    ShapedIsFree(m, target, a, jerk, w, h);
    CalmFree(m, target, w, h, bound);
  }

  // ---- six joints ----------------------------------------------------------

  /** The history after dispatching `position`, by the gate's finite differences. */
  function Dispatched(t: History, position: Vector, h: real): History
    requires h > 0.0
  {
    Advance(position, Differences(position, t, h))
  }

  /** n limiter cycles toward the same proposed point. */
  function Cycles(proposed: Point, t: History, h: real, boundary: real, jerkBoundary: real, n: nat): Result<History, Error>
    requires h > 0.0
  {
    if n == 0 then Ok(t)
    else match Cycles(proposed, t, h, boundary, jerkBoundary, n - 1)
      case Err(e) => Err(e)
      case Ok(s) =>
        match LimitedPoint(proposed, s.position, s.velocity, s.acceleration, h, boundary, jerkBoundary)
        case Err(e) => Err(e)
        case Ok(p) => Ok(Dispatched(s, p.position, h))
  }

  ghost predicate CalmTrack(t: History, target: Vector, start: Vector, w: real) {
    forall j | 0 <= j < 6 :: Calm(t.Joint(j), target[j], w, Abs(target[j] - start[j]))
  }

  /** Where joint j is after n cycles, compared with where it started. */
  ghost predicate Converged(t: History, target: Vector, start: Vector, w: real, h: real, n: nat, j: nat)
    requires j < 6
  {
    var e0, e := target[j] - start[j], target[j] - t.position[j];
    && Abs(e) <= Pow(Decay(w, h), n) * Abs(e0)
    && (e0 >= 0.0 ==> e >= 0.0)
    && (e0 <= 0.0 ==> e <= 0.0)
    && Abs(t.velocity[j]) <= Speed(w, Abs(e))
  }

  /** The internal boundaries, their ratio, and the step leave every joint unsaturated. */
  ghost predicate UnsaturatedTrack(target: Vector, start: Vector, w: real, h: real, boundary: real, jerkBoundary: real) {
    && boundary > 0.0 && jerkBoundary > 0.0 && w > 0.0 && h > 0.0
    && (forall j | 0 <= j < 6 ::
         Unsaturated(AccelerationTarget(boundary), JerkTarget(jerkBoundary), w, h, Abs(target[j] - start[j])))
  }

  lemma UnsaturatedBoundaries(target: Vector, start: Vector, w: real, h: real, boundary: real, jerkBoundary: real)
    requires UnsaturatedTrack(target, start, w, h, boundary, jerkBoundary)
    ensures AccelerationTarget(boundary) > 0.0 && JerkTarget(jerkBoundary) > 0.0 && w * h <= 0.5
  {
    assert Unsaturated(AccelerationTarget(boundary), JerkTarget(jerkBoundary), w, h, Abs(target[0] - start[0]));
  }

  lemma JointCycle(target: Vector, t: History, start: Vector, w: real, h: real, a: real, jerk: real, j: nat)
    requires j < 6
    requires Unsaturated(a, jerk, w, h, Abs(target[j] - start[j]))
    requires Calm(t.Joint(j), target[j], w, Abs(target[j] - start[j]))
    requires InLimits(target) && InLimits(t.position)
    ensures var shaped := ShapedPositions(target, t.position, t.velocity, t.acceleration, h, a, jerk);
            var next := Dispatched(t, shaped, h);
            && LOWER[j] <= shaped[j] <= UPPER[j]
            && Calm(next.Joint(j), target[j], w, Abs(target[j] - start[j]))
            && Approaches(t.Joint(j), next.Joint(j), target[j], w, h)
  {
    var shaped := ShapedPositions(target, t.position, t.velocity, t.acceleration, h, a, jerk);
    CalmStep(t.Joint(j), target[j], a, jerk, w, h, Abs(target[j] - start[j]));
    MeasuredIsShaped(target[j], t.Joint(j), h, a, jerk);
    assert Dispatched(t, shaped, h).Joint(j) == Shaped(target[j], t.Joint(j), h, a, jerk);
    Shrinks(w, h, Abs(target[j] - t.position[j]));
  }

  lemma OneCycle(proposed: Point, t: History, start: Vector, w: real, h: real, boundary: real, jerkBoundary: real)
    requires UnsaturatedTrack(proposed.position, start, w, h, boundary, jerkBoundary)
    requires CalmTrack(t, proposed.position, start, w)
    requires InLimits(proposed.position) && InLimits(t.position)
    ensures var r := LimitedPoint(proposed, t.position, t.velocity, t.acceleration, h, boundary, jerkBoundary);
            && r.Ok?
            && InLimits(r.value.position)
            && CalmTrack(Dispatched(t, r.value.position, h), proposed.position, start, w)
            && (forall j | 0 <= j < 6 ::
                 Approaches(t.Joint(j), Dispatched(t, r.value.position, h).Joint(j), proposed.position[j], w, h))
  {
    UnsaturatedBoundaries(proposed.position, start, w, h, boundary, jerkBoundary);
    var a, jerk := AccelerationTarget(boundary), JerkTarget(jerkBoundary);
    var target := proposed.position;
    var shaped := ShapedPositions(target, t.position, t.velocity, t.acceleration, h, a, jerk);
    var next := Dispatched(t, shaped, h);
    forall j | 0 <= j < 6
      ensures LOWER[j] <= shaped[j] <= UPPER[j]
      ensures Calm(next.Joint(j), target[j], w, Abs(target[j] - start[j]))
      ensures Approaches(t.Joint(j), next.Joint(j), target[j], w, h)
    {
      JointCycle(target, t, start, w, h, a, jerk, j);
    }
  }

  /** What n cycles from rest amount to. */
  ghost predicate Tracked(proposed: Point, start: Vector, w: real, h: real, t: History, n: nat) {
    && InLimits(t.position)
    && CalmTrack(t, proposed.position, start, w)
    && (forall j | 0 <= j < 6 :: Converged(t, proposed.position, start, w, h, n, j))
  }

  lemma NextTracked(proposed: Point, start: Vector, w: real, h: real, boundary: real, jerkBoundary: real,
                    t: History, n: nat)
    requires UnsaturatedTrack(proposed.position, start, w, h, boundary, jerkBoundary)
    requires InLimits(proposed.position) && Tracked(proposed, start, w, h, t, n)
    ensures var r := LimitedPoint(proposed, t.position, t.velocity, t.acceleration, h, boundary, jerkBoundary);
            && r.Ok?
            && var next := Dispatched(t, r.value.position, h);
            && Tracked(proposed, start, w, h, next, n + 1)
            && Unclamped(proposed, t, next, w)
  {
    UnsaturatedBoundaries(proposed.position, start, w, h, boundary, jerkBoundary);
    OneCycle(proposed, t, start, w, h, boundary, jerkBoundary);
    var r := LimitedPoint(proposed, t.position, t.velocity, t.acceleration, h, boundary, jerkBoundary);
    var next := Dispatched(t, r.value.position, h);
    forall j | 0 <= j < 6
      ensures Converged(next, proposed.position, start, w, h, n + 1, j)
      ensures next.acceleration[j] == DesiredAcceleration(proposed.position[j], t.Joint(j), w)
    {
      assert Approaches(t.Joint(j), next.Joint(j), proposed.position[j], w, h);
      Contracts(t, next, proposed.position, start, w, h, n, j);
    }
  }

  /** Every joint received exactly the acceleration the feedback asked for. */
  ghost predicate Unclamped(proposed: Point, t: History, next: History, w: real) {
    forall j | 0 <= j < 6 :: next.acceleration[j] == DesiredAcceleration(proposed.position[j], t.Joint(j), w)
  }

  /** From rest and within the unsaturated range, every number of uninterrupted
      cycles succeeds, shapes without clamping, never overshoots, and contracts the
      error of every joint by 1 - (w h)^2 per cycle. */
  lemma {:induction false} Converges(proposed: Point, start: Vector, w: real, h: real,
                                     boundary: real, jerkBoundary: real, n: nat)
    requires UnsaturatedTrack(proposed.position, start, w, h, boundary, jerkBoundary)
    requires InLimits(proposed.position) && InLimits(start)
    ensures var before := Cycles(proposed, History(start, ZERO, ZERO), h, boundary, jerkBoundary, n);
            var after := Cycles(proposed, History(start, ZERO, ZERO), h, boundary, jerkBoundary, n + 1);
            && before.Ok? && after.Ok?
            && Tracked(proposed, start, w, h, before.value, n)
            && Tracked(proposed, start, w, h, after.value, n + 1)
            && Unclamped(proposed, before.value, after.value, w)
  {
    var rest := History(start, ZERO, ZERO);
    RestIsTracked(proposed, start, w, h, boundary, jerkBoundary);
    NoCycles(proposed, rest, h, boundary, jerkBoundary);
    hide UnsaturatedTrack, Tracked, Unclamped, InLimits, Cycles;
    if n > 0 {
      Converges(proposed, start, w, h, boundary, jerkBoundary, n - 1);
    }
    Progress(proposed, rest, start, w, h, boundary, jerkBoundary, n);
  }

  /** One more cycle of a run that has converged so far. */
  lemma Progress(proposed: Point, rest: History, start: Vector, w: real, h: real, boundary: real, jerkBoundary: real, n: nat)
    requires UnsaturatedTrack(proposed.position, start, w, h, boundary, jerkBoundary) && InLimits(proposed.position)
    requires h > 0.0 && Cycles(proposed, rest, h, boundary, jerkBoundary, n).Ok?
    requires Tracked(proposed, start, w, h, Cycles(proposed, rest, h, boundary, jerkBoundary, n).value, n)
    ensures var before := Cycles(proposed, rest, h, boundary, jerkBoundary, n).value;
            var after := Cycles(proposed, rest, h, boundary, jerkBoundary, n + 1);
            after.Ok? && Tracked(proposed, start, w, h, after.value, n + 1) && Unclamped(proposed, before, after.value, w)
  {
    var before := Cycles(proposed, rest, h, boundary, jerkBoundary, n).value;
    NextTracked(proposed, start, w, h, boundary, jerkBoundary, before, n);
    OneMore(proposed, rest, h, boundary, jerkBoundary, n);
    hide UnsaturatedTrack, Tracked, Unclamped, LimitedPoint, Dispatched, InLimits, Cycles;
  }

  lemma NoCycles(proposed: Point, s: History, h: real, boundary: real, jerkBoundary: real)
    requires h > 0.0
    ensures Cycles(proposed, s, h, boundary, jerkBoundary, 0) == Ok(s)
  {
  }

  lemma OneMore(proposed: Point, s: History, h: real, boundary: real, jerkBoundary: real, n: nat)
    requires h > 0.0 && Cycles(proposed, s, h, boundary, jerkBoundary, n).Ok?
    ensures var t := Cycles(proposed, s, h, boundary, jerkBoundary, n).value;
            var r := LimitedPoint(proposed, t.position, t.velocity, t.acceleration, h, boundary, jerkBoundary);
            r.Ok? ==> Cycles(proposed, s, h, boundary, jerkBoundary, n + 1) == Ok(Dispatched(t, r.value.position, h))
  {
    hide LimitedPoint;
  }

  lemma RestIsTracked(proposed: Point, start: Vector, w: real, h: real, boundary: real, jerkBoundary: real)
    requires UnsaturatedTrack(proposed.position, start, w, h, boundary, jerkBoundary) && InLimits(start)
    ensures h > 0.0 && Tracked(proposed, start, w, h, History(start, ZERO, ZERO), 0)
  {
    RestIsCalm(History(start, ZERO, ZERO), proposed.position, w, h);
  }

  lemma RestIsCalm(t: History, target: Vector, w: real, h: real)
    requires t.velocity == ZERO && t.acceleration == ZERO && w > 0.0
    ensures CalmTrack(t, target, t.position, w)
    ensures forall j | 0 <= j < 6 :: Converged(t, target, t.position, w, h, 0, j)
  {
    forall j | 0 <= j < 6
      ensures Calm(t.Joint(j), target[j], w, Abs(target[j] - t.position[j]))
      ensures Converged(t, target, t.position, w, h, 0, j)
    {
      RestingJoint(t.position[j], target[j], w);
    }
  }

  lemma RestingJoint(position: real, target: real, w: real)
    requires w > 0.0
    ensures Calm(Motion(position, 0.0, 0.0), target, w, Abs(target - position))
    ensures 0.0 <= Speed(w, Abs(target - position))
  {
    var e := target - position;
    MulNonNegative(w, Abs(e));
    MulNonNegative(w, w);
    MulNonNegative(w * w, Abs(e));
    if e < 0.0 {
      assert Speed(w, e) == -Speed(w, Abs(e));
    }
  }

  lemma Contracts(t: History, t': History, target: Vector, start: Vector, w: real, h: real, n: nat, j: nat)
    requires j < 6 && w > 0.0 && h > 0.0 && w * h <= 0.5
    requires Converged(t, target, start, w, h, n, j)
    requires Approaches(t.Joint(j), t'.Joint(j), target[j], w, h)
    requires Calm(t'.Joint(j), target[j], w, Abs(target[j] - start[j]))
    ensures Converged(t', target, start, w, h, n + 1, j)
  {
    hide Pow, Decay, Shrunk, Peak, Speed, DesiredAcceleration;
    var e0, e, e' := target[j] - start[j], target[j] - t.position[j], target[j] - t'.position[j];
    Chain(Abs(e0), Abs(e), Abs(e'), w, h, n);
    SignedSpeed(e', t'.velocity[j], w);
    assert (e0 >= 0.0 ==> e' >= 0.0) && (e0 <= 0.0 ==> e' <= 0.0);
  }

  lemma Chain(e0: real, e: real, e': real, w: real, h: real, n: nat)
    requires w > 0.0 && h > 0.0 && w * h <= 0.5
    requires e <= Pow(Decay(w, h), n) * e0 && e' <= Shrunk(w, h, e)
    ensures e' <= Pow(Decay(w, h), n + 1) * e0
  {
    DecayNonNegative(w, h);
    assert Shrunk(w, h, e) == Decay(w, h) * e;
    hide Decay, Shrunk;
    ChainFactor(e0, e, Pow(Decay(w, h), n), Decay(w, h));
  }

  lemma ChainFactor(e0: real, e: real, p: real, factor: real)
    requires factor >= 0.0 && e <= p * e0
    ensures factor * e <= (factor * p) * e0
  {
    MulMonotone(e, p * e0, factor);
    assert (p * e0) * factor == (factor * p) * e0;
  }

  lemma DecayNonNegative(w: real, h: real)
    requires w > 0.0 && h > 0.0 && w * h <= 0.5
    ensures 0.0 <= Decay(w, h)
  {
    MulNonNegative(w, h);
    SquareAtMostHalf(w * h);
  }

  lemma SquareAtMostHalf(rho: real)
    requires 0.0 <= rho <= 0.5
    ensures rho * rho <= 0.5
  {
    MulMonotone(rho, 0.5, rho);
    assert rho * rho <= 0.5 * rho;
  }

  lemma SignedSpeed(e: real, v: real, w: real)
    requires (e >= 0.0 && 0.0 <= v <= Speed(w, e)) || (e <= 0.0 && Speed(w, e) <= v <= 0.0)
    ensures Abs(v) <= Speed(w, Abs(e))
  {
    assert Speed(w, -e) == -Speed(w, e);
  }
}
