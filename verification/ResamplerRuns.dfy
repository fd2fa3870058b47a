// Runs of the resampler: what every reachable state satisfies, continuity of
// the emitted point, and exact arrival at the destination.

module ResamplerRuns {
  import opened Results
  import opened Reals
  import opened Joints
  import opened ServoPoints
  import opened ResamplerSpec

  /** The calls a servo loop makes after initialization. */
  datatype Event =
    | HoldAt(position: Vector, accepted: nat, sequence: nat)
    | Target(destination: Vector, accepted: nat, sequence: nat)
    // evaluate at a servo time and commit the evaluated point
    | Emit(servoTime: nat, commandTime: nat)
    // evaluate at a servo time and commit a shaped position instead
    | EmitShaped(servoTime: nat, shaped: Vector)

  function Step(s: State, e: Event): Result<State, Error>
    requires s.segmentStart <= s.lastServoTime
  {
    match e
    case HoldAt(position, accepted, sequence) => Hold(s, position, accepted, sequence)
    case Target(destination, accepted, sequence) => Accept(s, destination, accepted, sequence)
    case Emit(t, commandTime) =>
      (match Evaluate(s, t)
       case Err(error) => Err(error)
       case Ok(point) => Commit(s, point, commandTime))
    case EmitShaped(t, shaped) =>
      (match Evaluate(s, t)
       case Err(error) => Err(error)
       case Ok(point) =>
         if !InLimits(shaped) then Err(JointLimitViolation)
         else CommitLimited(s, point.(position := shaped, endpoint := false)))
  }

  /** Every reachable state between calls. */
  ghost predicate Reachable(s: State) {
    && WellFormed(s)
    && s.initialized
    && InLimits(s.emitted) && InLimits(s.start) && InLimits(s.destination)
    && (s.active ==> s.hasAccepted && s.segmentStart < s.segmentEnd && s.emitted == Along(s, Alpha(s, s.lastServoTime)))
    && (!s.active ==> s.emitted == s.destination)
  }

  lemma AlongInLimits(s: State, alpha: real)
    requires InLimits(s.start) && InLimits(s.destination) && 0.0 <= alpha <= 1.0
    ensures InLimits(Along(s, alpha))
  {
    forall j | 0 <= j < 6
      ensures LOWER[j] <= Along(s, alpha)[j] <= UPPER[j]
    {
      BetweenBounds(s.start[j], s.destination[j], alpha, LOWER[j], UPPER[j]);
    }
  }

  lemma AlongEnds(s: State)
    ensures Along(s, 0.0) == s.start
    ensures Along(s, 1.0) == s.destination
  {
    forall j | 0 <= j < 6
      ensures Along(s, 0.0)[j] == s.start[j]
      ensures Along(s, 1.0)[j] == s.destination[j]
    {
    }
    VectorsEqual(Along(s, 0.0), s.start);
    VectorsEqual(Along(s, 1.0), s.destination);
  }

  lemma AlphaShape(s: State, t: nat)
    requires s.segmentStart < s.segmentEnd && s.segmentStart <= t
    ensures 0.0 <= Alpha(s, t) <= 1.0
    ensures t == s.segmentStart ==> Alpha(s, t) == 0.0
    ensures Alpha(s, t) >= 1.0 <==> s.segmentEnd <= t
  {
    var x, d := (t - s.segmentStart) as real, (s.segmentEnd - s.segmentStart) as real;
    Fraction(x, d);
  }

  lemma AlphaMonotone(s: State, t: nat, u: nat)
    requires s.segmentStart < s.segmentEnd && s.segmentStart <= t <= u
    ensures Alpha(s, t) <= Alpha(s, u)
  {
    var d := (s.segmentEnd - s.segmentStart) as real;
    QuotientMonotone((t - s.segmentStart) as real, (u - s.segmentStart) as real, d);
  }

  // ---- points on a segment -------------------------------------------------

  /** A point of the segment at time t: as far along as the time is, and at the
      destination from the segment's end on. */
  predicate OnLine(s: State, position: Vector, t: nat)
    requires s.segmentStart <= t && s.segmentStart <= s.segmentEnd
  {
    && (t <= s.segmentEnd ==>
         forall j | 0 <= j < 6 ::
           (position[j] - s.start[j]) * (s.segmentEnd - s.segmentStart) as real
           == (t - s.segmentStart) as real * (s.destination[j] - s.start[j]))
    && (t >= s.segmentEnd ==> position == s.destination)
  }

  /** Evaluation is linear interpolation in time. */
  lemma EvaluatesOnLine(s: State, t: nat)
    requires s.active && s.segmentStart < s.segmentEnd && s.segmentStart <= s.lastServoTime && Evaluate(s, t).Ok?
    ensures var p := Evaluate(s, t).value;
            && OnLine(s, p.position, t) && p.servoTime == t
            && (p.endpoint <==> t >= s.segmentEnd)
            && p.alpha * (s.segmentEnd - s.segmentStart) as real
               == (if t <= s.segmentEnd then t - s.segmentStart else s.segmentEnd - s.segmentStart) as real
  {
    AlphaShape(s, t);
    AlphaIsShare(s, t);
    AlongEnds(s);
    var d := (s.segmentEnd - s.segmentStart) as real;
    var p := Evaluate(s, t).value.position;
    forall j | 0 <= j < 6 && t <= s.segmentEnd
      ensures (p[j] - s.start[j]) * d == (t - s.segmentStart) as real * (s.destination[j] - s.start[j])
    {
      ShareOf(Alpha(s, t), d, (t - s.segmentStart) as real, s.destination[j] - s.start[j], p[j] - s.start[j]);
    }
  }

  lemma AlphaIsShare(s: State, t: nat)
    requires s.segmentStart < s.segmentEnd && s.segmentStart <= t
    ensures Alpha(s, t) * (s.segmentEnd - s.segmentStart) as real
         == (if t <= s.segmentEnd then t - s.segmentStart else s.segmentEnd - s.segmentStart) as real
  {
    var x, d := (t - s.segmentStart) as real, (s.segmentEnd - s.segmentStart) as real;
    Fraction(x, d);
    assert x / d * d == x;
  }

  lemma ShareOf(alpha: real, d: real, x: real, way: real, gone: real)
    requires alpha * d == x && gone == alpha * way
    ensures gone * d == x * way
  {
    assert (alpha * way) * d == (alpha * d) * way;
  }

  /** Two points of one segment lie the reported velocity times the time apart. */
  lemma VelocityIsExact(s: State, t: nat, u: nat, j: nat)
    requires s.active && s.segmentStart < s.segmentEnd && s.segmentStart <= s.lastServoTime && j < 6
    requires Evaluate(s, t).Ok? && Evaluate(s, u).Ok? && t <= s.segmentEnd && u <= s.segmentEnd
    ensures var p, q := Evaluate(s, t).value, Evaluate(s, u).value;
            && p.segmentVelocity == q.segmentVelocity
            && (q.position[j] - p.position[j]) * 1000000000.0 == p.segmentVelocity[j] * (u - t) as real
  {
    EvaluatesOnLine(s, t);
    EvaluatesOnLine(s, u);
    var p, q := Evaluate(s, t).value, Evaluate(s, u).value;
    var d, way := (s.segmentEnd - s.segmentStart) as real, s.destination[j] - s.start[j];
    assert p.segmentVelocity[j] * d == way * 1000000000.0;
    Slope(p.position[j] - s.start[j], q.position[j] - s.start[j], d, way, (t - s.segmentStart) as real,
          (u - s.segmentStart) as real, p.segmentVelocity[j]);
  }

  lemma Slope(p: real, q: real, d: real, way: real, x: real, y: real, velocity: real)
    requires d > 0.0 && p * d == x * way && q * d == y * way && velocity * d == way * 1000000000.0
    ensures (q - p) * 1000000000.0 == velocity * (y - x)
  {
    var left, right := (q - p) * 1000000000.0, velocity * (y - x);
    assert (q - p) * d == (y - x) * way;
    assert left * d == ((q - p) * d) * 1000000000.0;
    assert right * d == (velocity * d) * (y - x);
    Cancels(left, right, d);
  }

  lemma Cancels(x: real, y: real, d: real)
    requires d > 0.0 && x * d == y * d
    ensures x == y
  {
    ProductSign(x - y, d);
    assert (x - y) * d == x * d - y * d;
  }

  // ---- the invariant -------------------------------------------------------

  lemma InitializedIsReachable(period: nat, measured: Vector, servoTime: nat)
    requires ValidPeriod(period) && InLimits(measured) && servoTime != 0
    ensures Initialize(Fresh(period), measured, servoTime).Ok?
    ensures Reachable(Initialize(Fresh(period), measured, servoTime).value)
  {
  }

  lemma SegmentBegins(s: State)
    requires s.segmentStart < s.segmentEnd && s.segmentStart == s.lastServoTime && s.start == s.emitted
    ensures s.emitted == Along(s, Alpha(s, s.lastServoTime))
  {
    AlphaShape(s, s.lastServoTime);
    AlongEnds(s);
  }

  lemma AcceptKeepsReachable(s: State, destination: Vector, accepted: nat, sequence: nat)
    requires Reachable(s)
    requires Accept(s, destination, accepted, sequence).Ok?
    ensures Reachable(Accept(s, destination, accepted, sequence).value)
  {
    SegmentBegins(Accept(s, destination, accepted, sequence).value);
  }

  lemma EvaluatedPoint(s: State, t: nat)
    requires Reachable(s) && Evaluate(s, t).Ok?
    ensures InLimits(Evaluate(s, t).value.position)
    ensures Evaluate(s, t).value.servoTime == t >= s.lastServoTime
    ensures s.active ==> Evaluate(s, t).value.position == Along(s, Alpha(s, t))
    ensures !s.active ==> Evaluate(s, t).value.position == s.emitted && !Evaluate(s, t).value.endpoint
    ensures Evaluate(s, t).value.endpoint <==> s.active && s.segmentEnd <= t
  {
    if s.active {
      AlphaShape(s, t);
      AlongInLimits(s, Alpha(s, t));
    }
  }

  lemma EmitKeepsReachable(s: State, t: nat, commandTime: nat)
    requires Reachable(s)
    requires Step(s, Emit(t, commandTime)).Ok?
    ensures var s' := Step(s, Emit(t, commandTime)).value;
            && Reachable(s')
            && s'.lastServoTime == t && s'.destination == s.destination
            && s'.segmentStart == s.segmentStart && s'.segmentEnd == s.segmentEnd && s'.start == s.start
            && s'.servoPeriod == s.servoPeriod && s'.hasAccepted
            && s'.emitted == Evaluate(s, t).value.position
            && (s'.active <==> s.active && t < s.segmentEnd)
  {
    EvaluatedPoint(s, t);
    var point := Evaluate(s, t).value;
    var s' := Commit(s, point, commandTime).value;
    if s.active && s.segmentEnd <= t {
      AlphaShape(s, t);
      assert Alpha(s, t) == 1.0;
      AlongEnds(s);
    } else if s.active {
      assert Along(s', Alpha(s', t)) == Along(s, Alpha(s, t)) by {
        VectorsEqual(Along(s', Alpha(s', t)), Along(s, Alpha(s, t)));
      }
    }
  }

  lemma ShapedKeepsReachable(s: State, t: nat, shaped: Vector)
    requires Reachable(s)
    requires Step(s, EmitShaped(t, shaped)).Ok?
    ensures Reachable(Step(s, EmitShaped(t, shaped)).value)
  {
    EvaluatedPoint(s, t);
    SegmentBegins(Step(s, EmitShaped(t, shaped)).value);
  }

  lemma StepKeepsReachable(s: State, e: Event)
    requires Reachable(s) && Step(s, e).Ok?
    ensures Reachable(Step(s, e).value)
    ensures Step(s, e).value.servoPeriod == s.servoPeriod
  {
    match e
    case HoldAt(position, accepted, sequence) =>
    case Target(destination, accepted, sequence) => AcceptKeepsReachable(s, destination, accepted, sequence);
    case Emit(t, commandTime) => EmitKeepsReachable(s, t, commandTime);
    case EmitShaped(t, shaped) => ShapedKeepsReachable(s, t, shaped);
  }

  /** A run: rejected calls are followed by nothing. */
  ghost predicate Runs(s: State, events: seq<Event>, s': State)
    decreases |events|
  {
    if events == [] then s' == s
    else && s.segmentStart <= s.lastServoTime
         && Step(s, events[0]).Ok?
         && Runs(Step(s, events[0]).value, events[1..], s')
  }

  /** In every state any run can reach, the invariant holds, and evaluating at
      the last servo time gives back the emitted point. */
  lemma {:induction false} EveryRunIsContinuous(s: State, events: seq<Event>, s': State)
    requires Reachable(s) && Runs(s, events, s')
    ensures Reachable(s')
    ensures s'.hasAccepted ==>
              Evaluate(s', s'.lastServoTime).Ok? && Evaluate(s', s'.lastServoTime).value.position == s'.emitted
    ensures s'.active ==> OnLine(s', s'.emitted, s'.lastServoTime)
    decreases |events|
  {
    if events == [] {
      if s'.hasAccepted {
        EvaluatedPoint(s', s'.lastServoTime);
      }
      if s'.active {
        EvaluatesOnLine(s', s'.lastServoTime);
      }
    } else {
      StepKeepsReachable(s, events[0]);
      EveryRunIsContinuous(Step(s, events[0]).value, events[1..], s');
    }
  }

  // ---- distance and arrival ------------------------------------------------

  /** Whenever a target is in force, a servo time that does not go back is accepted. */
  lemma EmitSucceeds(s: State, t: nat, commandTime: nat)
    requires Reachable(s) && s.hasAccepted && t >= s.lastServoTime
    ensures Step(s, Emit(t, commandTime)).Ok?
  {
  }

  /** An unshaped commit never moves any joint away from its destination. */
  lemma EmitNeverRecedes(s: State, t: nat, commandTime: nat, j: nat)
    requires Reachable(s) && j < 6
    requires Step(s, Emit(t, commandTime)).Ok?
    ensures var s' := Step(s, Emit(t, commandTime)).value;
            Abs(s.destination[j] - s'.emitted[j]) <= Abs(s.destination[j] - s.emitted[j])
  {
    EmitKeepsReachable(s, t, commandTime);
    EvaluatedPoint(s, t);
    if s.active {
      AlongNeverRecedes(s, t, j);
    }
  }

  lemma AlongNeverRecedes(s: State, t: nat, j: nat)
    requires Reachable(s) && s.active && t >= s.lastServoTime && j < 6
    ensures Abs(s.destination[j] - Along(s, Alpha(s, t))[j]) <= Abs(s.destination[j] - s.emitted[j])
  {
    var before, after := Alpha(s, s.lastServoTime), Alpha(s, t);
    AlphaShape(s, s.lastServoTime);
    AlphaShape(s, t);
    AlphaMonotone(s, s.lastServoTime, t);
    RemainingDistance(s.start[j], s.destination[j], before, after, s.emitted[j], Along(s, after)[j]);
  }

  lemma RemainingDistance(start: real, destination: real, before: real, after: real, from: real, to: real)
    requires 0.0 <= before <= after <= 1.0
    requires from == start + before * (destination - start)
    requires to == start + after * (destination - start)
    ensures Abs(destination - to) <= Abs(destination - from)
  {
    var d := destination - start;
    Scaled(1.0 - after, 1.0 - before, d);
    assert destination - to == (1.0 - after) * d;
    assert destination - from == (1.0 - before) * d;
  }

  lemma Scaled(x: real, y: real, d: real)
    requires 0.0 <= x <= y
    ensures Abs(x * d) <= Abs(y * d)
  {
    if d >= 0.0 {
      MulMonotone(x, y, d);
      MulNonNegative(x, d);
    } else {
      MulMonotone(x, y, -d);
      MulNonNegative(x, -d);
      assert x * -d == -(x * d) && y * -d == -(y * d);
    }
  }

  /** Unshaped servo ticks, each with its servo and command time. */
  datatype Tick = Tick(servoTime: nat, commandTime: nat)

  function Emits(ticks: seq<Tick>): seq<Event> {
    seq(|ticks|, i requires 0 <= i < |ticks| => Emit(ticks[i].servoTime, ticks[i].commandTime))
  }

  /** Servo times at least one period apart, the first one period after `last`. */
  ghost predicate Spaced(last: nat, period: nat, ticks: seq<Tick>) {
    && (ticks != [] ==> last + period <= ticks[0].servoTime)
    && (forall i | 0 < i < |ticks| :: ticks[i - 1].servoTime + period <= ticks[i].servoTime)
  }

  function CeilDiv(n: nat, d: nat): nat
    requires d > 0
  {
    (n + d - 1) / d
  }

  /** Where an undisturbed segment stands at the last servo time of `s'`. */
  ghost predicate OnSegment(s: State, s': State)
    requires s.active ==> s.segmentStart < s.segmentEnd && s.segmentStart <= s'.lastServoTime
  {
    && s'.destination == s.destination
    && (s.active ==> s'.emitted == Along(s, Alpha(s, s'.lastServoTime)) && (s'.active <==> s'.lastServoTime < s.segmentEnd))
    && (!s.active ==> !s'.active && s'.emitted == s.emitted)
  }

  lemma OneTick(s: State, t: Tick)
    requires Reachable(s) && s.hasAccepted && t.servoTime >= s.lastServoTime
    ensures var e := Emit(t.servoTime, t.commandTime);
            && Step(s, e).Ok?
            && var s' := Step(s, e).value;
            && Reachable(s') && s'.hasAccepted && s'.servoPeriod == s.servoPeriod
            && s'.lastServoTime == t.servoTime
            && s'.start == s.start && s'.segmentStart == s.segmentStart && s'.segmentEnd == s.segmentEnd
            && OnSegment(s, s')
  {
    EmitSucceeds(s, t.servoTime, t.commandTime);
    EvaluatedPoint(s, t.servoTime);
    EmitKeepsReachable(s, t.servoTime, t.commandTime);
  }

  /** Any number of spaced ticks is accepted. */
  lemma {:induction false} TicksAreAccepted(s: State, ticks: seq<Tick>) returns (s': State)
    requires Reachable(s) && s.hasAccepted
    requires Spaced(s.lastServoTime, s.servoPeriod, ticks)
    ensures Runs(s, Emits(ticks), s')
    ensures s'.lastServoTime >= s.lastServoTime + |ticks| * s.servoPeriod
    decreases |ticks|
  {
    if ticks == [] {
      s' := s;
    } else {
      OneTick(s, ticks[0]);
      var next := Step(s, Emit(ticks[0].servoTime, ticks[0].commandTime)).value;
      SpacedTail(s.lastServoTime, s.servoPeriod, ticks);
      s' := TicksAreAccepted(next, ticks[1..]);
      RunsTick(s, ticks, s');
      TickCount(s.servoPeriod, |ticks|);
    }
  }

  /** Undisturbed, the emitted point lies on the segment at its servo time, and
      the segment is over exactly when that time has reached its end. */
  lemma {:induction false} TicksFollowSegment(s: State, ticks: seq<Tick>, s': State)
    requires Reachable(s) && s.hasAccepted && ticks != []
    requires Spaced(s.lastServoTime, s.servoPeriod, ticks) && Runs(s, Emits(ticks), s')
    ensures Reachable(s') && s'.lastServoTime == ticks[|ticks| - 1].servoTime >= ticks[0].servoTime
    ensures OnSegment(s, s')
    ensures s.active ==> OnLine(s, s'.emitted, s'.lastServoTime)
    decreases |ticks|
  {
    if s.active {
      SegmentIsLine(s, ticks[|ticks| - 1].servoTime);
      TimesGrow(s.lastServoTime, s.servoPeriod, ticks);
    }
    OneTick(s, ticks[0]);
    var next := Step(s, Emit(ticks[0].servoTime, ticks[0].commandTime)).value;
    assert Emits(ticks)[1..] == Emits(ticks[1..]);
    if |ticks| > 1 {
      SpacedTail(s.lastServoTime, s.servoPeriod, ticks);
      TicksFollowSegment(next, ticks[1..], s');
      SegmentComposes(s, next, s');
    }
  }

  lemma SegmentIsLine(s: State, t: nat)
    requires Reachable(s) && s.active
    ensures t >= s.lastServoTime ==> OnLine(s, Along(s, Alpha(s, t)), t)
  {
    if t >= s.lastServoTime {
      EvaluatedPoint(s, t);
      EvaluatesOnLine(s, t);
    }
  }

  lemma {:induction false} TimesGrow(last: nat, period: nat, ticks: seq<Tick>)
    requires ticks != [] && Spaced(last, period, ticks)
    ensures ticks[|ticks| - 1].servoTime >= last + period
    decreases |ticks|
  {
    if |ticks| > 1 {
      SpacedTail(last, period, ticks);
      TimesGrow(ticks[0].servoTime, period, ticks[1..]);
    }
  }

  lemma SegmentComposes(s: State, next: State, s': State)
    requires Reachable(s) && Reachable(next) && s.lastServoTime <= next.lastServoTime <= s'.lastServoTime
    requires next.start == s.start && next.segmentStart == s.segmentStart && next.segmentEnd == s.segmentEnd
    requires OnSegment(s, next) && OnSegment(next, s')
    ensures OnSegment(s, s')
  {
    if s.active {
      if next.active {
        VectorsEqual(Along(next, Alpha(next, s'.lastServoTime)), Along(s, Alpha(s, s'.lastServoTime)));
      } else {
        AlphaShape(s, next.lastServoTime);
        AlphaShape(s, s'.lastServoTime);
      }
    }
  }

  lemma SpacedTail(last: nat, period: nat, ticks: seq<Tick>)
    requires ticks != [] && Spaced(last, period, ticks)
    ensures Spaced(ticks[0].servoTime, period, ticks[1..])
  {
    forall i | 0 < i < |ticks| - 1
      ensures ticks[1..][i - 1].servoTime + period <= ticks[1..][i].servoTime
    {
      assert ticks[i].servoTime + period <= ticks[i + 1].servoTime;
    }
  }

  lemma RunsTick(s: State, ticks: seq<Tick>, s': State)
    requires ticks != [] && s.segmentStart <= s.lastServoTime
    requires var r := Step(s, Emit(ticks[0].servoTime, ticks[0].commandTime)); r.Ok? && Runs(r.value, Emits(ticks[1..]), s')
    ensures Runs(s, Emits(ticks), s')
  {
    assert Emits(ticks)[1..] == Emits(ticks[1..]);
  }

  lemma TickCount(period: nat, n: nat)
    requires n > 0
    ensures n * period == period + (n - 1) * period
  {
  }

  /** Exact arrival: ceil(D / period) spaced ticks after a target of duration D
      the emitted point is the destination itself and the segment is closed. */
  lemma ArrivesExactly(s: State, destination: Vector, accepted: nat, sequence: nat, ticks: seq<Tick>) returns (s': State)
    requires Reachable(s) && Accept(s, destination, accepted, sequence).Ok?
    requires var a := Accept(s, destination, accepted, sequence).value;
             && Spaced(a.lastServoTime, a.servoPeriod, ticks)
             && |ticks| >= CeilDiv(a.segmentEnd - a.segmentStart, a.servoPeriod)
    ensures Runs(s, [Target(destination, accepted, sequence)] + Emits(ticks), s')
    ensures s'.emitted == destination && !s'.active
  {
    var a := Accept(s, destination, accepted, sequence).value;
    AcceptKeepsReachable(s, destination, accepted, sequence);
    s' := TicksAreAccepted(a, ticks);
    var events := [Target(destination, accepted, sequence)] + Emits(ticks);
    assert events[1..] == Emits(ticks);
    EnoughTicks(a.segmentEnd - a.segmentStart, a.servoPeriod, |ticks|);
    TicksFollowSegment(a, ticks, s');
  }

  lemma EnoughTicks(duration: nat, period: nat, n: nat)
    requires period > 0 && duration > 0 && n >= CeilDiv(duration, period)
    ensures n * period >= duration && n > 0
  {
    var c := CeilDiv(duration, period);
    assert c * period + (duration + period - 1) % period == duration + period - 1;
    assert c * period >= duration;
    assert n * period >= c * period by {
      MulNat(c, n, period);
    }
    if n == 0 {
      assert 0 * period == 0;
    }
  }

  lemma MulNat(x: nat, y: nat, k: nat)
    requires x <= y
    ensures x * k <= y * k
  {
    assert (y - x) * k >= 0;
  }

  // ---- durations come from the acceptance times -----------------------------

  /** An accepted target or hold, as the next target sees it. */
  datatype Acceptance = Acceptance(time: nat, sequence: nat, hold: bool)

  /** The last acceptance among the events, or the one before them. */
  function Latest(before: Option<Acceptance>, events: seq<Event>): Option<Acceptance>
    decreases |events|
  {
    if events == [] then before else Latest(After(before, events[0]), events[1..])
  }

  function After(before: Option<Acceptance>, e: Event): Option<Acceptance> {
    match e
    case HoldAt(position, accepted, sequence) => Some(Acceptance(accepted, sequence, true))
    case Target(destination, accepted, sequence) => Some(Acceptance(accepted, sequence, false))
    case _ => before
  }

  /** The state remembers this acceptance. */
  predicate Remembers(s: State, last: Option<Acceptance>) {
    match last
    case None => !s.hasAccepted && !s.internalHold
    case Some(a) =>
      s.hasAccepted && s.origin.lastAccepted == s.origin.toAccepted == a.time && s.origin.toSequence == a.sequence
      && s.internalHold == a.hold
  }

  lemma {:induction false} RunRemembers(s: State, events: seq<Event>, s': State, last: Option<Acceptance>)
    requires Runs(s, events, s') && Remembers(s, last)
    ensures Remembers(s', Latest(last, events)) && s'.servoPeriod == s.servoPeriod
    decreases |events|
  {
    if events != [] {
      StepRemembers(s, events[0], last);
      RunRemembers(Step(s, events[0]).value, events[1..], s', After(last, events[0]));
      hide Step;
    }
  }

  lemma StepRemembers(s: State, e: Event, last: Option<Acceptance>)
    requires s.segmentStart <= s.lastServoTime && Remembers(s, last) && Step(s, e).Ok?
    ensures Remembers(Step(s, e).value, After(last, e)) && Step(s, e).value.servoPeriod == s.servoPeriod
  {
  }

  /** The time a new target is given: one servo period for the first one and
      the first after a hold, otherwise the time since the last acceptance. */
  function Duration(last: Option<Acceptance>, accepted: nat, period: nat): int {
    if last.None? || last.value.hold then period else accepted - last.value.time
  }

  /** A new segment starts at the emitted point now and ends after its duration. */
  lemma AcceptSetsDuration(s: State, destination: Vector, accepted: nat, sequence: nat, last: Option<Acceptance>)
    requires Remembers(s, last) && Accept(s, destination, accepted, sequence).Ok?
    ensures var a := Accept(s, destination, accepted, sequence).value;
            && a.active && a.start == a.emitted == s.emitted && a.destination == destination
            && a.segmentStart == a.lastServoTime == s.lastServoTime
            && a.segmentEnd - a.segmentStart == Duration(last, accepted, s.servoPeriod)
            && a.hasAccepted && a.servoPeriod == s.servoPeriod
            && Remembers(a, Some(Acceptance(accepted, sequence, false)))
    ensures last.Some? ==> last.value.time < accepted && last.value.sequence < sequence
  {
  }

  /** Arrival over whole runs, with the duration taken from the events: the last
      acceptance before the target, and the target's own. */
  lemma ReachesInTime(s: State, events: seq<Event>, s': State, destination: Vector, accepted: nat, sequence: nat,
                      ticks: seq<Tick>) returns (s'': State)
    requires Reachable(s) && Remembers(s, None) && Runs(s, events, s')
    requires Accept(s', destination, accepted, sequence).Ok?
    requires Spaced(s'.lastServoTime, s.servoPeriod, ticks) && s.servoPeriod > 0
    requires |ticks| >= CeilDiv(Max0(Duration(Latest(None, events), accepted, s.servoPeriod)), s.servoPeriod)
    ensures Runs(s', [Target(destination, accepted, sequence)] + Emits(ticks), s'')
    ensures s''.emitted == destination && !s''.active
  {
    EveryRunIsContinuous(s, events, s');
    RunRemembers(s, events, s', None);
    AcceptSetsDuration(s', destination, accepted, sequence, Latest(None, events));
    hide Runs, Reachable;
    s'' := ArrivesExactly(s', destination, accepted, sequence, ticks);
  }

  function Max0(n: int): nat {
    if n >= 0 then n else 0
  }

  /** And no earlier: before the duration is over the segment is still open,
      and the emitted point lies on the line to the destination. */
  lemma StaysUnderWay(s: State, events: seq<Event>, s': State, destination: Vector, accepted: nat, sequence: nat,
                      ticks: seq<Tick>, s'': State)
    requires Reachable(s) && Remembers(s, None) && Runs(s, events, s') && ticks != []
    requires Accept(s', destination, accepted, sequence).Ok?
    requires Spaced(s'.lastServoTime, s.servoPeriod, ticks)
    requires Runs(Accept(s', destination, accepted, sequence).value, Emits(ticks), s'')
    ensures var elapsed := s''.lastServoTime - s'.lastServoTime;
            var duration := Duration(Latest(None, events), accepted, s.servoPeriod);
            && s''.lastServoTime == ticks[|ticks| - 1].servoTime
            && (s''.active <==> elapsed < duration)
            && ShareOfWay(s'.emitted, s''.emitted, destination, elapsed, duration)
  {
    hide Runs, Reachable, Accept, Latest, Duration, OnLine, ShareOfWay, Spaced, Remembers;
    EveryRunIsContinuous(s, events, s');
    RunRemembers(s, events, s', None);
    AcceptSetsDuration(s', destination, accepted, sequence, Latest(None, events));
    AcceptKeepsReachable(s', destination, accepted, sequence);
    FreshSegment(Accept(s', destination, accepted, sequence).value, ticks, s'');
  }

  /** Ticks along a segment that has just begun. */
  lemma FreshSegment(a: State, ticks: seq<Tick>, s': State)
    requires Reachable(a) && a.hasAccepted && a.active && a.segmentStart == a.lastServoTime && ticks != []
    requires Spaced(a.lastServoTime, a.servoPeriod, ticks) && Runs(a, Emits(ticks), s')
    ensures s'.lastServoTime == ticks[|ticks| - 1].servoTime
    ensures s'.active <==> s'.lastServoTime - a.segmentStart < a.segmentEnd - a.segmentStart
    ensures ShareOfWay(a.start, s'.emitted, a.destination, s'.lastServoTime - a.segmentStart, a.segmentEnd - a.segmentStart)
  {
    TicksFollowSegment(a, ticks, s');
    TimesGrow(a.lastServoTime, a.servoPeriod, ticks);
    hide OnLine, ShareOfWay, Runs, Spaced;
    LineIsShare(a, s'.emitted, s'.lastServoTime);
  }

  /** How far the way from one vector to another has been gone. */
  predicate ShareOfWay(from: Vector, at: Vector, destination: Vector, elapsed: int, duration: int) {
    forall j | 0 <= j < 6 ::
      (at[j] - from[j]) * duration as real
      == (if elapsed < duration then elapsed else duration) as real * (destination[j] - from[j])
  }

  lemma LineIsShare(a: State, position: Vector, t: nat)
    requires a.segmentStart <= t && a.segmentStart <= a.segmentEnd && OnLine(a, position, t)
    ensures ShareOfWay(a.start, position, a.destination, t - a.segmentStart, a.segmentEnd - a.segmentStart)
  {
  }
}
