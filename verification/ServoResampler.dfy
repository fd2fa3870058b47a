// The causal latest-destination resampler: accepted joint targets define the
// duration of straight segments, and a replacement always starts at the point
// last emitted to the controller.

module ResamplerSpec {
  import opened Naturals
  import opened Results
  import opened Reals
  import opened Joints
  import opened ServoPoints

  const CONTROLLER_PERIOD: nat := 8_000_000
  const MAX_U64: nat := 0xFFFF_FFFF_FFFF_FFFF

  /** Acceptance times and sequence numbers of the current segment. */
  datatype Provenance = Provenance(lastAccepted: nat, fromAccepted: nat, toAccepted: nat,
                                   fromSequence: nat, toSequence: nat)

  datatype Counters = Counters(emittedPoints: nat, repeatedPoints: nat, destinationSwitches: nat,
                               preemptions: nat, endpointPoints: nat, limitedPoints: nat,
                               maximumSegmentDuration: nat, maximumEndpointLatency: nat)

  /** The resampler's fields. */
  datatype State = State(
    emitted: Vector, start: Vector, destination: Vector,
    servoPeriod: nat,
    lastServoTime: nat, segmentStart: nat, segmentEnd: nat,
    origin: Provenance, counters: Counters,
    initialized: bool, hasAccepted: bool, internalHold: bool, active: bool)

  predicate ValidPeriod(period: nat) {
    period != 0 && period % CONTROLLER_PERIOD == 0
  }

  /** What every resampler object satisfies, initialized or not. */
  ghost predicate WellFormed(s: State) {
    && ValidPeriod(s.servoPeriod)
    && s.segmentStart <= s.lastServoTime
  }

  function Fresh(period: nat): State {
    State(ZERO, ZERO, ZERO, period, 0, 0, 0, Provenance(0, 0, 0, 0, 0), Counters(0, 0, 0, 0, 0, 0, 0, 0),
          false, false, false, false)
  }

  function Initialize(s: State, measured: Vector, servoTime: nat): Result<State, Error> {
    if !InLimits(measured) then Err(JointLimitViolation)
    else if servoTime == 0 then Err(InvalidTimestamp)
    else Ok(s.(emitted := measured, start := measured, destination := measured,
               lastServoTime := servoTime, segmentStart := servoTime, segmentEnd := servoTime,
               initialized := true, hasAccepted := false, internalHold := false, active := false))
  }

  function Hold(s: State, position: Vector, accepted: nat, sequence: nat): Result<State, Error> {
    if !s.initialized then Err(NotInitialized)
    else if !InLimits(position) then Err(JointLimitViolation)
    else if accepted == 0 then Err(InvalidTimestamp)
    else Ok(s.(emitted := position, start := position, destination := position,
               segmentStart := s.lastServoTime, segmentEnd := s.lastServoTime,
               origin := Provenance(accepted, accepted, accepted, sequence, sequence),
               hasAccepted := true, internalHold := true, active := false))
  }

  /** The first target, or the first one after a hold: one servo period from here. */
  function StartSegment(s: State, destination: Vector, accepted: nat, sequence: nat, longest: nat): State {
    s.(origin := Provenance(accepted, accepted, accepted, sequence, sequence),
       start := s.emitted, destination := destination,
       segmentStart := s.lastServoTime, segmentEnd := s.lastServoTime + s.servoPeriod,
       counters := s.counters.(maximumSegmentDuration := longest),
       hasAccepted := true, internalHold := false, active := true)
  }

  /** What a replacement has changed when the servo clock turns out to overflow. */
  function Interrupted(s: State, destination: Vector, accepted: nat): State
    requires accepted > s.origin.lastAccepted
  {
    var preempted := if s.active && s.lastServoTime < s.segmentEnd then 1 else 0;
    s.(start := s.emitted, destination := destination, segmentStart := s.lastServoTime,
       counters := s.counters.(preemptions := s.counters.preemptions + preempted,
                               maximumSegmentDuration := MaxNat(s.counters.maximumSegmentDuration,
                                                                accepted - s.origin.lastAccepted)))
  }

  /** A replacement: the time between acceptances is the segment duration. */
  function Replace(s: State, destination: Vector, accepted: nat, sequence: nat): State
    requires accepted > s.origin.lastAccepted
  {
    var begun := Interrupted(s, destination, accepted);
    begun.(segmentEnd := s.lastServoTime + (accepted - s.origin.lastAccepted),
           origin := Provenance(accepted, s.origin.lastAccepted, accepted, s.origin.toSequence, sequence),
           counters := begun.counters.(destinationSwitches := s.counters.destinationSwitches + 1),
           active := true)
  }

  function Accept(s: State, destination: Vector, accepted: nat, sequence: nat): Result<State, Error> {
    if !s.initialized then Err(NotInitialized)
    else if !InLimits(destination) then Err(JointLimitViolation)
    else if accepted == 0 || sequence == 0 then Err(InvalidTimestamp)
    else if !s.hasAccepted then
      Ok(StartSegment(s, destination, accepted, sequence, s.servoPeriod).(internalHold := s.internalHold))
    else if accepted <= s.origin.lastAccepted then Err(TimestampNotMonotonic)
    else if sequence <= s.origin.toSequence then Err(SequenceNotMonotonic)
    else if s.internalHold then
      Ok(StartSegment(s, destination, accepted, sequence, MaxNat(s.counters.maximumSegmentDuration, s.servoPeriod)))
    else if accepted - s.origin.lastAccepted + s.lastServoTime > MAX_U64 then Err(DurationOverflow)
    else Ok(Replace(s, destination, accepted, sequence))
  }

  /** How far along the segment a time lies, clamped to the segment. */
  function Alpha(s: State, t: nat): real
    requires s.segmentStart < s.segmentEnd && s.segmentStart <= t
  {
    Clamp((t - s.segmentStart) as real / (s.segmentEnd - s.segmentStart) as real, 0.0, 1.0)
  }

  function Along(s: State, alpha: real): Vector {
    seq(6, j requires 0 <= j < 6 => s.start[j] + alpha * (s.destination[j] - s.start[j]))
  }

  function SegmentVelocity(s: State): Vector
    requires s.segmentStart < s.segmentEnd
  {
    seq(6, j requires 0 <= j < 6 =>
      (s.destination[j] - s.start[j]) * 1000000000.0 / (s.segmentEnd - s.segmentStart) as real)
  }

  function Evaluate(s: State, t: nat): Result<Point, Error>
    requires s.segmentStart <= s.lastServoTime
  {
    if !s.initialized || !s.hasAccepted then Err(NoAcceptedTarget)
    else if t < s.lastServoTime then Err(ServoTimeBackwards)
    else
      var point := Point(ZERO, ZERO, t, s.origin.fromSequence, s.origin.toSequence,
                         s.origin.fromAccepted, s.origin.toAccepted, 0.0, false);
      if !s.active || s.segmentEnd <= s.segmentStart then
        Ok(point.(position := s.emitted, alpha := if s.active then 1.0 else 0.0, endpoint := s.active))
      else
        var alpha := Alpha(s, t);
        Ok(point.(position := Along(s, alpha), segmentVelocity := SegmentVelocity(s),
                  alpha := alpha, endpoint := alpha >= 1.0))
  }

  function Emitted(s: State, point: Point): State {
    var repeated := if point.position == s.emitted then 1 else 0;
    s.(emitted := point.position, lastServoTime := point.servoTime,
       counters := s.counters.(repeatedPoints := s.counters.repeatedPoints + repeated,
                               emittedPoints := s.counters.emittedPoints + 1))
  }

  /** The end of a segment: the latency counts from its acceptance to the command. */
  function Completed(c: Counters, toAccepted: nat, commandTime: nat): Counters {
    var latency := if commandTime >= toAccepted then commandTime - toAccepted else 0;
    c.(endpointPoints := c.endpointPoints + 1, maximumEndpointLatency := MaxNat(c.maximumEndpointLatency, latency))
  }

  function Commit(s: State, point: Point, commandTime: nat): Result<State, Error> {
    if point.servoTime < s.lastServoTime then Err(ServoTimeBackwards)
    else
      var next := Emitted(s, point);
      if point.endpoint && s.active then
        Ok(next.(active := false, counters := Completed(next.counters, s.origin.toAccepted, commandTime)))
      else Ok(next)
  }

  /** A shaped point emitted, before its segment has an end. */
  function Stranded(s: State, point: Point): State {
    Emitted(s, point).(start := point.position, segmentStart := point.servoTime)
  }

  function CommitLimited(s: State, point: Point): Result<State, Error> {
    if point.servoTime < s.lastServoTime then Err(ServoTimeBackwards)
    else if s.servoPeriod + point.servoTime > MAX_U64 then Err(DurationOverflow)
    else
      var next := Stranded(s, point);
      Ok(next.(segmentEnd := point.servoTime + s.servoPeriod,
               origin := s.origin.(fromSequence := s.origin.toSequence, fromAccepted := s.origin.toAccepted),
               counters := next.counters.(limitedPoints := s.counters.limitedPoints + 1),
               active := true))
  }
}

module ServoResampler {
  import opened Naturals
  import opened Results
  import opened Reals
  import opened Joints
  import opened ServoPoints
  import Spec = ResamplerSpec

  class JointServoResampler {
    var emitted: Vector
    var start: Vector
    var destination: Vector
    var servoPeriod: nat
    var lastServoTime: nat
    var segmentStart: nat
    var segmentEnd: nat
    var origin: Spec.Provenance
    var counters: Spec.Counters
    var initialized: bool
    var hasAccepted: bool
    var internalHold: bool
    var active: bool

    ghost function Snapshot(): Spec.State
      reads this
    {
      Spec.State(emitted, start, destination, servoPeriod, lastServoTime, segmentStart, segmentEnd,
                 origin, counters, initialized, hasAccepted, internalHold, active)
    }

    ghost predicate Valid()
      reads this
    {
      Spec.WellFormed(Snapshot())
    }

    constructor (period: nat)
      requires Spec.ValidPeriod(period)
      ensures Valid() && Snapshot() == Spec.Fresh(period)
    {
      emitted, start, destination := ZERO, ZERO, ZERO;
      servoPeriod := period;
      lastServoTime, segmentStart, segmentEnd := 0, 0, 0;
      origin := Spec.Provenance(0, 0, 0, 0, 0);
      counters := Spec.Counters(0, 0, 0, 0, 0, 0, 0, 0);
      initialized, hasAccepted, internalHold, active := false, false, false, false;
    }

    /** The checked construction: the period must be a positive multiple of 8 ms. */
    static method Create(period: nat) returns (r: Result<JointServoResampler, Error>)
      ensures r.Ok? <==> Spec.ValidPeriod(period)
      ensures r.Ok? ==> fresh(r.value) && r.value.Valid() && r.value.Snapshot() == Spec.Fresh(period)
    {
      if period == 0 || period % Spec.CONTROLLER_PERIOD != 0 {
        return Err(InvalidPeriod);
      }
      var resampler := new JointServoResampler(period);
      return Ok(resampler);
    }

    method Initialize(measured: Vector, servoTime: nat) returns (r: Result<(), Error>)
      requires Valid()
      modifies this
      ensures Valid()
      ensures match Spec.Initialize(old(Snapshot()), measured, servoTime)
              case Ok(s) => r == Ok(()) && Snapshot() == s
              case Err(e) => r == Err(e) && Snapshot() == old(Snapshot())
    {
      if !InLimits(measured) {
        return Err(JointLimitViolation);
      }
      if servoTime == 0 {
        return Err(InvalidTimestamp);
      }
      emitted, start, destination := measured, measured, measured;
      lastServoTime, segmentStart, segmentEnd := servoTime, servoTime, servoTime;
      initialized := true;
      hasAccepted, internalHold, active := false, false, false;
      return Ok(());
    }

    method Hold(position: Vector, accepted: nat, sequence: nat) returns (r: Result<(), Error>)
      requires Valid()
      modifies this
      ensures Valid()
      ensures match Spec.Hold(old(Snapshot()), position, accepted, sequence)
              case Ok(s) => r == Ok(()) && Snapshot() == s
              case Err(e) => r == Err(e) && Snapshot() == old(Snapshot())
    {
      if !initialized {
        return Err(NotInitialized);
      }
      if !InLimits(position) {
        return Err(JointLimitViolation);
      }
      if accepted == 0 {
        return Err(InvalidTimestamp);
      }
      emitted, start, destination := position, position, position;
      segmentStart, segmentEnd := lastServoTime, lastServoTime;
      origin := Spec.Provenance(accepted, accepted, accepted, sequence, sequence);
      hasAccepted, internalHold, active := true, true, false;
      return Ok(());
    }

    /** Accepts a destination. Only the duration overflow leaves a partial update behind. */
    method Accept(target: Vector, accepted: nat, sequence: nat) returns (r: Result<(), Error>)
      requires Valid()
      modifies this
      ensures Valid()
      ensures match Spec.Accept(old(Snapshot()), target, accepted, sequence)
              case Ok(s) => r == Ok(()) && Snapshot() == s
              case Err(e) => r == Err(e) && Snapshot() == (if e == DurationOverflow
                               then Spec.Interrupted(old(Snapshot()), target, accepted) else old(Snapshot()))
    {
      if !initialized {
        return Err(NotInitialized);
      }
      if !InLimits(target) {
        return Err(JointLimitViolation);
      }
      if accepted == 0 || sequence == 0 {
        return Err(InvalidTimestamp);
      }
      if !hasAccepted {
        origin := Spec.Provenance(accepted, accepted, accepted, sequence, sequence);
        start, destination := emitted, target;
        segmentStart, segmentEnd := lastServoTime, lastServoTime + servoPeriod;
        counters := counters.(maximumSegmentDuration := servoPeriod);
        hasAccepted, active := true, true;
        return Ok(());
      }
      if accepted <= origin.lastAccepted {
        return Err(TimestampNotMonotonic);
      }
      if sequence <= origin.toSequence {
        return Err(SequenceNotMonotonic);
      }
      if internalHold {
        origin := Spec.Provenance(accepted, accepted, accepted, sequence, sequence);
        start, destination := emitted, target;
        segmentStart, segmentEnd := lastServoTime, lastServoTime + servoPeriod;
        counters := counters.(maximumSegmentDuration := MaxNat(counters.maximumSegmentDuration, servoPeriod));
        internalHold, active := false, true;
        return Ok(());
      }
      r := ReplaceDestination(target, accepted, sequence);
    }

    /** The tail of Accept: a destination replaced while another was in force. */
    method ReplaceDestination(target: Vector, accepted: nat, sequence: nat) returns (r: Result<(), Error>)
      requires Valid() && accepted > origin.lastAccepted
      modifies this
      ensures Valid()
      ensures r == (if accepted - old(origin).lastAccepted + old(lastServoTime) > Spec.MAX_U64
                    then Err(DurationOverflow) else Ok(()))
      ensures Snapshot() == if r.Ok? then Spec.Replace(old(Snapshot()), target, accepted, sequence)
                            else Spec.Interrupted(old(Snapshot()), target, accepted)
    {
      if active && lastServoTime < segmentEnd {
        counters := counters.(preemptions := counters.preemptions + 1);
      }
      var duration := accepted - origin.lastAccepted;
      counters := counters.(maximumSegmentDuration := MaxNat(counters.maximumSegmentDuration, duration));
      start, destination := emitted, target;
      segmentStart := lastServoTime;
      if duration > Spec.MAX_U64 - segmentStart {
        return Err(DurationOverflow);
      }
      segmentEnd := segmentStart + duration;
      origin := Spec.Provenance(accepted, origin.lastAccepted, accepted, origin.toSequence, sequence);
      active := true;
      counters := counters.(destinationSwitches := counters.destinationSwitches + 1);
      return Ok(());
    }

    method Evaluate(t: nat) returns (r: Result<Point, Error>)
      requires Valid()
      ensures r == Spec.Evaluate(Snapshot(), t)
    {
      if !initialized || !hasAccepted {
        return Err(NoAcceptedTarget);
      }
      if t < lastServoTime {
        return Err(ServoTimeBackwards);
      }
      var point := Point(ZERO, ZERO, t, origin.fromSequence, origin.toSequence,
                         origin.fromAccepted, origin.toAccepted, 0.0, false);
      if !active || segmentEnd <= segmentStart {
        return Ok(point.(position := emitted, alpha := if active then 1.0 else 0.0, endpoint := active));
      }
      var alpha := Clamp((t - segmentStart) as real / (segmentEnd - segmentStart) as real, 0.0, 1.0);
      var position, velocity := ZERO, ZERO;
      ghost var s := Snapshot();
      for joint := 0 to 6
        invariant |position| == 6 && |velocity| == 6
        invariant forall j | 0 <= j < joint ::
            position[j] == Spec.Along(s, alpha)[j] && velocity[j] == Spec.SegmentVelocity(s)[j]
      {
        position := position[joint := start[joint] + alpha * (destination[joint] - start[joint])];
        velocity := velocity[joint :=
          (destination[joint] - start[joint]) * 1000000000.0 / (segmentEnd - segmentStart) as real];
      }
      VectorsEqual(position, Spec.Along(s, alpha));
      VectorsEqual(velocity, Spec.SegmentVelocity(s));
      return Ok(point.(position := position, segmentVelocity := velocity, alpha := alpha, endpoint := alpha >= 1.0));
    }

    method CommitEmitted(point: Point)
      requires lastServoTime <= point.servoTime
      modifies this
      ensures Snapshot() == Spec.Emitted(old(Snapshot()), point)
    {
      var repeated := true;
      for joint := 0 to 6
        invariant repeated <==> forall j | 0 <= j < joint :: point.position[j] == emitted[j]
        invariant Snapshot() == old(Snapshot())
      {
        repeated := repeated && point.position[joint] == emitted[joint];
      }
      if repeated {
        VectorsEqual(point.position, emitted);
      }
      counters := counters.(repeatedPoints := counters.repeatedPoints + (if repeated then 1 else 0),
                            emittedPoints := counters.emittedPoints + 1);
      emitted := point.position;
      lastServoTime := point.servoTime;
    }

    method Commit(point: Point, commandTime: nat) returns (r: Result<(), Error>)
      requires Valid()
      modifies this
      ensures Valid()
      ensures match Spec.Commit(old(Snapshot()), point, commandTime)
              case Ok(s) => r == Ok(()) && Snapshot() == s
              case Err(e) => r == Err(e) && Snapshot() == old(Snapshot())
    {
      if point.servoTime < lastServoTime {
        return Err(ServoTimeBackwards);
      }
      CommitEmitted(point);
      if point.endpoint && active {
        active := false;
        counters := counters.(endpointPoints := counters.endpointPoints + 1);
        if commandTime >= origin.toAccepted {
          counters := counters.(maximumEndpointLatency :=
            MaxNat(counters.maximumEndpointLatency, commandTime - origin.toAccepted));
        }
      }
      return Ok(());
    }

    /** Commits a shaped point. Only the duration overflow leaves a partial update behind. */
    method CommitTransitionLimited(point: Point) returns (r: Result<(), Error>)
      requires Valid()
      modifies this
      ensures Valid()
      ensures match Spec.CommitLimited(old(Snapshot()), point)
              case Ok(s) => r == Ok(()) && Snapshot() == s
              case Err(e) => r == Err(e) && Snapshot() == (if e == DurationOverflow
                               then Spec.Stranded(old(Snapshot()), point) else old(Snapshot()))
    {
      if point.servoTime < lastServoTime {
        return Err(ServoTimeBackwards);
      }
      CommitEmitted(point);
      start := emitted;
      segmentStart := lastServoTime;
      if servoPeriod > Spec.MAX_U64 || segmentStart > Spec.MAX_U64 - servoPeriod {
        return Err(DurationOverflow);
      }
      segmentEnd := segmentStart + servoPeriod;
      origin := origin.(fromSequence := origin.toSequence, fromAccepted := origin.toAccepted);
      active := true;
      counters := counters.(limitedPoints := counters.limitedPoints + 1);
      return Ok(());
    }
  }
}
