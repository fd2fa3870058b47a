// Guarantees of whole sessions that rest on their surroundings: the envelope in
// recovery mode, and a session driven by the schedule and by the drained packets.

module RecoverySession {
  import opened Results
  import opened Reals
  import opened Joints
  import opened ServoPoints
  import opened TransitionLimiter
  import opened MotionGate
  import opened WorkerSpec
  import opened WorkerRuns
  import opened WorkerSession
  import Motion = OutputMotionSpec
  import Closure = EnvelopeClosure

  /** Recovery mode with a hard boundary that covers the recoverable one. */
  predicate Recovering(o: Motion.Options) {
    && Motion.ValidOptions(o) && o.recover
    && o.hard >= o.recoverable && o.recoverable > BOUNDARY_MARGIN
  }

  predicate Tame(acceleration: Vector, o: Motion.Options) {
    forall j | 0 <= j < 6 :: Abs(acceleration[j]) <= o.recoverable + SLACK
  }

  /** The acceleration overhang has room in the jerk boundary over this step. */
  predicate RoomyStep(from: nat, start: nat, o: Motion.Options) {
    start > from ==> Room(o.recoverable, o.jerk, Seconds(from, start))
  }

  /** The rejections that would mean a broken envelope. */
  predicate EnvelopeHalt(h: Halt) {
    h in {Rejected(AccelerationBoundary), Rejected(JerkBoundary), Rejected(RecoverableBoundary), Rejected(DegenerateBoundary)}
  }

  /** Option parsing admits a hard boundary up to 1e-12 below the recoverable
      one; exactly when it is not below, no unshaped sample exceeds it. */
  lemma HardMustCover(o: Motion.Options)
    requires Motion.ValidOptions(o) && o.recover
    ensures (forall sample: Sample :: !Motion.MustShape(o, sample) ==> !ExceedsScalar(sample.acceleration, o.hard))
       <==> o.hard >= o.recoverable
  {
    var edge := Sample(ZERO, ZERO[0 := o.recoverable + SLACK], ZERO);
    assert edge.acceleration[0] == o.recoverable + SLACK;
    assert !Motion.MustShape(o, edge);
    assert o.hard < o.recoverable ==> ExceedsScalar(edge.acceleration, o.hard);
  }

  /** In recovery mode every measurable candidate is accepted. */
  lemma CandidatesAreAccepted(d: Motion.Diagnostics, o: Motion.Options, position: Vector, t: nat)
    requires Recovering(o)
    ensures Motion.Candidate(d, o, position, t) == Motion.Measure(d, position, t)
  {
    hide Motion.Measure;
  }

  /** The final check of a shaped point can only fail for velocity. */
  lemma ShapedVerdict(w: Worker, o: Motion.Options, proposed: Vector, start: nat)
    requires Recovering(o) && Tame(w.diagnostics.previous.acceleration, o)
    requires start > w.diagnostics.previousCommand && RoomyStep(w.diagnostics.previousCommand, start, o)
    ensures AccelerationTarget(o.recoverable) > 0.0
    ensures var d := w.diagnostics;
            var dt := Seconds(d.previousCommand, start);
            var shaped := ShapedPositions(proposed, d.previous.position, d.previous.velocity, d.previous.acceleration,
                                          dt, AccelerationTarget(o.recoverable), JerkTarget(o.jerk));
            var sample := Differences(shaped, d.previous, dt);
            && Tame(sample.acceleration, o)
            && Motion.Verdict(sample, o) in {None, Some(VelocityBoundary)}
  {
    TargetIsInside(o.recoverable);
    var d := w.diagnostics;
    var dt := Seconds(d.previousCommand, start);
    var shaped := ShapedPositions(proposed, d.previous.position, d.previous.velocity, d.previous.acceleration,
                                  dt, AccelerationTarget(o.recoverable), JerkTarget(o.jerk));
    var sample := Differences(shaped, d.previous, dt);
    forall j | 0 <= j < 6
      ensures Abs(sample.acceleration[j]) <= o.recoverable && JerkWithinBoundary(sample.jerk[j], o.jerk)
    {
      ShapedPassesGate(proposed[j], d.previous.Joint(j), dt, o.recoverable, o.jerk);
    }
  }

  /** A proposal stays in the envelope, and is refused only for other reasons. */
  lemma ProposalIsTame(w: Worker, o: Motion.Options, servo: nat, start: nat)
    requires Ready(w) && Recovering(o) && Tame(w.diagnostics.previous.acceleration, o)
    requires RoomyStep(w.diagnostics.previousCommand, start, o)
    ensures match Propose(w, o, servo, start)
            case Err(h) => !EnvelopeHalt(h)
            case Ok(p) => Tame(p.motion.acceleration, o)
  {
    hide Resampler.Evaluate, Motion.Candidate, Motion.Verdict, Differences, ShapedPositions;
    if Resampler.Evaluate(w.resampler, servo).Ok? {
      EvaluationErrors(w.resampler, servo);
      var proposed := Resampler.Evaluate(w.resampler, servo).value;
      CandidatesAreAccepted(w.diagnostics, o, proposed.position, start);
      if start > w.diagnostics.previousCommand {
        ShapedVerdict(w, o, proposed.position, start);
      }
    } else {
      EvaluationErrors(w.resampler, servo);
    }
  }

  lemma EvaluationErrors(s: Resampler.State, t: nat)
    requires s.segmentStart <= s.lastServoTime
    ensures Resampler.Evaluate(s, t).Err? ==> Resampler.Evaluate(s, t).error in {NoAcceptedTarget, ServoTimeBackwards}
  {
  }

  lemma TakeIsTame(w: Worker, o: Motion.Options, i: Input)
    requires Sound(w) && Recovering(o) && Tame(w.diagnostics.previous.acceleration, o)
    requires i.Cycle? ==> RoomyStep(w.diagnostics.previousCommand, i.start, o)
    ensures var turn := Take(w, o, i);
            && (turn.command.Some? ==> Tame(turn.command.value.motion.acceleration, o))
            && match turn.next
               case Err(h) => !EnvelopeHalt(h)
               case Ok(next) =>
                 && Sound(next) && Tame(next.diagnostics.previous.acceleration, o)
                 && next.diagnostics.previousCommand == if i.Cycle? then i.start else w.diagnostics.previousCommand
  {
    match i
    case Packet(m) =>
      if Take(w, o, i).next.Ok? {
        ReceiveIsSound(w, o, m);
      } else {
        ReceiveErrors(w, o, m);
      }
    case Cycle(servo, start, end, observed) =>
      ProposalIsTame(w, o, servo, start);
      if Take(w, o, i).next.Ok? {
        DispatchIsSound(w, o, servo, start, end, observed);
      } else {
        DispatchErrors(w, o, servo, start, end, observed);
      }
      hide Propose, Sound, Ready, Tame;
  }

  lemma ReceiveErrors(w: Worker, o: Motion.Options, m: Message)
    requires Receive(w, o, m).Err?
    ensures !EnvelopeHalt(Receive(w, o, m).error)
  {
  }

  lemma DispatchErrors(w: Worker, o: Motion.Options, servo: nat, start: nat, end: nat, observed: Vector)
    requires Ready(w) && Dispatch(w, o, servo, start, end, observed).next.Err?
    requires Propose(w, o, servo, start).Err? ==> !EnvelopeHalt(Propose(w, o, servo, start).error)
    ensures !EnvelopeHalt(Dispatch(w, o, servo, start, end, observed).next.error)
  {
    hide Propose;
  }

  /** Every command time leaves room after the one before it. */
  predicate RoomyTimes(from: nat, inputs: seq<Input>, o: Motion.Options)
    decreases |inputs|
  {
    inputs == []
    || (match inputs[0]
        case Packet(m) => RoomyTimes(from, inputs[1..], o)
        case Cycle(servo, start, end, observed) => RoomyStep(from, start, o) && RoomyTimes(start, inputs[1..], o))
  }

  /** Envelope closure for the session that drives the arm: in recovery mode no
      run is stopped for acceleration or jerk, and every dispatched command
      measures within the recoverable acceleration. */
  lemma {:induction false} SessionStaysInEnvelope(w: Worker, o: Motion.Options, inputs: seq<Input>)
    requires Sound(w) && Recovering(o) && Tame(w.diagnostics.previous.acceleration, o)
    requires RoomyTimes(w.diagnostics.previousCommand, inputs, o)
    ensures Session(w, o, inputs).1.Some? ==> !EnvelopeHalt(Session(w, o, inputs).1.value)
    ensures forall i | 0 <= i < |Session(w, o, inputs).0| && Session(w, o, inputs).0[i].Some? ::
      Tame(Session(w, o, inputs).0[i].value.motion.acceleration, o)
    decreases |inputs|
  {
    if inputs != [] {
      TakeIsTame(w, o, inputs[0]);
      hide Take, Tame, Recovering, RoomyStep, EnvelopeHalt;
      var turn := Take(w, o, inputs[0]);
      if turn.next.Ok? {
        SessionStaysInEnvelope(turn.next.value, o, inputs[1..]);
      }
    }
  }

  /** From the hand-off on. */
  lemma EnvelopeFromHandOff(o: Motion.Options, period: nat, qHold: Vector, handoff: nat, inputs: seq<Input>)
    requires Resampler.ValidPeriod(period) && Recovering(o) && RoomyTimes(handoff, inputs, o)
    ensures var run := SessionFrom(o, period, qHold, handoff, inputs);
            && (run.1.Some? ==> !EnvelopeHalt(run.1.value))
            && (forall i | 0 <= i < |run.0| && run.0[i].Some? :: Tame(run.0[i].value.motion.acceleration, o))
  {
    BeginIsSound(o, period, qHold, handoff);
    hide Session, Begin;
    match Begin(o, period, qHold, handoff)
    case Err(e) => BeginErrors(o, period, qHold, handoff);
    case Ok(w) => SessionStaysInEnvelope(w, o, inputs);
  }

  lemma BeginErrors(o: Motion.Options, period: nat, qHold: Vector, handoff: nat)
    requires Begin(o, period, qHold, handoff).Err?
    ensures Begin(o, period, qHold, handoff).error in {JointLimitViolation, InvalidTimestamp}
  {
  }

  /** With the worker's default boundaries every sequence of times has room. */
  lemma {:induction false} DefaultsAreRoomy(from: nat, inputs: seq<Input>, o: Motion.Options)
    requires o.recoverable == 4.0 * PI && o.jerk == 20.0 * PI
    ensures RoomyTimes(from, inputs, o)
    decreases |inputs|
  {
    hide Room;
    if inputs != [] {
      if inputs[0].Cycle? {
        if inputs[0].start > from {
          Closure.DefaultsHaveRoom(from, inputs[0].start);
        }
        DefaultsAreRoomy(inputs[0].start, inputs[1..], o);
      } else {
        DefaultsAreRoomy(from, inputs[1..], o);
      }
    }
  }
}

module DrivenSession {
  import opened Results
  import opened Joints
  import opened ServoPoints
  import opened TargetPackets
  import opened WorkerSpec
  import opened WorkerRuns
  import opened WorkerSession
  import opened ServoSchedule
  import opened RecoverySession
  import opened MotionGate
  import opened TransitionLimiter
  import Schedule = ScheduleSpec
  import Scheduled = ScheduledServo
  import Socket = TargetSocket
  import Motion = OutputMotionSpec

  /** One lap of the loop: at most one drained packet, then the cycle. */
  datatype Lap = Lap(packet: Option<Message>, servo: nat, start: nat, end: nat, observed: Vector)

  function PacketOf(l: Lap): seq<Input> {
    if l.packet.Some? then [Packet(l.packet.value)] else []
  }

  function CycleOf(l: Lap): Input {
    Cycle(l.servo, l.start, l.end, l.observed)
  }

  function InputsOf(laps: seq<Lap>): seq<Input>
    decreases |laps|
  {
    if laps == [] then [] else PacketOf(laps[0]) + ([CycleOf(laps[0])] + InputsOf(laps[1..]))
  }

  /** Servo times never go back. */
  predicate Advancing(servo: nat, laps: seq<Lap>)
    decreases |laps|
  {
    laps == [] || (servo <= laps[0].servo && Advancing(laps[0].servo, laps[1..]))
  }

  function Latest(last: Option<nat>, l: Lap): Option<nat> {
    if l.packet.Some? then Some(l.packet.value.sequence) else last
  }

  /** Every packet carries a larger number than the ones before it. */
  predicate Increasing(last: Option<nat>, laps: seq<Lap>)
    decreases |laps|
  {
    laps == [] || ((laps[0].packet.Some? && last.Some? ==> laps[0].packet.value.sequence > last.value)
                   && Increasing(Latest(last, laps[0]), laps[1..]))
  }

  /** The halts that would blame the schedule or the drain. */
  predicate Blamed(h: Option<Halt>) {
    h in {Some(Rejected(ServoTimeBackwards)), Some(Rejected(SequenceNotMonotonic))}
  }

  /** The resampler has seen no later time and no larger number than these. */
  ghost predicate Behind(w: Worker, servo: nat, last: Option<nat>) {
    && Sound(w) && w.resampler.lastServoTime <= servo
    && (w.resampler.origin.toSequence == 0 || (last.Some? && w.resampler.origin.toSequence <= last.value))
  }

  lemma PacketStaysBehind(w: Worker, o: Motion.Options, m: Message, servo: nat, last: Option<nat>)
    requires Behind(w, servo, last) && (last.Some? ==> m.sequence > last.value)
    ensures match Receive(w, o, m)
            case Err(h) => !Blamed(Some(h))
            case Ok(next) => Behind(next, servo, Some(m.sequence))
  {
    if Receive(w, o, m).Ok? {
      ReceiveIsSound(w, o, m);
    }
  }

  lemma CycleStaysBehind(w: Worker, o: Motion.Options, servo: nat, start: nat, end: nat, observed: Vector, last: Option<nat>)
    requires Motion.ValidOptions(o) && Behind(w, servo, last)
    ensures match Dispatch(w, o, servo, start, end, observed).next
            case Err(h) => !Blamed(Some(h))
            case Ok(next) => Behind(next, servo, last)
  {
    ProposesOnTime(w, o, servo, start);
    DispatchIgnoresSequences(w, o, servo, start, end, observed);
    if Dispatch(w, o, servo, start, end, observed).next.Ok? {
      DispatchIsSound(w, o, servo, start, end, observed);
    }
    hide Propose, Sound, Ready, Track, WorkerSpec.Lag;
  }

  lemma ProposesOnTime(w: Worker, o: Motion.Options, servo: nat, start: nat)
    requires Ready(w) && w.resampler.lastServoTime <= servo
    ensures match Propose(w, o, servo, start)
            case Err(h) => h != Rejected(ServoTimeBackwards)
            case Ok(p) => p.point.servoTime == servo
  {
  }

  /** One lap of a session. */
  lemma SessionLap(w: Worker, o: Motion.Options, laps: seq<Lap>, servo: nat, last: Option<nat>)
    requires Motion.ValidOptions(o) && Behind(w, servo, last) && laps != []
    requires Advancing(servo, laps) && Increasing(last, laps)
    ensures var end := Session(w, o, InputsOf(laps)).1;
            || !Blamed(end)
            || exists next :: Behind(next, laps[0].servo, Latest(last, laps[0])) && end == Session(next, o, InputsOf(laps[1..])).1
  {
    var l := laps[0];
    var rest := InputsOf(laps[1..]);
    if l.packet.Some? {
      PacketStaysBehind(w, o, l.packet.value, servo, last);
      FirstInput(w, o, Packet(l.packet.value), [CycleOf(l)] + rest);
      var received := Receive(w, o, l.packet.value);
      if received.Ok? {
        CycleStaysBehind(received.value, o, l.servo, l.start, l.end, l.observed, Latest(last, l));
        FirstInput(received.value, o, CycleOf(l), rest);
      }
    } else {
      CycleStaysBehind(w, o, l.servo, l.start, l.end, l.observed, last);
      FirstInput(w, o, CycleOf(l), rest);
      assert InputsOf(laps) == [CycleOf(l)] + rest;
    }
    hide Session, Take, Receive, Dispatch, Sound, InputsOf;
  }

  lemma FirstInput(w: Worker, o: Motion.Options, i: Input, rest: seq<Input>)
    requires Sound(w)
    ensures Take(w, o, i).next.Err? ==> Session(w, o, [i] + rest).1 == Some(Take(w, o, i).next.error)
    ensures Take(w, o, i).next.Ok? ==> Session(w, o, [i] + rest).1 == Session(Take(w, o, i).next.value, o, rest).1
  {
    hide Take;
    assert ([i] + rest)[1..] == rest;
  }

  lemma {:induction false} SessionIsNotBlamed(w: Worker, o: Motion.Options, laps: seq<Lap>, servo: nat, last: Option<nat>)
    requires Motion.ValidOptions(o) && Behind(w, servo, last)
    requires Advancing(servo, laps) && Increasing(last, laps)
    ensures !Blamed(Session(w, o, InputsOf(laps)).1)
    decreases |laps|
  {
    if laps != [] {
      SessionLap(w, o, laps, servo, last);
      hide Session, InputsOf, Behind, Blamed;
      if Blamed(Session(w, o, InputsOf(laps)).1) {
        var next :| Behind(next, laps[0].servo, Latest(last, laps[0]))
                    && Session(w, o, InputsOf(laps)).1 == Session(next, o, InputsOf(laps[1..])).1;
        SessionIsNotBlamed(next, o, laps[1..], laps[0].servo, Latest(last, laps[0]));
      }
    }
  }

  // ---- where the times and the numbers come from ---------------------------

  /** The laps evaluate at the times of the schedule's cycles. */
  ghost predicate FollowsSchedule(laps: seq<Lap>, cycles: seq<Schedule.Cycle>) {
    && |laps| <= |cycles|
    && forall k | 0 <= k < |laps| :: laps[k].servo == cycles[k].evaluation
  }

  /** The laps process the packets the drains delivered. */
  ghost predicate FollowsDrain(laps: seq<Lap>, packets: seq<Option<TargetPacket>>) {
    && |laps| <= |packets|
    && forall k | 0 <= k < |laps| :: Carries(laps[k].packet, packets[k])
  }

  predicate Carries(m: Option<Message>, p: Option<TargetPacket>) {
    if p.None? then m.None? else m.Some? && m.value.sequence == p.value.sequence
  }

  lemma {:induction false} ScheduleAdvances(laps: seq<Lap>, cycles: seq<Schedule.Cycle>, k: nat, servo: nat,
                                            start: nat, period: nat)
    requires NoBurst(cycles, start, period) && FollowsSchedule(laps, cycles) && k <= |laps|
    requires servo <= if k == 0 then start else cycles[k - 1].evaluation
    ensures Advancing(servo, laps[k..])
    decreases |laps| - k
  {
    if k < |laps| {
      if k == 0 {
        Scheduled.EvaluationsIncrease(cycles, start, period, 0, 0);
      } else {
        Scheduled.EvaluationsIncrease(cycles, start, period, k - 1, k);
      }
      hide NoBurst;
      ScheduleAdvances(laps, cycles, k + 1, cycles[k].evaluation, start, period);
      assert laps[k..][0] == laps[k] && laps[k..][1..] == laps[k + 1..];
    }
  }

  lemma {:induction false} DrainIncreases(laps: seq<Lap>, queues: seq<seq<Socket.Arrival>>, clocks: seq<nat>,
                                          last: Option<nat>, packets: seq<Option<TargetPacket>>)
    requires |queues| == |clocks| && Socket.Delivered(queues, clocks, last, packets)
    requires FollowsDrain(laps, packets)
    ensures Increasing(last, laps)
    decreases |laps|
  {
    if laps != [] {
      Socket.IsLater(queues[0], last, clocks[0], packets[0]);
      hide Socket.NewestWins;
      assert Carries(laps[0].packet, packets[0]);
      var rest := laps[1..];
      forall k | 0 <= k < |rest|
        ensures Carries(rest[k].packet, packets[1..][k])
      {
        assert Carries(laps[k + 1].packet, packets[k + 1]);
      }
      DrainIncreases(rest, queues[1..], clocks[1..], Socket.LastAfter(last, packets[0]), packets[1..]);
    }
  }

  /** A session driven by the schedule's evaluations and the drained packets is
      never stopped for a servo time that goes back or a sequence number that
      does not increase: neither is an assumption about the environment. */
  lemma DrivenSessionIsNotBlamed(o: Motion.Options, period: nat, qHold: Vector, handoff: nat, laps: seq<Lap>,
                                 config: Schedule.Config, teleoperation: bool, start: nat, wakes: seq<Schedule.Wake>,
                                 queues: seq<seq<Socket.Arrival>>, clocks: seq<nat>, packets: seq<Option<TargetPacket>>)
    requires Resampler.ValidPeriod(period) && Motion.ValidOptions(o)
    requires config.period == period && handoff <= start
    requires FollowsSchedule(laps, Trace(Schedule.Begin(start, teleoperation), config, wakes).0)
    requires |queues| == |clocks| && Socket.Delivered(queues, clocks, None, packets) && FollowsDrain(laps, packets)
    ensures !Blamed(SessionFrom(o, period, qHold, handoff, InputsOf(laps)).1)
  {
    hide Trace, Socket.Delivered, FollowsSchedule, FollowsDrain, Session, InputsOf, Advancing, Increasing;
    RunsKeepApart(config, teleoperation, start, wakes);
    ScheduleAdvances(laps, Trace(Schedule.Begin(start, teleoperation), config, wakes).0, 0, handoff, start, period);
    assert laps[0..] == laps;
    DrainIncreases(laps, queues, clocks, None, packets);
    BeginIsSound(o, period, qHold, handoff);
    match Begin(o, period, qHold, handoff)
    case Err(e) => BeginIsNotBlamed(o, period, qHold, handoff);
    case Ok(w) => SessionIsNotBlamed(w, o, laps, handoff, None);
  }

  lemma BeginIsNotBlamed(o: Motion.Options, period: nat, qHold: Vector, handoff: nat)
    requires Begin(o, period, qHold, handoff).Err?
    ensures !Blamed(Some(Rejected(Begin(o, period, qHold, handoff).error)))
  {
  }

  // ---- command times, and every halt that remains --------------------------

  /** Every cycle commands strictly later than the one before it. */
  predicate CommandsIncrease(last: nat, inputs: seq<Input>)
    decreases |inputs|
  {
    inputs == []
    || (if inputs[0].Cycle? then last < inputs[0].start && CommandsIncrease(inputs[0].start, inputs[1..])
        else CommandsIncrease(last, inputs[1..]))
  }

  /** What can stop a session at all, whatever its environment. */
  predicate Possible(h: Halt) {
    || h in {OperatorStop, ContractMismatch, Misaligned, HoldEscalated, WristLag, TrackingLost}
    || (h.Rejected? && h.error in {JointLimitViolation, InvalidTimestamp, TimestampNotMonotonic, SequenceNotMonotonic,
                                   DurationOverflow, ServoTimeBackwards, CommandTimeBackwards, VelocityBoundary,
                                   AccelerationBoundary, JerkBoundary, RecoverableBoundary, DegenerateBoundary})
  }

  lemma ReceiveHalts(w: Worker, o: Motion.Options, m: Message)
    requires Sound(w) && Receive(w, o, m).Err?
    ensures Possible(Receive(w, o, m).error) && Receive(w, o, m).error != Rejected(CommandTimeBackwards)
  {
  }

  lemma ProposeHalts(w: Worker, o: Motion.Options, servo: nat, start: nat)
    requires Sound(w) && Motion.ValidOptions(o) && Propose(w, o, servo, start).Err?
    ensures Possible(Propose(w, o, servo, start).error)
    ensures w.diagnostics.previousCommand < start ==> Propose(w, o, servo, start).error != Rejected(CommandTimeBackwards)
  {
    hide Resampler.Evaluate, Motion.Candidate, Motion.Final, Motion.ShapedPoint, Runs.Reachable;
    EvaluationHalts(w, servo);
    if Resampler.Evaluate(w.resampler, servo).Ok? {
      var proposed := Resampler.Evaluate(w.resampler, servo).value;
      GateHalts(w, o, proposed, start);
      if Motion.ShapedPoint(w.diagnostics, o, proposed, start).Ok? {
        GateHalts(w, o, Motion.ShapedPoint(w.diagnostics, o, proposed, start).value, start);
      }
    }
  }

  lemma EvaluationHalts(w: Worker, servo: nat)
    requires Sound(w)
    ensures Resampler.Evaluate(w.resampler, servo).Err? ==>
              Resampler.Evaluate(w.resampler, servo).error == ServoTimeBackwards
  {
  }

  /** Errors of the gate; a later command time rules out the timestamp ones. */
  lemma GateHalts(w: Worker, o: Motion.Options, p: Point, start: nat)
    requires Sound(w) && Motion.ValidOptions(o)
    ensures var late := w.diagnostics.previousCommand < start;
            && PossibleError(Motion.Candidate(w.diagnostics, o, p.position, start), late)
            && PossibleError(Motion.Final(w.diagnostics, o, p.position, start), late)
            && (Motion.Candidate(w.diagnostics, o, p.position, start).Ok? ==>
                 PossibleError(Motion.ShapedPoint(w.diagnostics, o, p, start), late))
  {
    hide Differences, ShapedPositions, Runs.Reachable;
  }

  predicate PossibleError<T>(r: Result<T, Error>, late: bool) {
    r.Err? ==> Possible(Rejected(r.error)) && (late ==> r.error != CommandTimeBackwards)
  }

  lemma DispatchHalts(w: Worker, o: Motion.Options, servo: nat, start: nat, end: nat, observed: Vector)
    requires Sound(w) && Motion.ValidOptions(o) && Dispatch(w, o, servo, start, end, observed).next.Err?
    ensures var h := Dispatch(w, o, servo, start, end, observed).next.error;
            Possible(h) && (w.diagnostics.previousCommand < start ==> h != Rejected(CommandTimeBackwards))
  {
    if Propose(w, o, servo, start).Err? {
      ProposeHalts(w, o, servo, start);
    }
    hide Propose, Holds.Hold, Holds.Recover, Holds.Escalates, Runs.Reachable;
  }

  lemma {:induction false} SessionHalts(w: Worker, o: Motion.Options, inputs: seq<Input>)
    requires Sound(w) && Motion.ValidOptions(o)
    ensures var end := Session(w, o, inputs).1;
            && (end.Some? ==> Possible(end.value))
            && (CommandsIncrease(w.diagnostics.previousCommand, inputs) ==> end != Some(Rejected(CommandTimeBackwards)))
    decreases |inputs|
  {
    if inputs != [] {
      TakeHalts(w, o, inputs[0]);
      hide Take, Sound, Possible, Motion.ValidOptions;
      if Take(w, o, inputs[0]).next.Ok? {
        SessionHalts(Take(w, o, inputs[0]).next.value, o, inputs[1..]);
      }
    }
  }

  lemma TakeHalts(w: Worker, o: Motion.Options, i: Input)
    requires Sound(w) && Motion.ValidOptions(o)
    ensures Ready(w)
    ensures match Take(w, o, i).next
            case Err(h) =>
              Possible(h) && (i.Packet? || w.diagnostics.previousCommand < i.start ==> h != Rejected(CommandTimeBackwards))
            case Ok(next) =>
              && Sound(next)
              && next.diagnostics.previousCommand == if i.Cycle? then i.start else w.diagnostics.previousCommand
  {
    match i
    case Packet(m) =>
      if Take(w, o, i).next.Ok? {
        ReceiveIsSound(w, o, m);
      } else {
        ReceiveHalts(w, o, m);
      }
    case Cycle(servo, start, end, observed) =>
      if Take(w, o, i).next.Ok? {
        DispatchIsSound(w, o, servo, start, end, observed);
      } else {
        DispatchHalts(w, o, servo, start, end, observed);
      }
      hide Propose, Runs.Reachable, Possible;
  }

  /** Each command is issued within its cycle of the schedule. */
  ghost predicate WithinCycles(laps: seq<Lap>, cycles: seq<Schedule.Cycle>) {
    && |laps| <= |cycles|
    && forall k | 0 <= k < |laps| :: cycles[k].start <= laps[k].start < cycles[k].end
  }

  lemma {:induction false} CyclesFollow(laps: seq<Lap>, cycles: seq<Schedule.Cycle>, k: nat, last: nat, start: nat,
                                        period: nat)
    requires NoBurst(cycles, start, period) && WithinCycles(laps, cycles) && k <= |laps| && period > 0
    requires if k == 0 then last <= start else last < cycles[k - 1].end
    ensures CommandsIncrease(last, InputsOf(laps[k..]))
    decreases |laps| - k
  {
    if k < |laps| {
      assert Prompt(cycles[k]);
      if k > 0 {
        assert Separated(cycles[k - 1], cycles[k], period);
      }
      hide NoBurst, Separated;
      CyclesFollow(laps, cycles, k + 1, laps[k].start, start, period);
      assert laps[k..][0] == laps[k] && laps[k..][1..] == laps[k + 1..];
      LapCommands(laps[k..], last);
    }
  }

  lemma LapCommands(laps: seq<Lap>, last: nat)
    requires laps != [] && last < laps[0].start && CommandsIncrease(laps[0].start, InputsOf(laps[1..]))
    ensures CommandsIncrease(last, InputsOf(laps))
  {
    var rest := [CycleOf(laps[0])] + InputsOf(laps[1..]);
    assert rest[1..] == InputsOf(laps[1..]);
    if laps[0].packet.Some? {
      assert InputsOf(laps)[1..] == rest;
    } else {
      assert InputsOf(laps) == rest;
    }
  }

  /** What remains: the operator, the environment's own data and measurements,
      the end of the servo clock, and a shaped point that is still too fast. */
  predicate Remaining(h: Halt) {
    || h in {OperatorStop, ContractMismatch, Misaligned, HoldEscalated, WristLag, TrackingLost}
    || (h.Rejected? && h.error in {JointLimitViolation, InvalidTimestamp, TimestampNotMonotonic, DurationOverflow,
                                   VelocityBoundary})
  }

  /** Whatever the schedule and the drain drive, and with each command issued
      within its own cycle: in recovery mode a session can only stop for the
      remaining reasons. */
  lemma DrivenSessionHalts(o: Motion.Options, period: nat, qHold: Vector, handoff: nat, laps: seq<Lap>,
                           config: Schedule.Config, teleoperation: bool, start: nat, wakes: seq<Schedule.Wake>,
                           queues: seq<seq<Socket.Arrival>>, clocks: seq<nat>, packets: seq<Option<TargetPacket>>)
    requires Resampler.ValidPeriod(period) && Recovering(o) && RoomyTimes(handoff, InputsOf(laps), o)
    requires config.period == period && handoff <= start
    requires var cycles := Trace(Schedule.Begin(start, teleoperation), config, wakes).0;
             FollowsSchedule(laps, cycles) && WithinCycles(laps, cycles)
    requires |queues| == |clocks| && Socket.Delivered(queues, clocks, None, packets) && FollowsDrain(laps, packets)
    ensures var end := SessionFrom(o, period, qHold, handoff, InputsOf(laps)).1;
            end.Some? ==> Remaining(end.value)
  {
    hide Trace, Socket.Delivered, FollowsSchedule, FollowsDrain, WithinCycles, Session, InputsOf, RoomyTimes, CommandsIncrease,
         NoBurst, Begin, Sound, Possible, Remaining, Blamed, EnvelopeHalt, Motion.ValidOptions, Tame;
    DrivenSessionIsNotBlamed(o, period, qHold, handoff, laps, config, teleoperation, start, wakes, queues, clocks, packets);
    EnvelopeFromHandOff(o, period, qHold, handoff, InputsOf(laps));
    RunsKeepApart(config, teleoperation, start, wakes);
    CyclesFollow(laps, Trace(Schedule.Begin(start, teleoperation), config, wakes).0, 0, handoff, start, period);
    assert laps[0..] == laps;
    BeginIsSound(o, period, qHold, handoff);
    match Begin(o, period, qHold, handoff)
    case Err(e) =>
      BeginErrors(o, period, qHold, handoff);
      StartRemains(e);
    case Ok(w) =>
      SessionHalts(w, o, InputsOf(laps));
      var end := Session(w, o, InputsOf(laps)).1;
      if end.Some? {
        Remains(end.value);
      }
  }

  lemma StartRemains(e: Error)
    requires e in {JointLimitViolation, InvalidTimestamp}
    ensures Remaining(Rejected(e))
  {
  }

  lemma Remains(h: Halt)
    requires Possible(h) && !EnvelopeHalt(h) && !Blamed(Some(h)) && h != Rejected(CommandTimeBackwards)
    ensures Remaining(h)
  {
  }
}
