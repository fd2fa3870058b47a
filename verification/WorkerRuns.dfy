// What every joint session keeps: each dispatched command is gated against the
// one before it, the robot stays put until an aligned target arrives, stalls
// stay within the policy, and numbered packets never trip the sequence check.

module WorkerRuns {
  import opened Results
  import opened Reals
  import opened Joints
  import opened ServoPoints
  import opened MotionGate
  import opened TargetPackets
  import opened WorkerSpec
  import opened JointWorker
  import Runs = ResamplerRuns

  /** What the loop processes, in order. */
  datatype Input = Packet(m: Message) | Cycle(servo: nat, start: nat, end: nat, observed: Vector)

  predicate IsTarget(i: Input) {
    i.Packet? && i.m.kind == JointPosition
  }

  function Take(w: Worker, o: Motion.Options, i: Input): Turn
    requires Ready(w)
  {
    match i
    case Packet(m) => Turn(None, Receive(w, o, m))
    case Cycle(servo, start, end, observed) => Dispatch(w, o, servo, start, end, observed)
  }

  // ---- the state between inputs --------------------------------------------

  /** The gate's previous position is the resampler's emitted point. */
  ghost predicate Sound(w: Worker) {
    && Ready(w)
    && Runs.Reachable(w.resampler) && w.resampler.hasAccepted
    && w.diagnostics.previous.position == w.resampler.emitted
  }

  lemma BeginIsSound(o: Motion.Options, period: nat, qHold: Vector, handoff: nat)
    requires Resampler.ValidPeriod(period)
    ensures Begin(o, period, qHold, handoff).Ok? <==> InLimits(qHold) && handoff != 0
    ensures Begin(o, period, qHold, handoff).Ok? ==>
              var w := Begin(o, period, qHold, handoff).value;
              && Sound(w) && Waits(w, qHold) && Unmoved(w.diagnostics, qHold) && Linked(w, [], Rest(qHold), handoff)
              && w.hold == Holds.IDLE && !w.aligned && w.resampler.origin.toSequence == 0
  {
  }

  lemma ReceiveIsSound(w: Worker, o: Motion.Options, m: Message)
    requires Sound(w) && Receive(w, o, m).Ok?
    ensures Sound(Receive(w, o, m).value)
    ensures Receive(w, o, m).value.diagnostics == w.diagnostics
    ensures Receive(w, o, m).value.hold == w.hold && Receive(w, o, m).value.reference == w.reference
    ensures Receive(w, o, m).value.aligned <==> w.aligned || m.kind == JointPosition
    ensures Receive(w, o, m).value.resampler.origin.toSequence in {w.resampler.origin.toSequence, m.sequence}
  {
    if m.kind == JointPosition {
      Runs.AcceptKeepsReachable(w.resampler, m.joints, m.processing, m.sequence);
    }
  }

  /** Which packets are accepted at all, and what each of them changes. Only a
      stop ends the session by itself; a target must ask for motion in the
      joint frame, inside the limits, and be aligned if it is the first. */
  lemma PacketsMean(w: Worker, o: Motion.Options, m: Message)
    ensures m.kind == Stop ==> Receive(w, o, m) == Err(OperatorStop)
    ensures m.kind == Heartbeat ==>
              Receive(w, o, m) == if m.flags == 1 && m.frame == 0 then Ok(w) else Err(ContractMismatch)
    ensures m.kind == CartesianPose ==> Receive(w, o, m) == Err(ContractMismatch)
    ensures m.kind == HoldCurrent && Receive(w, o, m).Ok? ==>
              var next := Receive(w, o, m).value;
              && m.flags == 0 && m.frame == 0 && next.aligned == w.aligned
              && next.destination == next.resampler.destination == next.resampler.emitted == w.diagnostics.previous.position
              && !next.resampler.active && next.resampler.internalHold
    ensures m.kind == JointPosition && Receive(w, o, m).Ok? ==>
              var next := Receive(w, o, m).value;
              && m.flags == 1 && m.frame == 0 && InLimits(m.joints) && next.aligned
              && next.destination == next.resampler.destination == m.joints
              && (w.aligned || WithinTolerance(m.joints, w.reference, o.alignment))
  {
  }

  predicate WithinTolerance(position: Vector, reference: Vector, tolerance: real) {
    forall j | 0 <= j < 6 :: Abs(position[j] - reference[j]) <= tolerance
  }

  /** The first target is refused as misaligned exactly when some joint is
      farther from the hand-off vector than the tolerance. */
  lemma AlignmentIsChecked(w: Worker, o: Motion.Options, m: Message)
    requires m.kind == JointPosition && m.flags == 1 && m.frame == 0 && InLimits(m.joints)
    ensures Receive(w, o, m) == Err(Misaligned)
       <==> !w.aligned && !WithinTolerance(m.joints, w.reference, o.alignment)
  {
  }

  /** What a proposal has been checked for. */
  lemma ProposalIsGated(w: Worker, o: Motion.Options, servo: nat, start: nat)
    requires Sound(w) && Motion.ValidOptions(o) && Propose(w, o, servo, start).Ok?
    ensures var p := Propose(w, o, servo, start).value;
            && w.diagnostics.previousCommand < start
            && InLimits(p.point.position)
            && p.motion == Differences(p.point.position, w.diagnostics.previous, Seconds(w.diagnostics.previousCommand, start))
            && (o.recover ==> WithinFinalBoundaries(p.motion, o.velocity, o.hard, o.jerk))
            && !Motion.Outside(p.motion.velocity, o.velocity)
            && (o.abort ==> !Motion.OutsideScalar(p.motion.acceleration, o.recoverable))
            && (p.stalled <==> p.limited && Motion.Stalled(w.diagnostics.previous.position, p.point.position, w.destination))
            && (p.limited ==> o.recover)
  {
    var p := Propose(w, o, servo, start).value;
    assert Motion.Measure(w.diagnostics, p.point.position, start) == Ok(p.motion);
    Motion.CandidateMeans(w.diagnostics, o, p.point.position, start);
    if p.limited {
      Motion.GatesAgree(p.motion, o);
    } else if o.recover {
      Motion.UnshapedIsFinal(w.diagnostics, o, p.point.position, start);
      Motion.GatesAgree(p.motion, o);
    }
  }

  /** A committed proposal is one of the resampler's own emissions. */
  lemma CommitIsEmission(w: Worker, o: Motion.Options, servo: nat, start: nat, end: nat)
    requires Sound(w) && Propose(w, o, servo, start).Ok?
    ensures var p := Propose(w, o, servo, start).value;
            var committed := if p.limited then Resampler.CommitLimited(w.resampler, p.point)
                             else Resampler.Commit(w.resampler, p.point, end);
            && committed == Runs.Step(w.resampler,
                                      if p.limited then Runs.EmitShaped(servo, p.point.position) else Runs.Emit(servo, end))
            && (committed.Ok? ==> committed.value.emitted == p.point.position && committed.value.hasAccepted
                                  && committed.value.origin.toSequence == w.resampler.origin.toSequence)
  {
    hide Motion.Candidate, Motion.MustShape, Motion.Final, Motion.Stalled, Resampler.Evaluate;
  }

  lemma DispatchIsSound(w: Worker, o: Motion.Options, servo: nat, start: nat, end: nat, observed: Vector)
    requires Sound(w) && Motion.ValidOptions(o) && Dispatch(w, o, servo, start, end, observed).next.Ok?
    ensures var turn := Dispatch(w, o, servo, start, end, observed);
            var next := turn.next.value;
            && Sound(next) && next.reference == w.reference && next.aligned == w.aligned
            && next.destination == w.destination
            && next.resampler.origin.toSequence == w.resampler.origin.toSequence
            && turn.command.Some?
            && next.diagnostics == Motion.Commit(w.diagnostics, turn.command.value.position, turn.command.value.motion, start)
            && next.resampler.emitted == turn.command.value.position
  {
    ProposedLater(w, o, servo, start);
    hide Propose, Resampler.Commit, Resampler.CommitLimited;
    var p := Propose(w, o, servo, start).value;
    CommittedIsReachable(w, o, servo, start, end);
    hide Runs.Reachable;
  }

  lemma CommittedIsReachable(w: Worker, o: Motion.Options, servo: nat, start: nat, end: nat)
    requires Sound(w) && Propose(w, o, servo, start).Ok?
    ensures var p := Propose(w, o, servo, start).value;
            var committed := if p.limited then Resampler.CommitLimited(w.resampler, p.point)
                             else Resampler.Commit(w.resampler, p.point, end);
            committed.Ok? ==>
              && Runs.Reachable(committed.value) && committed.value.hasAccepted
              && committed.value.emitted == p.point.position
              && committed.value.origin.toSequence == w.resampler.origin.toSequence
  {
    CommitIsEmission(w, o, servo, start, end);
    hide Propose, Runs.Step, Resampler.Commit, Resampler.CommitLimited;
    var p := Propose(w, o, servo, start).value;
    var e := if p.limited then Runs.EmitShaped(servo, p.point.position) else Runs.Emit(servo, end);
    if Runs.Step(w.resampler, e).Ok? {
      Runs.StepKeepsReachable(w.resampler, e);
    }
  }

  // ---- the gate over the whole session -------------------------------------

  function Rest(position: Vector): History {
    History(position, ZERO, ZERO)
  }

  /** Position and finite differences after the last of the commands. */
  function HistoryAfter(commands: seq<Command>, first: History): History {
    if commands == [] then first
    else Advance(commands[|commands| - 1].position, commands[|commands| - 1].motion)
  }

  function TimeAfter(commands: seq<Command>, first: nat): nat {
    if commands == [] then first else commands[|commands| - 1].time
  }

  /** A command measured against the history and time of the one before it. */
  ghost predicate GatedCommand(c: Command, h: History, t: nat, o: Motion.Options) {
    && t < c.time
    && InLimits(c.position)
    && c.motion == Differences(c.position, h, Seconds(t, c.time))
    && !Motion.Outside(c.motion.velocity, o.velocity)
    && (o.abort ==> !Motion.OutsideScalar(c.motion.acceleration, o.recoverable))
    && (o.recover ==> WithinFinalBoundaries(c.motion, o.velocity, o.hard, o.jerk))
  }

  ghost predicate Gated(commands: seq<Command>, first: History, handoff: nat, o: Motion.Options) {
    forall i | 0 <= i < |commands| ::
      GatedCommand(commands[i], HistoryAfter(commands[..i], first), TimeAfter(commands[..i], handoff), o)
  }

  /** The diagnostics remember exactly the last dispatched command. */
  ghost predicate Linked(w: Worker, commands: seq<Command>, first: History, handoff: nat) {
    && w.diagnostics.previous == HistoryAfter(commands, first)
    && w.diagnostics.previousCommand == TimeAfter(commands, handoff)
  }

  lemma GatedAppend(commands: seq<Command>, c: Command, first: History, handoff: nat, o: Motion.Options)
    requires Gated(commands, first, handoff, o)
    requires GatedCommand(c, HistoryAfter(commands, first), TimeAfter(commands, handoff), o)
    ensures Gated(commands + [c], first, handoff, o)
  {
    var all := commands + [c];
    hide GatedCommand, HistoryAfter, TimeAfter;
    forall i | 0 <= i < |all|
      ensures GatedCommand(all[i], HistoryAfter(all[..i], first), TimeAfter(all[..i], handoff), o)
    {
      assert all[..i] == commands[..i];
      if i == |commands| {
        assert commands[..i] == commands;
      }
    }
  }

  /** A cycle's command passes the gate even when the cycle then fails. */
  lemma DispatchIsGated(w: Worker, o: Motion.Options, servo: nat, start: nat, end: nat, observed: Vector,
                        commands: seq<Command>, first: History, handoff: nat)
    requires Sound(w) && Motion.ValidOptions(o)
    requires Linked(w, commands, first, handoff) && Gated(commands, first, handoff, o)
    ensures var turn := Dispatch(w, o, servo, start, end, observed);
            && (turn.command.Some? ==> Gated(commands + [turn.command.value], first, handoff, o))
            && (turn.next.Ok? ==> turn.command.Some?
                                  && Linked(turn.next.value, commands + [turn.command.value], first, handoff))
  {
    hide Dispatch, Propose, Gated, Sound, GatedCommand, Motion.ValidOptions;
    SoundIsReady(w);
    var turn := Dispatch(w, o, servo, start, end, observed);
    DispatchCommands(w, o, servo, start, end, observed);
    if turn.command.Some? {
      CommandIsGated(w, o, servo, start, turn.command.value);
      GatedAppend(commands, turn.command.value, first, handoff, o);
    }
  }

  lemma SoundIsReady(w: Worker)
    requires Sound(w)
    ensures Ready(w)
  {
  }

  /** What a cycle commands is its proposal, and the diagnostics remember it. */
  lemma DispatchCommands(w: Worker, o: Motion.Options, servo: nat, start: nat, end: nat, observed: Vector)
    requires Ready(w)
    ensures var turn := Dispatch(w, o, servo, start, end, observed);
            && (turn.command.Some? ==>
                 && Propose(w, o, servo, start).Ok?
                 && var p := Propose(w, o, servo, start).value;
                 && turn.command.value == Command(p.point.position, start, p.motion, p.stalled))
            && (turn.next.Ok? ==>
                 && turn.command.Some?
                 && turn.next.value.diagnostics
                    == Motion.Commit(w.diagnostics, turn.command.value.position, turn.command.value.motion, start))
  {
    hide Propose, Track, Holds.Hold, Holds.Recover;
  }

  lemma CommandIsGated(w: Worker, o: Motion.Options, servo: nat, start: nat, c: Command)
    requires Sound(w) && Motion.ValidOptions(o) && Propose(w, o, servo, start).Ok?
    requires var p := Propose(w, o, servo, start).value; c == Command(p.point.position, start, p.motion, p.stalled)
    ensures GatedCommand(c, w.diagnostics.previous, w.diagnostics.previousCommand, o)
  {
    hide Propose, Motion.Outside, Motion.OutsideScalar, WithinFinalBoundaries, Differences, InLimits, Sound;
    SoundIsReady(w);
    ProposalIsGated(w, o, servo, start);
  }

  /** To the resampler, a completed cycle is one emission: shaped, or as it was
      evaluated and committed at the end of the command. */
  lemma DispatchEmits(w: Worker, o: Motion.Options, servo: nat, start: nat, end: nat, observed: Vector)
    requires Sound(w) && Dispatch(w, o, servo, start, end, observed).next.Ok?
    ensures Propose(w, o, servo, start).Ok?
    ensures var p := Propose(w, o, servo, start).value;
            var e := if p.limited then Runs.EmitShaped(servo, p.point.position) else Runs.Emit(servo, end);
            Runs.Step(w.resampler, e) == Ok(Dispatch(w, o, servo, start, end, observed).next.value.resampler)
  {
    hide Propose, Runs.Step, Resampler.Commit, Resampler.CommitLimited, Track, Holds.Hold, Holds.Recover;
    CommitIsEmission(w, o, servo, start, end);
  }

  /** And a packet is one acceptance, or nothing. */
  lemma PacketAccepts(w: Worker, o: Motion.Options, m: Message)
    requires Sound(w) && Receive(w, o, m).Ok?
    ensures var next := Receive(w, o, m).value.resampler;
            && (m.kind == JointPosition ==> Runs.Step(w.resampler, Runs.Target(m.joints, m.processing, m.sequence)) == Ok(next))
            && (m.kind == HoldCurrent ==>
                  Runs.Step(w.resampler, Runs.HoldAt(w.diagnostics.previous.position, m.processing, m.sequence)) == Ok(next))
            && (m.kind == Heartbeat ==> next == w.resampler)
  {
    hide Resampler.Accept, Resampler.Hold;
  }

  /** A dispatched command is a stall exactly if it was shaped, the destination
      is more than a microradian away on some joint, and no joint moves more
      than a nanoradian. */
  lemma StallMeans(w: Worker, o: Motion.Options, servo: nat, start: nat, end: nat, observed: Vector)
    requires Sound(w) && Motion.ValidOptions(o) && Dispatch(w, o, servo, start, end, observed).command.Some?
    ensures var c, from := Dispatch(w, o, servo, start, end, observed).command.value, w.diagnostics.previous.position;
            c.stalled <==>
              && Propose(w, o, servo, start).value.limited
              && (exists j | 0 <= j < 6 :: Abs(w.destination[j] - from[j]) > 0.000001)
              && (forall j | 0 <= j < 6 :: Abs(c.position[j] - from[j]) <= 0.000000001)
  {
    hide Dispatch, Propose, Sound, Motion.ValidOptions;
    SoundIsReady(w);
    DispatchCommands(w, o, servo, start, end, observed);
    ProposalIsGated(w, o, servo, start);
  }

  // ---- the motion extremes -------------------------------------------------

  /** x is the greatest magnitude among the values, or nothing. */
  predicate IsPeak(x: real, values: seq<real>) {
    && (forall i | 0 <= i < |values| :: Abs(values[i]) <= x)
    && (x == 0.0 || exists i | 0 <= i < |values| :: Abs(values[i]) == x)
  }

  function Moves(commands: seq<Command>, first: Vector, j: nat): seq<real>
    requires j < 6
  {
    seq(|commands|, i requires 0 <= i < |commands| =>
      commands[i].position[j] - (if i == 0 then first else commands[i - 1].position)[j])
  }

  function Velocities(commands: seq<Command>, j: nat): seq<real>
    requires j < 6
  {
    seq(|commands|, i requires 0 <= i < |commands| => commands[i].motion.velocity[j])
  }

  function Accelerations(commands: seq<Command>, j: nat): seq<real>
    requires j < 6
  {
    seq(|commands|, i requires 0 <= i < |commands| => commands[i].motion.acceleration[j])
  }

  function Jerks(commands: seq<Command>, j: nat): seq<real>
    requires j < 6
  {
    seq(|commands|, i requires 0 <= i < |commands| => commands[i].motion.jerk[j])
  }

  /** The diagnostics' extremes are the peaks over the commands. */
  ghost predicate Peaked(d: Motion.Diagnostics, commands: seq<Command>, first: Vector) {
    && d.initialized && d.previous.position == (if commands == [] then first else commands[|commands| - 1].position)
    && forall j: nat | j < 6 ::
         && IsPeak(d.extremes.delta[j], Moves(commands, first, j))
         && IsPeak(d.extremes.velocity[j], Velocities(commands, j))
         && IsPeak(d.extremes.acceleration[j], Accelerations(commands, j))
         && IsPeak(d.extremes.jerk[j], Jerks(commands, j))
  }

  lemma PeakAppend(x: real, values: seq<real>, y: real, greater: real)
    requires IsPeak(x, values) && x >= 0.0 && greater == Max(x, Abs(y))
    ensures IsPeak(greater, values + [y])
  {
    var all := values + [y];
    if Abs(y) >= x {
      assert Abs(all[|values|]) == greater;
    } else {
      var i :| 0 <= i < |values| && Abs(values[i]) == x;
      assert Abs(all[i]) == greater;
    }
  }

  lemma PeakIsPositive(x: real, values: seq<real>)
    requires IsPeak(x, values)
    ensures x >= 0.0
  {
  }

  lemma CommitPeaks(d: Motion.Diagnostics, commands: seq<Command>, first: Vector, c: Command, start: nat)
    requires Peaked(d, commands, first)
    ensures Peaked(Motion.Commit(d, c.position, c.motion, start), commands + [c], first)
  {
    var next, all := Motion.Commit(d, c.position, c.motion, start), commands + [c];
    forall j: nat | j < 6
      ensures IsPeak(next.extremes.delta[j], Moves(all, first, j))
      ensures IsPeak(next.extremes.velocity[j], Velocities(all, j))
      ensures IsPeak(next.extremes.acceleration[j], Accelerations(all, j))
      ensures IsPeak(next.extremes.jerk[j], Jerks(all, j))
    {
      JointPeaks(d, commands, first, c, start, j);
    }
  }

  lemma SeriesAppend(commands: seq<Command>, first: Vector, c: Command, j: nat)
    requires j < 6
    ensures Moves(commands + [c], first, j)
         == Moves(commands, first, j) + [c.position[j] - (if commands == [] then first else commands[|commands| - 1].position)[j]]
    ensures Velocities(commands + [c], j) == Velocities(commands, j) + [c.motion.velocity[j]]
    ensures Accelerations(commands + [c], j) == Accelerations(commands, j) + [c.motion.acceleration[j]]
    ensures Jerks(commands + [c], j) == Jerks(commands, j) + [c.motion.jerk[j]]
  {
  }

  lemma JointPeaks(d: Motion.Diagnostics, commands: seq<Command>, first: Vector, c: Command, start: nat, j: nat)
    requires j < 6 && Peaked(d, commands, first)
    ensures var x := Motion.Commit(d, c.position, c.motion, start).extremes;
            && IsPeak(x.delta[j], Moves(commands + [c], first, j))
            && IsPeak(x.velocity[j], Velocities(commands + [c], j))
            && IsPeak(x.acceleration[j], Accelerations(commands + [c], j))
            && IsPeak(x.jerk[j], Jerks(commands + [c], j))
  {
    hide IsPeak, Moves, Velocities, Accelerations, Jerks;
    var x := d.extremes;
    var move := c.position[j] - d.previous.position[j];
    SeriesAppend(commands, first, c, j);
    PeakIsPositive(x.delta[j], Moves(commands, first, j));
    PeakIsPositive(x.velocity[j], Velocities(commands, j));
    PeakIsPositive(x.acceleration[j], Accelerations(commands, j));
    PeakIsPositive(x.jerk[j], Jerks(commands, j));
    var y := Motion.Commit(d, c.position, c.motion, start).extremes;
    PeakAppend(x.delta[j], Moves(commands, first, j), move, y.delta[j]);
    PeakAppend(x.velocity[j], Velocities(commands, j), c.motion.velocity[j], y.velocity[j]);
    PeakAppend(x.acceleration[j], Accelerations(commands, j), c.motion.acceleration[j], y.acceleration[j]);
    PeakAppend(x.jerk[j], Jerks(commands, j), c.motion.jerk[j], y.jerk[j]);
  }

  /** Over a session the reported extremes are the peaks of its commands. */
  lemma DispatchPeaks(w: Worker, o: Motion.Options, servo: nat, start: nat, end: nat, observed: Vector,
                      commands: seq<Command>, first: Vector)
    requires Ready(w) && Peaked(w.diagnostics, commands, first)
    ensures var turn := Dispatch(w, o, servo, start, end, observed);
            turn.next.Ok? ==> turn.command.Some? && Peaked(turn.next.value.diagnostics, commands + [turn.command.value], first)
  {
    hide Dispatch, Propose, Peaked, Motion.Commit, Ready;
    DispatchCommands(w, o, servo, start, end, observed);
    var turn := Dispatch(w, o, servo, start, end, observed);
    if turn.next.Ok? {
      CommitPeaks(w.diagnostics, commands, first, turn.command.value, start);
    }
  }

  // ---- waiting for the first aligned target --------------------------------

  /** Everything still points at the measured hand-off vector. */
  ghost predicate Waits(w: Worker, qHold: Vector) {
    && w.reference == qHold
    && (!w.aligned ==>
         && !w.resampler.active && w.resampler.emitted == w.resampler.destination == qHold
         && w.destination == qHold && w.diagnostics.previous == Rest(qHold))
  }

  /** Nothing has moved since the hand-off. */
  ghost predicate Unmoved(d: Motion.Diagnostics, qHold: Vector) {
    d.previous == Rest(qHold) && d.extremes == Motion.NOTHING
  }

  lemma ReceiveWaits(w: Worker, o: Motion.Options, m: Message, qHold: Vector)
    requires Sound(w) && Waits(w, qHold) && Receive(w, o, m).Ok?
    ensures Waits(Receive(w, o, m).value, qHold)
  {
    hide Resampler.Accept;
  }

  lemma StillDifferences(q: Vector, dt: real)
    requires dt > 0.0
    ensures Differences(q, Rest(q), dt) == STILL
  {
    var d := Differences(q, Rest(q), dt);
    forall j | 0 <= j < 6
      ensures d.velocity[j] == 0.0 && d.acceleration[j] == 0.0 && d.jerk[j] == 0.0
    {
      assert q[j] - q[j] == 0.0;
    }
    VectorsEqual(d.velocity, ZERO);
    VectorsEqual(d.acceleration, ZERO);
    VectorsEqual(d.jerk, ZERO);
  }

  /** While waiting, the only proposal is the hand-off vector, unshaped. */
  lemma ProposalWaits(w: Worker, o: Motion.Options, servo: nat, start: nat, qHold: Vector)
    requires Sound(w) && Motion.ValidOptions(o) && Waits(w, qHold) && !w.aligned
    requires Propose(w, o, servo, start).Ok?
    ensures var p := Propose(w, o, servo, start).value;
            p.point.position == qHold && p.motion == STILL && !p.limited && !p.stalled && !p.point.endpoint
  {
    var proposed := Resampler.Evaluate(w.resampler, servo).value;
    assert proposed.position == qHold;
    var sample := Motion.Candidate(w.diagnostics, o, qHold, start).value;
    assert Motion.Measure(w.diagnostics, qHold, start) == Ok(sample);
    StillDifferences(qHold, Seconds(w.diagnostics.previousCommand, start));
    assert !Motion.MustShape(o, STILL);
  }

  lemma DispatchWaits(w: Worker, o: Motion.Options, servo: nat, start: nat, end: nat, observed: Vector, qHold: Vector)
    requires Sound(w) && Motion.ValidOptions(o) && Waits(w, qHold)
    ensures var turn := Dispatch(w, o, servo, start, end, observed);
            && (!w.aligned && turn.command.Some? ==> turn.command.value.position == qHold)
            && (turn.next.Ok? ==> Waits(turn.next.value, qHold))
            && (!w.aligned && turn.next.Ok? && Unmoved(w.diagnostics, qHold) ==> Unmoved(turn.next.value.diagnostics, qHold))
  {
    var turn := Dispatch(w, o, servo, start, end, observed);
    if turn.next.Ok? {
      DispatchIsSound(w, o, servo, start, end, observed);
    }
    if !w.aligned && turn.command.Some? {
      ProposalWaits(w, o, servo, start, qHold);
      hide Propose, Holds.Hold, Holds.Recover, Track;
      CommitsStill(w.diagnostics, qHold, start);
    }
  }

  lemma CommitsStill(d: Motion.Diagnostics, qHold: Vector, start: nat)
    ensures Motion.Commit(d, qHold, STILL, start).previous == Rest(qHold)
    ensures Unmoved(d, qHold) ==> Unmoved(Motion.Commit(d, qHold, STILL, start), qHold)
  {
    if Unmoved(d, qHold) && d.initialized {
      var x := Motion.Commit(d, qHold, STILL, start).extremes;
      VectorsEqual(x.delta, ZERO);
      VectorsEqual(x.velocity, ZERO);
      VectorsEqual(x.acceleration, ZERO);
      VectorsEqual(x.jerk, ZERO);
    }
  }

  // ---- streaks of stalled commands -----------------------------------------

  ghost predicate AllStalled(commands: seq<Command>, i: nat, k: nat)
    requires i <= k < |commands|
  {
    forall j | i <= j <= k :: commands[j].stalled
  }

  /** A streak of dispatched stalls obeys the cycle and the duration limit. */
  ghost predicate StreakWithin(commands: seq<Command>, i: nat, k: nat, o: Motion.Options)
    requires i <= k < |commands|
  {
    k - i + 1 <= o.maximumHoldCycles && commands[k].time - commands[i].time < o.hardStop
  }

  ghost predicate StreaksBounded(commands: seq<Command>, o: Motion.Options) {
    forall i, k | 0 <= i <= k < |commands| && AllStalled(commands, i, k) :: StreakWithin(commands, i, k, o)
  }

  ghost predicate TimesIncrease(commands: seq<Command>) {
    forall i, k | 0 <= i <= k < |commands| :: commands[i].time <= commands[k].time
  }

  /** The tracker's current streak is the trailing streak of the commands. */
  ghost predicate Streak(hold: Holds.Tracker, commands: seq<Command>) {
    && (!hold.active ==> commands == [] || !commands[|commands| - 1].stalled)
    && (hold.active ==>
         && 1 <= hold.cycles <= |commands|
         && commands[|commands| - hold.cycles].time == hold.start
         && (hold.cycles < |commands| ==> !commands[|commands| - hold.cycles - 1].stalled))
  }

  lemma ProgressAppends(hold: Holds.Tracker, commands: seq<Command>, c: Command, o: Motion.Options, sequence: nat)
    requires StreaksBounded(commands, o) && !c.stalled && (hold.active ==> hold.start <= c.time)
    ensures StreaksBounded(commands + [c], o) && Streak(Holds.Recover(hold, c.time, sequence), commands + [c])
  {
    var all := commands + [c];
    forall i, k | 0 <= i <= k < |all| && AllStalled(all, i, k)
      ensures StreakWithin(all, i, k, o)
    {
      assert all[k].stalled;
      assert AllStalled(commands, i, k) by {
        forall j | i <= j <= k
          ensures commands[j].stalled
        {
          assert all[j].stalled;
        }
      }
      assert StreakWithin(commands, i, k, o);
    }
  }

  lemma StallAppends(hold: Holds.Tracker, commands: seq<Command>, c: Command, o: Motion.Options, sequence: nat)
    requires Streak(hold, commands) && StreaksBounded(commands, o) && TimesIncrease(commands + [c])
    requires c.stalled && (hold.active ==> hold.start <= c.time)
    requires !Holds.Escalates(Holds.Hold(hold, PolicyOf(o), c.time, sequence), PolicyOf(o), c.time)
    ensures StreaksBounded(commands + [c], o)
    ensures Streak(Holds.Hold(hold, PolicyOf(o), c.time, sequence), commands + [c])
  {
    var all := commands + [c];
    var next := Holds.Hold(hold, PolicyOf(o), c.time, sequence);
    var n := |all| - next.cycles;
    assert all[n].time == next.start;
    forall i, k | 0 <= i <= k < |all| && AllStalled(all, i, k)
      ensures StreakWithin(all, i, k, o)
    {
      if k < |commands| {
        assert AllStalled(commands, i, k) by {
          forall j | i <= j <= k
            ensures commands[j].stalled
          {
            assert all[j].stalled;
          }
        }
        assert StreakWithin(commands, i, k, o);
      } else {
        assert n > 0 ==> !all[n - 1].stalled;
        assert n <= i;
        assert all[n].time <= all[i].time;
      }
    }
  }

  lemma GatedPrefix(commands: seq<Command>, first: History, handoff: nat, o: Motion.Options)
    requires Gated(commands, first, handoff, o) && commands != []
    ensures var before := commands[..|commands| - 1];
            && Gated(before, first, handoff, o)
            && TimeAfter(before, handoff) < commands[|commands| - 1].time
  {
    hide HistoryAfter, TimeAfter;
    var before := commands[..|commands| - 1];
    assert GatedCommand(commands[|before|], HistoryAfter(before, first), TimeAfter(before, handoff), o);
    hide GatedCommand;
    forall i | 0 <= i < |before|
      ensures GatedCommand(before[i], HistoryAfter(before[..i], first), TimeAfter(before[..i], handoff), o)
    {
      assert before[..i] == commands[..i];
    }
  }

  lemma LastIsLatest(before: seq<Command>, commands: seq<Command>)
    requires commands != [] && before == commands[..|commands| - 1] && TimesIncrease(before)
    requires before != [] ==> before[|before| - 1].time < commands[|before|].time
    ensures TimesIncrease(commands)
  {
    forall i, k | 0 <= i <= k < |commands|
      ensures commands[i].time <= commands[k].time
    {
      if i < k == |before| {
        assert before[i].time <= before[|before| - 1].time;
      } else if k < |before| {
        assert before[i].time <= before[k].time;
      }
    }
  }

  /** Gated commands are ordered in time. */
  lemma {:induction false} GatedIncreases(commands: seq<Command>, first: History, handoff: nat, o: Motion.Options)
    requires Gated(commands, first, handoff, o)
    ensures TimesIncrease(commands)
    decreases |commands|
  {
    if commands != [] {
      var before := commands[..|commands| - 1];
      GatedPrefix(commands, first, handoff, o);
      hide Gated, TimesIncrease;
      GatedIncreases(before, first, handoff, o);
      LastIsLatest(before, commands);
    }
  }

  lemma DispatchStreaks(w: Worker, o: Motion.Options, servo: nat, start: nat, end: nat, observed: Vector,
                        commands: seq<Command>)
    requires Ready(w) && Streak(w.hold, commands) && StreaksBounded(commands, o)
    requires var turn := Dispatch(w, o, servo, start, end, observed);
             turn.command.Some? ==> TimesIncrease(commands + [turn.command.value])
    ensures var turn := Dispatch(w, o, servo, start, end, observed);
            && (turn.command.Some? ==> StreaksBounded(commands + [turn.command.value], o))
            && (turn.next.Ok? ==> turn.command.Some? && Streak(turn.next.value.hold, commands + [turn.command.value]))
  {
    var turn := Dispatch(w, o, servo, start, end, observed);
    if turn.command.Some? {
      ProposedLater(w, o, servo, start);
      hide Propose, Track, StreaksBounded, Streak, Holds.Hold, Holds.Recover, TimesIncrease, Holds.Escalates;
      var p := Propose(w, o, servo, start).value;
      if p.stalled {
        StallAppends(w.hold, commands, turn.command.value, o, p.point.toSequence);
      } else {
        ProgressAppends(w.hold, commands, turn.command.value, o, p.point.toSequence);
      }
    }
  }

  // ---- sequence numbers ----------------------------------------------------

  /** Packets carry strictly increasing numbers from 1 on, as the drain delivers them. */
  ghost predicate Numbered(inputs: seq<Input>) {
    && (forall i | 0 <= i < |inputs| && inputs[i].Packet? :: inputs[i].m.sequence >= 1)
    && (forall i, k | 0 <= i < k < |inputs| && inputs[i].Packet? && inputs[k].Packet? ::
          inputs[i].m.sequence < inputs[k].m.sequence)
  }

  /** The resampler's sequence is that of some processed packet. */
  ghost predicate Seen(w: Worker, done: seq<Input>) {
    || w.resampler.origin.toSequence == 0
    || exists k | 0 <= k < |done| :: done[k].Packet? && done[k].m.sequence == w.resampler.origin.toSequence
  }

  lemma TakenSequence(w: Worker, o: Motion.Options, i: Input)
    requires Sound(w) && Motion.ValidOptions(o) && Take(w, o, i).next.Ok?
    ensures var next := Take(w, o, i).next.value.resampler.origin.toSequence;
            next == w.resampler.origin.toSequence || (i.Packet? && next == i.m.sequence)
  {
    match i
    case Packet(m) => ReceiveIsSound(w, o, m);
    case Cycle(servo, start, end, observed) => DispatchIsSound(w, o, servo, start, end, observed);
  }

  lemma TakeSees(w: Worker, o: Motion.Options, done: seq<Input>, i: Input)
    requires Sound(w) && Motion.ValidOptions(o) && Seen(w, done)
    ensures Take(w, o, i).next.Ok? ==> Seen(Take(w, o, i).next.value, done + [i])
  {
    if Take(w, o, i).next.Ok? {
      TakenSequence(w, o, i);
      hide Take, Sound;
      var all := done + [i];
      assert all[|done|] == i;
      if w.resampler.origin.toSequence != 0 {
        var k :| 0 <= k < |done| && done[k].Packet? && done[k].m.sequence == w.resampler.origin.toSequence;
        assert all[k] == done[k];
      }
    }
  }

  lemma DispatchIgnoresSequences(w: Worker, o: Motion.Options, servo: nat, start: nat, end: nat, observed: Vector)
    requires Sound(w)
    ensures Dispatch(w, o, servo, start, end, observed).next != Err(Rejected(SequenceNotMonotonic))
  {
    if Propose(w, o, servo, start).Ok? {
      hide Propose, Holds.Hold, Holds.Recover;
    }
  }

  lemma NumberedPasses(w: Worker, o: Motion.Options, done: seq<Input>, i: Input)
    requires Sound(w) && Motion.ValidOptions(o) && Seen(w, done) && Numbered(done + [i])
    ensures Take(w, o, i).next != Err(Rejected(SequenceNotMonotonic))
  {
    match i
    case Cycle(servo, start, end, observed) => DispatchIgnoresSequences(w, o, servo, start, end, observed);
    case Packet(m) =>
      var all := done + [i];
      assert all[|done|] == i;
      if w.resampler.origin.toSequence != 0 {
        var k :| 0 <= k < |done| && done[k].Packet? && done[k].m.sequence == w.resampler.origin.toSequence;
        assert all[k] == done[k];
      }
      assert w.resampler.origin.toSequence < m.sequence;
  }
}

module WorkerSession {
  import opened Results
  import opened Joints
  import opened ServoPoints
  import opened WorkerSpec
  import opened WorkerRuns
  import opened JointWorker

  /** The commands of a session, oldest first; one trace entry per input. */
  function Issued(trace: seq<Option<Command>>): seq<Command>
    decreases |trace|
  {
    if trace == [] then []
    else
      var before := Issued(trace[..|trace| - 1]);
      match trace[|trace| - 1]
      case None => before
      case Some(c) => before + [c]
  }

  lemma IssuedAppend(trace: seq<Option<Command>>, c: Option<Command>)
    ensures Issued(trace + [c]) == if c.Some? then Issued(trace) + [c.value] else Issued(trace)
  {
    assert (trace + [c])[..|trace|] == trace;
  }

  /** A command without any joint target before it is the hand-off vector. */
  ghost predicate HoldsBeforeTarget(inputs: seq<Input>, trace: seq<Option<Command>>, qHold: Vector) {
    forall i | 0 <= i < |trace| && i <= |inputs| && trace[i].Some? ::
      HasTarget(inputs[..i]) || trace[i].value.position == qHold
  }

  ghost predicate HasTarget(done: seq<Input>) {
    exists k | 0 <= k < |done| :: IsTarget(done[k])
  }

  /** The gate and the streaks of a session's commands. */
  ghost predicate Bounded(o: Motion.Options, qHold: Vector, handoff: nat, trace: seq<Option<Command>>) {
    Gated(Issued(trace), Rest(qHold), handoff, o) && StreaksBounded(Issued(trace), o)
  }

  /** What holds of a session's commands. */
  ghost predicate Safe(o: Motion.Options, qHold: Vector, handoff: nat, inputs: seq<Input>, trace: seq<Option<Command>>) {
    && Bounded(o, qHold, handoff, trace)
    && HoldsBeforeTarget(inputs, trace, qHold)
  }

  /** What ties the running worker to its commands. */
  ghost predicate Going(w: Worker, qHold: Vector, handoff: nat, done: seq<Input>, trace: seq<Option<Command>>) {
    && Sound(w) && Waits(w, qHold) && Seen(w, done)
    && Linked(w, Issued(trace), Rest(qHold), handoff)
    && Streak(w.hold, Issued(trace))
    && (w.aligned ==> HasTarget(done))
  }

  lemma HasTargetAppend(done: seq<Input>, i: Input)
    ensures HasTarget(done + [i]) <==> HasTarget(done) || IsTarget(i)
  {
    var all := done + [i];
    assert all[|done|] == i;
    if HasTarget(done) {
      var k :| 0 <= k < |done| && IsTarget(done[k]);
      assert all[k] == done[k];
    }
  }

  lemma PacketKeepsGoing(w: Worker, o: Motion.Options, qHold: Vector, handoff: nat, done: seq<Input>, i: Input,
                         trace: seq<Option<Command>>)
    requires Motion.ValidOptions(o) && i.Packet? && Going(w, qHold, handoff, done, trace)
    ensures Take(w, o, i).command == None
    ensures Take(w, o, i).next.Ok? ==> Going(Take(w, o, i).next.value, qHold, handoff, done + [i], trace + [None])
  {
    if Take(w, o, i).next.Ok? {
      ReceiveIsSound(w, o, i.m);
      ReceiveWaits(w, o, i.m, qHold);
      TakeSees(w, o, done, i);
      IssuedAppend(trace, None);
      HasTargetAppend(done, i);
      hide Sound, Waits, Seen, HasTarget, Receive, Issued, HistoryAfter, TimeAfter, Streak;
    }
  }

  lemma CycleIsSafe(w: Worker, o: Motion.Options, qHold: Vector, handoff: nat, done: seq<Input>, i: Input,
                    commands: seq<Command>)
    requires Motion.ValidOptions(o) && i.Cycle? && Sound(w) && Waits(w, qHold) && Seen(w, done)
    requires Linked(w, commands, Rest(qHold), handoff) && Streak(w.hold, commands)
    requires Gated(commands, Rest(qHold), handoff, o) && StreaksBounded(commands, o)
    ensures var turn := Take(w, o, i);
            && (turn.command.Some? ==>
                 && Gated(commands + [turn.command.value], Rest(qHold), handoff, o)
                 && StreaksBounded(commands + [turn.command.value], o)
                 && (!w.aligned ==> turn.command.value.position == qHold))
            && (turn.next.Ok? ==>
                 && turn.command.Some? && Sound(turn.next.value) && Waits(turn.next.value, qHold)
                 && Seen(turn.next.value, done + [i]) && turn.next.value.aligned == w.aligned
                 && Linked(turn.next.value, commands + [turn.command.value], Rest(qHold), handoff)
                 && Streak(turn.next.value.hold, commands + [turn.command.value]))
  {
    var turn := Take(w, o, i);
    DispatchIsGated(w, o, i.servo, i.start, i.end, i.observed, commands, Rest(qHold), handoff);
    if turn.command.Some? {
      GatedIncreases(commands + [turn.command.value], Rest(qHold), handoff, o);
    }
    DispatchStreaks(w, o, i.servo, i.start, i.end, i.observed, commands);
    DispatchWaits(w, o, i.servo, i.start, i.end, i.observed, qHold);
    TakeSees(w, o, done, i);
    if turn.next.Ok? {
      DispatchIsSound(w, o, i.servo, i.start, i.end, i.observed);
    }
    hide Sound, Waits, Seen, Linked, Streak, Gated, StreaksBounded, Dispatch, TimesIncrease;
  }

  lemma CommandHolds(inputs: seq<Input>, trace: seq<Option<Command>>, c: Option<Command>, qHold: Vector)
    requires HoldsBeforeTarget(inputs, trace, qHold) && |trace| < |inputs|
    requires c.Some? ==> HasTarget(inputs[..|trace|]) || c.value.position == qHold
    ensures HoldsBeforeTarget(inputs, trace + [c], qHold)
  {
  }

  lemma CycleKeepsGoing(w: Worker, o: Motion.Options, qHold: Vector, handoff: nat, done: seq<Input>, i: Input,
                        trace: seq<Option<Command>>)
    requires Motion.ValidOptions(o) && i.Cycle? && Going(w, qHold, handoff, done, trace)
    requires Bounded(o, qHold, handoff, trace)
    ensures var turn := Take(w, o, i);
            && Bounded(o, qHold, handoff, trace + [turn.command])
            && (turn.command.Some? ==> HasTarget(done) || turn.command.value.position == qHold)
            && (turn.next.Ok? ==> Going(turn.next.value, qHold, handoff, done + [i], trace + [turn.command]))
  {
    CycleIsSafe(w, o, qHold, handoff, done, i, Issued(trace));
    IssuedAppend(trace, Take(w, o, i).command);
    HasTargetAppend(done, i);
    hide Sound, Waits, Seen, Linked, Streak, Gated, StreaksBounded, Take, Issued, HasTarget;
  }

  /** One input: the commands stay safe, also when the session ends here. */
  lemma TakeIsSafe(w: Worker, o: Motion.Options, qHold: Vector, handoff: nat, inputs: seq<Input>,
                   trace: seq<Option<Command>>)
    requires Motion.ValidOptions(o) && |trace| < |inputs|
    requires Going(w, qHold, handoff, inputs[..|trace|], trace) && Safe(o, qHold, handoff, inputs, trace)
    ensures var turn := Take(w, o, inputs[|trace|]);
            && Safe(o, qHold, handoff, inputs, trace + [turn.command])
            && (turn.next.Ok? ==> Going(turn.next.value, qHold, handoff, inputs[..|trace| + 1], trace + [turn.command]))
  {
    hide Take, Going, Gated, StreaksBounded, HasTarget, HoldsBeforeTarget, Issued, Motion.ValidOptions;
    var done, i := inputs[..|trace|], inputs[|trace|];
    assert inputs[..|trace| + 1] == done + [i];
    IsReady(w, qHold, handoff, done, trace);
    if i.Packet? {
      PacketKeepsGoing(w, o, qHold, handoff, done, i, trace);
      IssuedAppend(trace, None);
    } else {
      CycleKeepsGoing(w, o, qHold, handoff, done, i, trace);
    }
    CommandHolds(inputs, trace, Take(w, o, i).command, qHold);
  }

  lemma IsReady(w: Worker, qHold: Vector, handoff: nat, done: seq<Input>, trace: seq<Option<Command>>)
    requires Going(w, qHold, handoff, done, trace)
    ensures Ready(w)
  {
  }

  lemma NumberedPrefix(inputs: seq<Input>, n: nat)
    requires n <= |inputs| && Numbered(inputs)
    ensures Numbered(inputs[..n])
  {
  }

  // ---- the whole session ---------------------------------------------------

  /** Trace entries before the rest of a session. */
  function Before(entries: seq<Option<Command>>, rest: (seq<Option<Command>>, Option<Halt>))
    : (seq<Option<Command>>, Option<Halt>)
  {
    (entries + rest.0, rest.1)
  }

  /** What a worker does with the inputs, up to the first halt. */
  ghost function Session(w: Worker, o: Motion.Options, inputs: seq<Input>): (seq<Option<Command>>, Option<Halt>)
    decreases |inputs|
  {
    if inputs == [] || !Ready(w) then ([], None)
    else
      var turn := Take(w, o, inputs[0]);
      match turn.next
      case Err(halt) => ([turn.command], Some(halt))
      case Ok(next) => Before([turn.command], Session(next, o, inputs[1..]))
  }

  /** The session from its hand-off on. */
  ghost function SessionFrom(o: Motion.Options, period: nat, qHold: Vector, handoff: nat, inputs: seq<Input>)
    : (seq<Option<Command>>, Option<Halt>)
  {
    match Begin(o, period, qHold, handoff)
    case Err(e) => ([], Some(Rejected(e)))
    case Ok(worker) => Session(worker, o, inputs)
  }

  lemma SessionStep(w: Worker, o: Motion.Options, inputs: seq<Input>, trace: seq<Option<Command>>)
    requires Ready(w) && inputs != []
    ensures var turn := Take(w, o, inputs[0]);
            && (turn.next.Ok? ==> Before(trace, Session(w, o, inputs))
                                  == Before(trace + [turn.command], Session(turn.next.value, o, inputs[1..])))
            && (turn.next.Err? ==> Before(trace, Session(w, o, inputs)) == (trace + [turn.command], Some(turn.next.error)))
  {
    hide Take, Ready;
    var turn := Take(w, o, inputs[0]);
    if turn.next.Ok? {
      var rest := Session(turn.next.value, o, inputs[1..]);
      assert trace + ([turn.command] + rest.0) == trace + [turn.command] + rest.0;
    }
  }

  lemma SessionEnds(w: Worker, o: Motion.Options, trace: seq<Option<Command>>)
    ensures Before(trace, Session(w, o, [])) == (trace, None)
  {
    assert trace + [] == trace;
  }

  lemma SessionBegins(w: Worker, o: Motion.Options, inputs: seq<Input>)
    ensures Before([], Session(w, o, inputs)) == Session(w, o, inputs) && inputs[0..] == inputs
  {
    assert [] + Session(w, o, inputs).0 == Session(w, o, inputs).0;
  }

  /** Input i was processed and did not end the session. */
  predicate Passed(run: Run, i: nat) {
    i < |run.0| && (run.1.Some? ==> i + 1 < |run.0|)
  }

  type Run = (seq<Option<Command>>, Option<Halt>)

  /** The first joint target that passes is aligned with the hand-off vector. */
  ghost predicate FirstIsAligned(o: Motion.Options, qHold: Vector, inputs: seq<Input>, run: Run) {
    forall i | 0 <= i < |inputs| && Passed(run, i) && IsTarget(inputs[i]) && !HasTarget(inputs[..i]) ::
      WithinTolerance(inputs[i].m.joints, qHold, o.alignment)
  }

  predicate IsStop(i: Input) {
    i.Packet? && i.m.kind.Stop?
  }

  /** A stop packet always ends the session. */
  predicate StopsEnd(inputs: seq<Input>, run: Run) {
    forall i | 0 <= i < |inputs| && i < |run.0| && IsStop(inputs[i]) :: i + 1 == |run.0| && run.1 == Some(OperatorStop)
  }

  /** Over sessions: the first accepted target, and stop packets. */
  ghost predicate Obeys(o: Motion.Options, qHold: Vector, inputs: seq<Input>, run: Run) {
    FirstIsAligned(o, qHold, inputs, run) && StopsEnd(inputs, run)
  }

  lemma {:induction false} SessionObeys(w: Worker, o: Motion.Options, qHold: Vector, inputs: seq<Input>)
    requires Sound(w) && Motion.ValidOptions(o) && w.reference == qHold
    ensures !w.aligned ==> FirstIsAligned(o, qHold, inputs, Session(w, o, inputs))
    ensures StopsEnd(inputs, Session(w, o, inputs))
    decreases |inputs|
  {
    if inputs != [] {
      TakeObeys(w, o, qHold, inputs[0]);
      hide Take, Sound, WithinTolerance, Motion.ValidOptions, FirstIsAligned, StopsEnd, IsTarget;
      var turn := Take(w, o, inputs[0]);
      match turn.next
      case Ok(next) =>
        SessionObeys(next, o, qHold, inputs[1..]);
        StopsLater(inputs, turn.command, Session(next, o, inputs[1..]));
        if !w.aligned {
          AlignedLater(o, qHold, inputs, turn.command, Session(next, o, inputs[1..]));
        }
      case Err(h) => EndsHere(o, qHold, inputs, turn.command, h);
    }
  }

  lemma EndsHere(o: Motion.Options, qHold: Vector, inputs: seq<Input>, c: Option<Command>, h: Halt)
    requires inputs != [] && (IsStop(inputs[0]) ==> h == OperatorStop)
    ensures FirstIsAligned(o, qHold, inputs, ([c], Some(h))) && StopsEnd(inputs, ([c], Some(h)))
  {
  }

  lemma StopsLater(inputs: seq<Input>, c: Option<Command>, rest: Run)
    requires inputs != [] && !IsStop(inputs[0]) && StopsEnd(inputs[1..], rest)
    ensures StopsEnd(inputs, Before([c], rest))
  {
    forall i | 0 < i < |inputs| && i <= |rest.0| && IsStop(inputs[i])
      ensures i == |rest.0| && rest.1 == Some(OperatorStop)
    {
      assert IsStop(inputs[1..][i - 1]);
    }
  }

  lemma AlignedLater(o: Motion.Options, qHold: Vector, inputs: seq<Input>, c: Option<Command>, rest: Run)
    requires inputs != []
    requires if IsTarget(inputs[0]) then WithinTolerance(inputs[0].m.joints, qHold, o.alignment)
             else FirstIsAligned(o, qHold, inputs[1..], rest)
    ensures FirstIsAligned(o, qHold, inputs, Before([c], rest))
  {
    hide WithinTolerance;
    var run := Before([c], rest);
    forall i | 0 < i < |inputs| && Passed(run, i) && IsTarget(inputs[i]) && !HasTarget(inputs[..i])
      ensures WithinTolerance(inputs[i].m.joints, qHold, o.alignment)
    {
      NoTargetBefore(inputs, i);
      assert Passed(rest, i - 1) && inputs[1..][i - 1] == inputs[i];
    }
  }

  lemma TakeObeys(w: Worker, o: Motion.Options, qHold: Vector, i: Input)
    requires Sound(w) && Motion.ValidOptions(o) && w.reference == qHold
    ensures Ready(w)
    ensures IsStop(i) ==> Take(w, o, i).next == Err(OperatorStop)
    ensures Take(w, o, i).next.Ok? ==>
              var next := Take(w, o, i).next.value;
              && Sound(next) && next.reference == qHold && (next.aligned <==> w.aligned || IsTarget(i))
              && (!w.aligned && IsTarget(i) ==> WithinTolerance(i.m.joints, qHold, o.alignment))
  {
    match i
    case Packet(m) =>
      PacketsMean(w, o, m);
      if Take(w, o, i).next.Ok? {
        ReceiveIsSound(w, o, m);
      }
    case Cycle(servo, start, end, observed) =>
      if Take(w, o, i).next.Ok? {
        DispatchIsSound(w, o, servo, start, end, observed);
      }
      hide Dispatch;
  }

  lemma NoTargetBefore(inputs: seq<Input>, i: nat)
    requires 0 < i < |inputs| && !HasTarget(inputs[..i])
    ensures !IsTarget(inputs[0]) && !HasTarget(inputs[1..][..i - 1])
  {
    assert inputs[..i][0] == inputs[0];
    var rest := inputs[1..][..i - 1];
    forall k | 0 <= k < |rest|
      ensures !IsTarget(rest[k])
    {
      assert rest[k] == inputs[..i][k + 1];
    }
  }

  /** From the hand-off on. */
  lemma SessionFromObeys(o: Motion.Options, period: nat, qHold: Vector, handoff: nat, inputs: seq<Input>)
    requires Resampler.ValidPeriod(period) && Motion.ValidOptions(o)
    ensures Obeys(o, qHold, inputs, SessionFrom(o, period, qHold, handoff, inputs))
  {
    hide Session, Begin, Sound, Motion.ValidOptions;
    BeginIsSound(o, period, qHold, handoff);
    match Begin(o, period, qHold, handoff)
    case Err(e) =>
    case Ok(w) => SessionObeys(w, o, qHold, inputs);
  }

  /** A session over any environment: it does what the worker's steps say, its
      commands are safe, and numbered packets never trip the sequence check. */
  method RunSession(o: Motion.Options, period: nat, qHold: Vector, handoff: nat, inputs: seq<Input>)
    returns (trace: seq<Option<Command>>, halt: Option<Halt>)
    requires Resampler.ValidPeriod(period) && Motion.ValidOptions(o)
    ensures (trace, halt) == SessionFrom(o, period, qHold, handoff, inputs)
    ensures |trace| <= |inputs| && (halt.None? ==> |trace| == |inputs|)
    ensures Safe(o, qHold, handoff, inputs, trace)
    ensures Obeys(o, qHold, inputs, (trace, halt))
    ensures Numbered(inputs) ==> halt != Some(Rejected(SequenceNotMonotonic))
  {
    hide SessionFrom, Obeys;
    SessionFromObeys(o, period, qHold, handoff, inputs);
    trace, halt := [], None;
    BeginIsSound(o, period, qHold, handoff);
    HandOffDecides(o, period, qHold, handoff, inputs);
    var begun := JointWorker.HandOff(o, period, qHold, handoff);
    if begun.Err? {
      return [], Some(Rejected(begun.error));
    }
    var worker := begun.value;
    ghost var first := worker.Snapshot();
    Starts(o, qHold, handoff, inputs, first);
    hide Take, Sound, Ready, Waits, Seen, Linked, Streak, Going, Safe, Numbered, Begin, Session, Before, Obeys;
    for i := 0 to |inputs|
      invariant |trace| == i && halt == None
      invariant worker.Valid() && worker.options == o
      invariant fresh({worker, worker.resampler, worker.diagnostics, worker.hold})
      invariant Going(worker.Snapshot(), qHold, handoff, inputs[..i], trace)
      invariant Safe(o, qHold, handoff, inputs, trace)
      invariant Before(trace, Session(worker.Snapshot(), o, inputs[i..])) == Session(first, o, inputs)
    {
      ghost var w := worker.Snapshot();
      Advances(w, o, qHold, handoff, inputs, trace);
      SessionStep(w, o, inputs[i..], trace);
      assert inputs[i..][0] == inputs[i] && inputs[i..][1..] == inputs[i + 1..];
      var command;
      command, halt := Process(worker, inputs[i]);
      trace := trace + [command];
      if halt.Some? {
        return;
      }
    }
    assert inputs[|inputs|..] == [];
    SessionEnds(worker.Snapshot(), o, trace);
  }

  lemma HandOffDecides(o: Motion.Options, period: nat, qHold: Vector, handoff: nat, inputs: seq<Input>)
    ensures var begun := Begin(o, period, qHold, handoff);
            var run := SessionFrom(o, period, qHold, handoff, inputs);
            && (begun.Err? ==> run == ([], Some(Rejected(begun.error))))
            && (begun.Ok? ==> run == Session(begun.value, o, inputs))
  {
    hide Begin, Session;
  }

  lemma Starts(o: Motion.Options, qHold: Vector, handoff: nat, inputs: seq<Input>, first: Worker)
    requires Sound(first) && Waits(first, qHold) && Linked(first, [], Rest(qHold), handoff)
    requires first.hold == Holds.IDLE && !first.aligned && first.resampler.origin.toSequence == 0
    ensures Going(first, qHold, handoff, inputs[..0], []) && Safe(o, qHold, handoff, inputs, [])
    ensures Before([], Session(first, o, inputs[0..])) == Session(first, o, inputs)
  {
    SessionBegins(first, o, inputs);
  }

  lemma Advances(w: Worker, o: Motion.Options, qHold: Vector, handoff: nat, inputs: seq<Input>, trace: seq<Option<Command>>)
    requires Motion.ValidOptions(o) && |trace| < |inputs|
    requires Going(w, qHold, handoff, inputs[..|trace|], trace) && Safe(o, qHold, handoff, inputs, trace)
    ensures Ready(w)
    ensures var turn := Take(w, o, inputs[|trace|]);
            && Safe(o, qHold, handoff, inputs, trace + [turn.command])
            && (turn.next.Ok? ==> Going(turn.next.value, qHold, handoff, inputs[..|trace| + 1], trace + [turn.command]))
            && (Numbered(inputs) ==> turn.next != Err(Rejected(SequenceNotMonotonic)))
  {
    TakeIsSafe(w, o, qHold, handoff, inputs, trace);
    IsReady(w, qHold, handoff, inputs[..|trace|], trace);
    if Numbered(inputs) {
      assert inputs[..|trace|] + [inputs[|trace|]] == inputs[..|trace| + 1];
      NumberedPrefix(inputs, |trace| + 1);
      NumberedPasses(w, o, inputs[..|trace|], inputs[|trace|]);
    }
    hide Take, Safe;
  }

  method Process(worker: JointWorker, i: Input) returns (command: Option<Command>, halt: Option<Halt>)
    requires worker.Valid()
    modifies worker, worker.resampler, worker.diagnostics, worker.hold
    ensures var turn := Take(old(worker.Snapshot()), worker.options, i);
            command == turn.command
            && match turn.next
               case Ok(w) => halt == None && worker.Valid() && worker.Snapshot() == w
               case Err(h) => halt == Some(h)
  {
    hide Receive, Dispatch;
    match i
    case Packet(m) =>
      halt := worker.Receive(m);
      command := None;
    case Cycle(servo, start, end, observed) =>
      command, halt := worker.Dispatch(servo, start, end, observed);
  }
}
