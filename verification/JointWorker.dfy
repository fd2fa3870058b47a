// The command path of the worker's joint modes: packets move the resampler,
// cycles evaluate it and dispatch one gated command.

module WorkerSpec {
  import opened Results
  import opened Reals
  import opened Joints
  import opened ServoPoints
  import opened MotionGate
  import opened TargetPackets
  import Resampler = ResamplerSpec
  import Motion = OutputMotionSpec
  import Holds = HoldTrackerSpec

  const ALLOW_MOTION: nat := 1
  const LAG_INCREASE: real := 0.000001

  /** A drained packet with its payload decoded. */
  datatype Message = Message(kind: Kind, flags: nat, frame: nat, sequence: nat, processing: nat, joints: Vector)

  /** One vector handed to the controller. */
  datatype Command = Command(position: Vector, time: nat, motion: Sample, stalled: bool)

  /** Measured lag behind the commands, over the last cycles. */
  datatype Tracking = Tracking(previous: Vector, increasing: seq<nat>, crossings: nat)

  const UNTRACKED: Tracking := Tracking(ZERO, [0, 0, 0, 0, 0, 0], 0)

  datatype Worker = Worker(
    resampler: Resampler.State, diagnostics: Motion.Diagnostics, hold: Holds.Tracker,
    destination: Vector, reference: Vector, aligned: bool, tracking: Tracking)

  /** Why a session ends. */
  datatype Halt =
    | OperatorStop
    | ContractMismatch
    | Misaligned
    | Rejected(error: Error)
    | HoldEscalated
    | WristLag
    | TrackingLost

  function PolicyOf(o: Motion.Options): Holds.Policy {
    Holds.Policy(o.degraded, o.hardStop, o.maximumHoldCycles)
  }

  /** The hand-off: everything starts at the vector measured after activation. */
  function Begin(o: Motion.Options, period: nat, qHold: Vector, handoff: nat): Result<Worker, Error> {
    match Resampler.Initialize(Resampler.Fresh(period), qHold, handoff)
    case Err(e) => Err(e)
    case Ok(initial) =>
      match Resampler.Hold(initial, qHold, handoff, 0)
      case Err(e) => Err(e)
      case Ok(resampler) =>
        match Motion.Initialize(Motion.FRESH, qHold, handoff)
        case Err(e) => Err(e)
        case Ok(diagnostics) =>
          Ok(Worker(resampler, diagnostics, Holds.IDLE, qHold, qHold, false, UNTRACKED))
  }

  // ---- packets -------------------------------------------------------------

  predicate FarFrom(position: Vector, reference: Vector, tolerance: real) {
    exists j | 0 <= j < 6 :: Abs(position[j] - reference[j]) > tolerance
  }

  function Receive(w: Worker, o: Motion.Options, m: Message): Result<Worker, Halt> {
    match m.kind
    case Stop => Err(OperatorStop)
    case Heartbeat => if m.flags != ALLOW_MOTION || m.frame != 0 then Err(ContractMismatch) else Ok(w)
    case HoldCurrent =>
      if m.flags != 0 || m.frame != 0 then Err(ContractMismatch)
      else
        var position := w.diagnostics.previous.position;
        (match Resampler.Hold(w.resampler, position, m.processing, m.sequence)
         case Err(e) => Err(Rejected(e))
         case Ok(r) => Ok(w.(resampler := r, destination := position)))
    case _ =>
      if m.flags != ALLOW_MOTION || m.kind != JointPosition || m.frame != 0 then Err(ContractMismatch)
      else if !InLimits(m.joints) then Err(Rejected(JointLimitViolation))
      else if !w.aligned && FarFrom(m.joints, w.reference, o.alignment) then Err(Misaligned)
      else
        (match Resampler.Accept(w.resampler, m.joints, m.processing, m.sequence)
         case Err(e) => Err(Rejected(e))
         case Ok(r) => Ok(w.(resampler := r, destination := m.joints, aligned := true)))
  }

  // ---- cycles --------------------------------------------------------------

  ghost predicate Ready(w: Worker) {
    && w.resampler.segmentStart <= w.resampler.lastServoTime
    && w.diagnostics.initialized
    && (w.hold.active ==> w.hold.start <= w.diagnostics.previousCommand)
    && |w.tracking.increasing| == 6
  }

  /** The point a cycle wants to dispatch. */
  datatype Proposal = Proposal(point: Point, motion: Sample, limited: bool, stalled: bool)

  function Propose(w: Worker, o: Motion.Options, servo: nat, start: nat): Result<Proposal, Halt>
    requires w.resampler.segmentStart <= w.resampler.lastServoTime
  {
    match Resampler.Evaluate(w.resampler, servo)
    case Err(e) => Err(Rejected(e))
    case Ok(proposed) =>
      match Motion.Candidate(w.diagnostics, o, proposed.position, start)
      case Err(e) => Err(Rejected(e))
      case Ok(sample) =>
        if !Motion.MustShape(o, sample) then Ok(Proposal(proposed, sample, false, false))
        else match Motion.ShapedPoint(w.diagnostics, o, proposed, start)
          case Err(e) => Err(Rejected(e))
          case Ok(point) =>
            match Motion.Final(w.diagnostics, o, point.position, start)
            case Err(e) => Err(Rejected(e))
            case Ok(motion) =>
              Ok(Proposal(point, motion, true,
                          Motion.Stalled(w.diagnostics.previous.position, point.position, w.destination)))
  }

  const TURN: real := 2.0 * PI

  /** The nearest integer, ties to even. */
  function Nearest(q: real): int {
    var f := q.Floor;
    var d := q - f as real;
    if d < 0.5 then f else if d > 0.5 then f + 1 else if f % 2 == 0 then f else f + 1
  }

  function Turns(k: int): real {
    TURN * k as real
  }

  /** The IEEE remainder of a joint difference by a full turn. */
  function ShortestDifference(target: real, measured: real): real {
    target - measured - Turns(Nearest((target - measured) / TURN))
  }

  function Lag(target: Vector, observed: Vector): Vector {
    seq(6, j requires 0 <= j < 6 => Abs(ShortestDifference(target[j], observed[j])))
  }

  /** Consecutive cycles of growing lag, counted on the wrist joints only. */
  function Increasing(t: Tracking, lag: Vector): seq<nat>
    requires |t.increasing| == 6
  {
    seq(6, j requires 0 <= j < 6 =>
      if j < 3 then t.increasing[j]
      else if lag[j] > t.previous[j] + LAG_INCREASE then t.increasing[j] + 1 else 0)
  }

  predicate WristLags(increasing: seq<nat>, lag: Vector, o: Motion.Options)
    requires |increasing| == 6
  {
    exists j | 3 <= j < 6 :: lag[j] >= 0.5 * o.trackingAbort && increasing[j] >= 3
  }

  predicate Lost(lag: Vector, o: Motion.Options) {
    exists j | 0 <= j < 6 :: lag[j] > o.trackingAbort
  }

  function Track(t: Tracking, o: Motion.Options, lag: Vector): Result<Tracking, Halt>
    requires |t.increasing| == 6
  {
    var increasing := Increasing(t, lag);
    var crossings := if Lost(lag, o) then t.crossings + 1 else 0;
    if WristLags(increasing, lag, o) then Err(WristLag)
    else if crossings >= o.trackingCycles then Err(TrackingLost)
    else Ok(Tracking(lag, increasing, crossings))
  }

  /** One cycle: the command it issued, if any, and the worker after it. A
      command can have been issued although the cycle then fails. */
  datatype Turn = Turn(command: Option<Command>, next: Result<Worker, Halt>)

  function Dispatch(w: Worker, o: Motion.Options, servo: nat, start: nat, end: nat, observed: Vector): Turn
    requires Ready(w)
  {
    match Propose(w, o, servo, start)
    case Err(halt) => Turn(None, Err(halt))
    case Ok(p) =>
      var hold := if p.stalled then Holds.Hold(w.hold, PolicyOf(o), start, p.point.toSequence) else w.hold;
      if p.stalled && Holds.Escalates(hold, PolicyOf(o), start) then Turn(None, Err(HoldEscalated))
      else match Track(w.tracking, o, Lag(p.point.position, observed))
        case Err(halt) => Turn(None, Err(halt))
        case Ok(tracking) => Issue(w.(hold := hold, tracking := tracking), p, start, end)
  }

  /** The command and the bookkeeping after it. */
  function Issue(w: Worker, p: Proposal, start: nat, end: nat): Turn
    requires w.hold.active ==> w.hold.start <= start
  {
    var committed := if p.limited then Resampler.CommitLimited(w.resampler, p.point)
                     else Resampler.Commit(w.resampler, p.point, end);
    var hold := if p.stalled then w.hold else Holds.Recover(w.hold, start, p.point.toSequence);
    Turn(Some(Command(p.point.position, start, p.motion, p.stalled)),
         match committed
         case Err(e) => Err(Rejected(e))
         case Ok(r) => Ok(w.(resampler := r, hold := hold,
                             diagnostics := Motion.Commit(w.diagnostics, p.point.position, p.motion, start))))
  }

  /** The shortest difference is the true one up to full turns, and at most half a turn. */
  lemma ShortestIsShortest(target: real, measured: real)
    ensures exists k: int :: target - measured == ShortestDifference(target, measured) + Turns(k)
    ensures Abs(ShortestDifference(target, measured)) <= PI
  {
    var x := target - measured;
    var q := x / TURN;
    var k := Nearest(q);
    assert x == ShortestDifference(target, measured) + Turns(k);
    var d := q - k as real;
    assert -0.5 <= d <= 0.5;
    assert q * TURN == x;
    assert ShortestDifference(target, measured) == d * TURN;
  }
}

module JointWorker {
  import opened Results
  import opened Reals
  import opened Joints
  import opened ServoPoints
  import opened TargetPackets
  import opened Spec = WorkerSpec
  import opened ServoResampler
  import opened OutputMotion
  import opened HoldTracker

  class JointWorker {
    const options: Motion.Options
    const resampler: JointServoResampler
    const diagnostics: OutputMotionDiagnostics
    const hold: OutputNoProgressHoldTracker
    var destination: Vector
    var reference: Vector
    var aligned: bool
    var tracking: Tracking

    ghost function Snapshot(): Worker
      reads this, resampler, diagnostics, hold
    {
      Worker(resampler.Snapshot(), diagnostics.Snapshot(), hold.Snapshot(), destination, reference, aligned, tracking)
    }

    ghost predicate Valid()
      reads this, resampler, diagnostics, hold
    {
      && resampler.Valid() && Ready(Snapshot())
      && diagnostics.options == options && hold.policy == PolicyOf(options)
    }

    constructor (o: Motion.Options, r: JointServoResampler, d: OutputMotionDiagnostics, qHold: Vector)
      requires r.Valid() && d.options == o && d.initialized
      ensures options == o && resampler == r && diagnostics == d && fresh(hold) && Valid()
      ensures Snapshot() == Worker(r.Snapshot(), d.Snapshot(), Holds.IDLE, qHold, qHold, false, UNTRACKED)
    {
      options, resampler, diagnostics := o, r, d;
      hold := new OutputNoProgressHoldTracker(PolicyOf(o));
      destination, reference, aligned := qHold, qHold, false;
      tracking := UNTRACKED;
    }

    /** The hand-off from the measured state. */
    static method HandOff(o: Motion.Options, period: nat, qHold: Vector, handoff: nat)
      returns (r: Result<JointWorker, Error>)
      requires Resampler.ValidPeriod(period)
      ensures match Spec.Begin(o, period, qHold, handoff)
              case Err(e) => r == Err(e)
              case Ok(w) => r.Ok? && r.value.Valid() && r.value.Snapshot() == w && r.value.options == o
      ensures r.Ok? ==> fresh({r.value, r.value.resampler, r.value.diagnostics, r.value.hold})
    {
      var resampler := new JointServoResampler(period);
      var initialized := resampler.Initialize(qHold, handoff);
      if initialized.Err? {
        return Err(initialized.error);
      }
      var held := resampler.Hold(qHold, handoff, 0);
      if held.Err? {
        return Err(held.error);
      }
      var diagnostics := new OutputMotionDiagnostics(o);
      var started := diagnostics.Initialize(qHold, handoff);
      if started.Err? {
        return Err(started.error);
      }
      var worker := new JointWorker(o, resampler, diagnostics, qHold);
      return Ok(worker);
    }

    method Receive(m: Message) returns (halt: Option<Halt>)
      requires Valid()
      modifies this, resampler
      ensures match Spec.Receive(old(Snapshot()), options, m)
              case Ok(w) => halt == None && Valid() && Snapshot() == w
              case Err(h) => halt == Some(h)
    {
      match m.kind
      case Stop => return Some(OperatorStop);
      case Heartbeat =>
        return if m.flags != ALLOW_MOTION || m.frame != 0 then Some(ContractMismatch) else None;
      case HoldCurrent =>
        if m.flags != 0 || m.frame != 0 {
          return Some(ContractMismatch);
        }
        var position := diagnostics.previous.position;
        var held := resampler.Hold(position, m.processing, m.sequence);
        if held.Err? {
          return Some(Rejected(held.error));
        }
        destination := position;
        return None;
      case JointPosition => halt := ReceiveTarget(m);
      case CartesianPose => return Some(ContractMismatch);
    }

    method ReceiveTarget(m: Message) returns (halt: Option<Halt>)
      requires Valid() && m.kind == JointPosition
      modifies this, resampler
      ensures match Spec.Receive(old(Snapshot()), options, m)
              case Ok(w) => halt == None && Valid() && Snapshot() == w
              case Err(h) => halt == Some(h)
    {
      hide Resampler.Accept;
      if m.flags != ALLOW_MOTION || m.frame != 0 {
        return Some(ContractMismatch);
      }
      if !InLimits(m.joints) {
        return Some(Rejected(JointLimitViolation));
      }
      if !aligned {
        var delta := 0.0;
        for joint := 0 to 6
          invariant delta >= 0.0
          invariant delta > options.alignment <==>
                      options.alignment < 0.0 || exists j | 0 <= j < joint :: Abs(m.joints[j] - reference[j]) > options.alignment
        {
          delta := Max(delta, Abs(m.joints[joint] - reference[joint]));
        }
        if delta > options.alignment {
          assert FarFrom(m.joints, reference, options.alignment) by {
            assert Abs(m.joints[0] - reference[0]) >= 0.0;
          }
          return Some(Misaligned);
        }
        aligned := true;
      }
      var accepted := resampler.Accept(m.joints, m.processing, m.sequence);
      if accepted.Err? {
        return Some(Rejected(accepted.error));
      }
      destination := m.joints;
      return None;
    }

    /** Evaluation, candidate check, shaping and final check. */
    method ProposePoint(servo: nat, start: nat) returns (r: Result<Proposal, Halt>)
      requires Valid()
      ensures r == Propose(Snapshot(), options, servo, start)
    {
      hide Motion.Candidate, Motion.Final, Motion.ShapedPoint, Resampler.Evaluate;
      var evaluated := resampler.Evaluate(servo);
      if evaluated.Err? {
        return Err(Rejected(evaluated.error));
      }
      var proposed := evaluated.value;
      var prior := diagnostics.previous.position;
      var candidate := diagnostics.CheckCandidate(proposed.position, start);
      if candidate.Err? {
        return Err(Rejected(candidate.error));
      }
      if !Motion.MustShape(options, candidate.value) {
        return Ok(Proposal(proposed, candidate.value, false, false));
      }
      var shaped := diagnostics.TransitionLimitedPoint(proposed, start);
      if shaped.Err? {
        return Err(Rejected(shaped.error));
      }
      var motion := diagnostics.CheckFinal(shaped.value.position, start);
      if motion.Err? {
        return Err(Rejected(motion.error));
      }
      var stalled := ClassifyTransition(prior, shaped.value.position, destination);
      return Ok(Proposal(shaped.value, motion.value, true, stalled));
    }

    /** The lag checks before the controller call. */
    method CheckTracking(target: Vector, observed: Vector) returns (halt: Option<Halt>)
      requires |tracking.increasing| == 6
      modifies this`tracking
      ensures |tracking.increasing| == 6
      ensures match Track(old(tracking), options, Lag(target, observed))
              case Ok(t) => halt == None && tracking == t
              case Err(h) => halt == Some(h)
    {
      var lag := Lag(target, observed);
      ghost var counts := Increasing(tracking, lag);
      var hardCrossing := false;
      var increasing := tracking.increasing;
      for joint := 0 to 6
        invariant |increasing| == 6
        invariant forall j | 0 <= j < joint :: increasing[j] == counts[j]
        invariant forall j | joint <= j < 6 :: increasing[j] == tracking.increasing[j]
        invariant hardCrossing <==> exists j | 0 <= j < joint :: lag[j] > options.trackingAbort
        invariant !exists j | 3 <= j < joint :: lag[j] >= 0.5 * options.trackingAbort && counts[j] >= 3
      {
        hardCrossing := hardCrossing || lag[joint] > options.trackingAbort;
        if joint >= 3 {
          increasing := increasing[joint :=
            if lag[joint] > tracking.previous[joint] + LAG_INCREASE then increasing[joint] + 1 else 0];
          if lag[joint] >= 0.5 * options.trackingAbort && increasing[joint] >= 3 {
            return Some(WristLag);
          }
        }
      }
      assert increasing == counts;
      var crossings := if hardCrossing then tracking.crossings + 1 else 0;
      tracking := Tracking(lag, increasing, crossings);
      if crossings >= options.trackingCycles {
        return Some(TrackingLost);
      }
      return None;
    }

    method Dispatch(servo: nat, start: nat, end: nat, observed: Vector)
      returns (command: Option<Command>, halt: Option<Halt>)
      requires Valid()
      modifies this, resampler, diagnostics, hold
      ensures var turn := Spec.Dispatch(old(Snapshot()), options, servo, start, end, observed);
              command == turn.command
              && match turn.next
                 case Ok(w) => halt == None && Valid() && Snapshot() == w
                 case Err(h) => halt == Some(h)
    {
      hide Motion.Candidate, Motion.Final, Motion.ShapedPoint, Resampler.Evaluate, Propose, Holds.Hold, Holds.Recover, Track;
      var proposed := ProposePoint(servo, start);
      if proposed.Err? {
        return None, Some(proposed.error);
      }
      var p := proposed.value;
      ProposedLater(Snapshot(), options, servo, start);
      if p.stalled {
        var escalated, duration, started, degraded := hold.Hold(start, p.point.toSequence);
        if escalated {
          return None, Some(HoldEscalated);
        }
      }
      var lost := CheckTracking(p.point.position, observed);
      if lost.Some? {
        return None, lost;
      }
      command, halt := IssueCommand(p, start, end);
    }

    method IssueCommand(p: Proposal, start: nat, end: nat) returns (command: Option<Command>, halt: Option<Halt>)
      requires resampler.Valid() && diagnostics.options == options && hold.policy == PolicyOf(options)
      requires diagnostics.initialized && |tracking.increasing| == 6
      requires hold.active ==> hold.start <= start
      modifies this, resampler, diagnostics, hold
      ensures var turn := Issue(old(Snapshot()), p, start, end);
              command == turn.command
              && match turn.next
                 case Ok(w) => halt == None && Valid() && Snapshot() == w
                 case Err(h) => halt == Some(h)
    {
      hide Resampler.Commit, Resampler.CommitLimited;
      command := Some(Command(p.point.position, start, p.motion, p.stalled));
      diagnostics.Commit(p.point.position, p.motion, start);
      var committed;
      if p.limited {
        committed := resampler.CommitTransitionLimited(p.point);
      } else {
        committed := resampler.Commit(p.point, end);
      }
      if committed.Err? {
        return command, Some(Rejected(committed.error));
      }
      if !p.stalled {
        var duration := hold.Recover(start, p.point.toSequence);
      }
      return command, None;
    }
  }

  /** A proposal is for a time after the last command. */
  lemma ProposedLater(w: Worker, o: Motion.Options, servo: nat, start: nat)
    requires Ready(w) && Propose(w, o, servo, start).Ok?
    ensures w.diagnostics.previousCommand < start
  {
  }
}
