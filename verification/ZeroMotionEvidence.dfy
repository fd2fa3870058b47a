// A zero-motion session and the evidence validator that judges its metrics.

module ZeroMotionReport {
  import opened Reals
  import opened Joints

  /** The part of the metrics file the validator reads. */
  datatype Report = Report(
    qHoldInitialized: bool, commandCount: nat, mismatchCount: nat,
    qHold: Vector, fixedDestination: Vector, firstCommand: Vector, lastCommand: Vector,
    adjacent: Vector, adjacentMaximum: real,
    endpointError: Vector, activeSegment: bool,
    tracking: Vector, trackingMaximum: real,
    displacement: Vector, displacementMaximum: real)

  /** Closeness with the library's default relative tolerance. */
  predicate IsClose(x: real, y: real, absolute: real) {
    Abs(x - y) <= Max(0.000000001 * Max(Abs(x), Abs(y)), absolute)
  }

  const ABSOLUTE: real := 0.000000000000001

  predicate StrictEvidenceIsValid(r: Report) {
    && r.qHoldInitialized
    && r.commandCount > 0
    && r.mismatchCount == 0
    && r.fixedDestination == r.qHold
    && r.firstCommand == r.qHold
    && r.lastCommand == r.qHold
    && r.adjacent == ZERO
    && r.endpointError == ZERO
    && !r.activeSegment
    && IsClose(r.trackingMaximum, Largest(r.tracking), ABSOLUTE)
    && IsClose(r.displacementMaximum, Largest(r.displacement), ABSOLUTE)
    && IsClose(r.adjacentMaximum, Largest(r.adjacent), ABSOLUTE)
  }

  /** What accepted evidence says, whoever wrote it: commands were issued, all of
      them the hand-off vector, nothing moved, and each overall maximum is the
      greatest of its joints' up to a relative 1e-9 or an absolute 1e-15. */
  lemma EvidenceMeans(r: Report)
    requires StrictEvidenceIsValid(r)
    ensures r.commandCount >= 1 && r.mismatchCount == 0 && r.qHoldInitialized && !r.activeSegment
    ensures r.qHold == r.fixedDestination == r.firstCommand == r.lastCommand
    ensures r.adjacent == r.endpointError == [0.0, 0.0, 0.0, 0.0, 0.0, 0.0]
    ensures Abs(r.adjacentMaximum) <= 0.000000000000001
    ensures Near(r.trackingMaximum, Largest(r.tracking)) && Near(r.displacementMaximum, Largest(r.displacement))
  {
    assert Largest(r.adjacent) == 0.0;
    CloseToZero(r.adjacentMaximum);
  }

  /** Relatively or absolutely as close as the library's default comparison asks. */
  predicate Near(x: real, y: real) {
    || Abs(x - y) <= 0.000000000000001
    || Abs(x - y) <= 0.000000001 * Abs(x) || Abs(x - y) <= 0.000000001 * Abs(y)
  }

  lemma CloseToZero(x: real)
    requires IsClose(x, 0.0, ABSOLUTE)
    ensures Abs(x) <= 0.000000000000001
  {
  }

  lemma SameIsClose(x: real)
    ensures IsClose(x, x, ABSOLUTE)
  {
  }
}

module ZeroMotionSession {
  import opened Results
  import opened Reals
  import opened Joints
  import opened ServoPoints
  import opened MotionGate
  import opened WorkerSpec
  import opened WorkerRuns
  import opened WorkerSession
  import opened JointWorker
  import opened ZeroMotionReport
  import Faults = TrackingFaults

  /** One cycle of the environment. */
  datatype Moment = Moment(servo: nat, start: nat, end: nat, observed: Vector)

  /** The session's own running maxima and command counts. */
  class ZeroMotionMetrics {
    var tracking: Vector
    var trackingMaximum: real
    var displacement: Vector
    var displacementMaximum: real
    var commandCount: nat
    var mismatchCount: nat
    var first: Vector
    var last: Vector

    /** The scalar maxima are those of the per-joint maxima. */
    ghost predicate Valid()
      reads this
    {
      && trackingMaximum == Largest(tracking)
      && displacementMaximum == Largest(displacement)
    }

    constructor ()
      ensures Valid() && commandCount == mismatchCount == 0
      ensures tracking == displacement == ZERO
    {
      tracking, trackingMaximum := ZERO, 0.0;
      displacement, displacementMaximum := ZERO, 0.0;
      commandCount, mismatchCount := 0, 0;
      first, last := ZERO, ZERO;
    }

    method RaiseAll(maxima: Vector, overall: real, values: Vector) returns (raised: Vector, highest: real)
      requires overall == Largest(maxima)
      ensures forall j | 0 <= j < 6 :: raised[j] == Max(maxima[j], values[j])
      ensures highest == Largest(raised)
    {
      raised, highest := maxima, overall;
      for joint := 0 to 6
        invariant forall j | 0 <= j < joint :: raised[j] == Max(maxima[j], values[j])
        invariant forall j | joint <= j < 6 :: raised[j] == maxima[j]
        invariant highest == Largest(raised)
      {
        ghost var before := raised;
        var was := highest;
        if values[joint] > raised[joint] {
          raised := raised[joint := values[joint]];
        }
        highest := Max(highest, values[joint]);
        Raised(before, joint, values[joint]);
      }
    }

    lemma Raised(v: Vector, joint: nat, x: real)
      requires joint < 6
      ensures Largest(if x > v[joint] then v[joint := x] else v) == Max(Largest(v), x)
    {
    }

    method Observe(observed: Vector, qHold: Vector)
      requires Valid()
      modifies this
      ensures Valid()
      ensures forall j | 0 <= j < 6 :: displacement[j] == Max(old(displacement)[j], Abs(observed[j] - qHold[j]))
      ensures unchanged(`tracking, `trackingMaximum, `commandCount, `mismatchCount, `first, `last)
    {
      hide Largest;
      var away := seq(6, j requires 0 <= j < 6 => Abs(observed[j] - qHold[j]));
      displacement, displacementMaximum := RaiseAll(displacement, displacementMaximum, away);
    }

    method Commanded(target: Vector, observed: Vector, qHold: Vector)
      requires Valid()
      modifies this
      ensures Valid()
      ensures forall j | 0 <= j < 6 :: tracking[j] == Max(old(tracking)[j], Lag(target, observed)[j])
      ensures commandCount == old(commandCount) + 1
      ensures mismatchCount == old(mismatchCount) + if target != qHold then 1 else 0
      ensures first == if old(commandCount) == 0 then target else old(first)
      ensures last == target
      ensures unchanged(`displacement, `displacementMaximum)
    {
      hide Largest, Lag;
      tracking, trackingMaximum := RaiseAll(tracking, trackingMaximum, Lag(target, observed));
      if commandCount == 0 {
        first := target;
      }
      last := target;
      commandCount := commandCount + 1;
      var mismatch := Differs(target, qHold);
      mismatchCount := mismatchCount + if mismatch then 1 else 0;
    }

    static method Differs(target: Vector, qHold: Vector) returns (mismatch: bool)
      ensures mismatch <==> target != qHold
    {
      mismatch := false;
      for joint := 0 to 6
        invariant mismatch <==> exists j | 0 <= j < joint :: target[j] != qHold[j]
      {
        mismatch := mismatch || target[joint] != qHold[joint];
      }
      if !mismatch {
        VectorsEqual(target, qHold);
      }
    }
  }

  /** Where the file's values come from. */
  ghost predicate Wrote(m: ZeroMotionMetrics, worker: JointWorker, r: Report)
    reads m, worker, worker.resampler, worker.diagnostics
  {
    && r.qHoldInitialized && r.commandCount == m.commandCount && r.mismatchCount == m.mismatchCount
    && r.qHold == r.fixedDestination == worker.reference && r.firstCommand == m.first && r.lastCommand == m.last
    && r.adjacent == worker.diagnostics.extremes.delta && r.adjacentMaximum == Largest(r.adjacent)
    && (forall j | 0 <= j < 6 :: r.endpointError[j]
         == if worker.resampler.counters.emittedPoints > 0 then worker.resampler.emitted[j] - worker.destination[j] else 0.0)
    && r.activeSegment == worker.resampler.active
    && r.tracking == m.tracking && r.trackingMaximum == m.trackingMaximum
    && r.displacement == m.displacement && r.displacementMaximum == m.displacementMaximum
  }

  /** What the metrics writer puts into the file. */
  method WriteMetrics(m: ZeroMotionMetrics, worker: JointWorker) returns (r: Report)
    ensures Wrote(m, worker, r) && r.commandCount == m.commandCount
  {
    var endpointError := ZERO;
    if worker.resampler.counters.emittedPoints > 0 {
      for joint := 0 to 6
        invariant |endpointError| == 6
        invariant forall j | 0 <= j < joint :: endpointError[j] == worker.resampler.emitted[j] - worker.destination[j]
      {
        endpointError := endpointError[joint := worker.resampler.emitted[joint] - worker.destination[joint]];
      }
    }
    var adjacent := worker.diagnostics.extremes.delta;
    r := Report(true, m.commandCount, m.mismatchCount, worker.reference, worker.reference, m.first, m.last,
                adjacent, Largest(adjacent), endpointError, worker.resampler.active,
                m.tracking, m.trackingMaximum, m.displacement, m.displacementMaximum);
  }

  /** The worker between two zero-motion cycles. */
  ghost predicate Resting(w: Worker, qHold: Vector) {
    Sound(w) && Waits(w, qHold) && !w.aligned && Unmoved(w.diagnostics, qHold)
  }

  /** The largest measured displacement of joint j over the first n cycles. */
  function PeakDisplacement(moments: seq<Moment>, qHold: Vector, n: nat, j: nat): real
    requires n <= |moments| && j < 6
  {
    if n == 0 then 0.0 else Max(PeakDisplacement(moments, qHold, n - 1, j), Abs(moments[n - 1].observed[j] - qHold[j]))
  }

  /** The largest lag of joint j behind the commanded hand-off vector. */
  function PeakLag(moments: seq<Moment>, qHold: Vector, n: nat, j: nat): real
    requires n <= |moments| && j < 6
  {
    if n == 0 then 0.0 else Max(PeakLag(moments, qHold, n - 1, j), Lag(qHold, moments[n - 1].observed)[j])
  }

  /** Per-joint maxima that are the peaks of the first n cycles. */
  ghost predicate Peaks(tracking: Vector, displacement: Vector, moments: seq<Moment>, qHold: Vector, n: nat)
    requires n <= |moments|
  {
    forall j | 0 <= j < 6 ::
      displacement[j] == PeakDisplacement(moments, qHold, n, j) && tracking[j] == PeakLag(moments, qHold, n, j)
  }

  /** Per-joint maxima raised by one more cycle. */
  ghost predicate RaisedBy(tracking: Vector, displacement: Vector, tracking': Vector, displacement': Vector,
                           observed: Vector, qHold: Vector) {
    forall j | 0 <= j < 6 ::
      && displacement'[j] == Max(displacement[j], Abs(observed[j] - qHold[j]))
      && tracking'[j] == Max(tracking[j], Lag(qHold, observed)[j])
  }

  lemma PeaksNext(tracking: Vector, displacement: Vector, tracking': Vector, displacement': Vector,
                  moments: seq<Moment>, qHold: Vector, n: nat)
    requires n < |moments| && Peaks(tracking, displacement, moments, qHold, n)
    requires RaisedBy(tracking, displacement, tracking', displacement', moments[n].observed, qHold)
    ensures Peaks(tracking', displacement', moments, qHold, n + 1)
  {
  }

  /** The only ways a resting session can end early. */
  predicate ClockOrLag(h: Halt) {
    h in {Rejected(ServoTimeBackwards), Rejected(CommandTimeBackwards), Rejected(InvalidTimestamp), WristLag, TrackingLost}
  }

  /** A cycle at rest commands the hand-off vector, or stops for the clock or
      the measured lag; no motion limit can ever be in the way. */
  lemma RestingCycle(w: Worker, o: Motion.Options, servo: nat, start: nat, end: nat, observed: Vector, qHold: Vector)
    requires Motion.ValidOptions(o) && Resting(w, qHold)
    ensures var turn := Dispatch(w, o, servo, start, end, observed);
            match turn.next
            case Ok(next) => turn.command.Some? && turn.command.value.position == qHold && Resting(next, qHold)
            case Err(h) => ClockOrLag(h)
  {
    var turn := Dispatch(w, o, servo, start, end, observed);
    DispatchWaits(w, o, servo, start, end, observed, qHold);
    if turn.next.Ok? {
      DispatchIsSound(w, o, servo, start, end, observed);
    } else {
      RestingFaults(w, o, servo, start, end, observed, qHold);
    }
    hide Dispatch, Sound, Waits, Unmoved;
  }

  lemma RestingFaults(w: Worker, o: Motion.Options, servo: nat, start: nat, end: nat, observed: Vector, qHold: Vector)
    requires Motion.ValidOptions(o) && Resting(w, qHold)
    requires Dispatch(w, o, servo, start, end, observed).next.Err?
    ensures ClockOrLag(Dispatch(w, o, servo, start, end, observed).next.error)
  {
    RestingProposes(w, o, servo, start, qHold);
    if Propose(w, o, servo, start).Ok? {
      ProposalWaits(w, o, servo, start, qHold);
      assert Propose(w, o, servo, start).value.point.servoTime >= w.resampler.lastServoTime;
    }
    hide Propose, Holds.Hold, Holds.Recover;
  }

  /** At rest only the clock decides whether there is a proposal. */
  lemma RestingProposes(w: Worker, o: Motion.Options, servo: nat, start: nat, qHold: Vector)
    requires Motion.ValidOptions(o) && Resting(w, qHold)
    ensures Propose(w, o, servo, start).Ok? <==> servo >= w.resampler.lastServoTime && start > w.diagnostics.previousCommand
    ensures match Propose(w, o, servo, start)
            case Ok(p) => p.point.servoTime == servo
            case Err(h) => ClockOrLag(h)
  {
    if servo >= w.resampler.lastServoTime && start > w.diagnostics.previousCommand {
      StillDifferences(qHold, Seconds(w.diagnostics.previousCommand, start));
      assert Motion.Measure(w.diagnostics, qHold, start) == Ok(STILL);
      assert Motion.Candidate(w.diagnostics, o, qHold, start) == Ok(STILL);
      assert !Motion.MustShape(o, STILL);
    }
  }

  // ---- when a session completes ----------------------------------------------

  /** Servo times never go back and cycle starts strictly increase. */
  predicate Clocked(servo: nat, start: nat, moments: seq<Moment>)
    decreases |moments|
  {
    moments == [] || (servo <= moments[0].servo && start < moments[0].start
                      && Clocked(moments[0].servo, moments[0].start, moments[1..]))
  }

  /** The lag checks behind the hand-off vector pass in every cycle. */
  predicate Tracked(t: Tracking, o: Motion.Options, moments: seq<Moment>, qHold: Vector)
    requires |t.increasing| == 6
    decreases |moments|
  {
    moments == []
    || (match Track(t, o, Lag(qHold, moments[0].observed))
        case Ok(next) => Tracked(next, o, moments[1..], qHold)
        case Err(h) => false)
  }

  /** The lags behind the commanded hand-off vector. */
  function LagsOf(moments: seq<Moment>, qHold: Vector): (lags: seq<Vector>)
    ensures |lags| == |moments|
  {
    seq(|moments|, i requires 0 <= i < |moments| => Lag(qHold, moments[i].observed))
  }

  lemma {:induction false} TrackedFrom(t: Tracking, o: Motion.Options, moments: seq<Moment>, qHold: Vector, n: nat)
    requires |t.increasing| == 6 && n <= |moments|
    ensures Tracked(t, o, moments[n..], qHold) <==> Faults.FirstFault(t, o, LagsOf(moments, qHold), n).None?
    decreases |moments| - n
  {
    hide Lag, WristLags, Lost;
    if n < |moments| {
      assert moments[n..][0] == moments[n] && moments[n..][1..] == moments[n + 1..];
      var lag := Lag(qHold, moments[n].observed);
      if Track(t, o, lag).Ok? {
        TrackedFrom(Track(t, o, lag).value, o, moments, qHold, n + 1);
      }
    }
  }

  /** The checks pass exactly when no cycle's lags are at fault. */
  lemma TrackedMeans(o: Motion.Options, moments: seq<Moment>, qHold: Vector)
    requires Motion.ValidOptions(o)
    ensures Tracked(UNTRACKED, o, moments, qHold) <==> Faults.NoFaults(o, LagsOf(moments, qHold), |moments|)
  {
    hide Tracked, Faults.FaultAt, LagsOf, Motion.ValidOptions;
    TrackedFrom(UNTRACKED, o, moments, qHold, 0);
    assert moments[0..] == moments;
    Faults.FaultsFromHandOff(o, LagsOf(moments, qHold));
  }

  /** The measured joints stay close to the hand-off vector. */
  ghost predicate Near(o: Motion.Options, moments: seq<Moment>, qHold: Vector) {
    forall i, j | 0 <= i < |moments| && 0 <= j < 6 :: Lag(qHold, moments[i].observed)[j] < 0.5 * o.trackingAbort
  }

  /** Lags below half the abort bound never fail a lag check. */
  lemma {:induction false} NearIsTracked(t: Tracking, o: Motion.Options, moments: seq<Moment>, qHold: Vector)
    requires Motion.ValidOptions(o) && |t.increasing| == 6 && Near(o, moments, qHold)
    ensures Tracked(t, o, moments, qHold)
    decreases |moments|
  {
    if moments != [] {
      var lag := Lag(qHold, moments[0].observed);
      assert forall j | 0 <= j < 6 :: lag[j] < 0.5 * o.trackingAbort;
      NearTracks(t, o, lag);
      hide Track, Lag;
      NearIsTracked(Track(t, o, lag).value, o, moments[1..], qHold);
    }
  }

  lemma NearTracks(t: Tracking, o: Motion.Options, lag: Vector)
    requires Motion.ValidOptions(o) && |t.increasing| == 6
    requires forall j | 0 <= j < 6 :: lag[j] < 0.5 * o.trackingAbort
    ensures Track(t, o, lag).Ok?
  {
  }

  /** Exactly when a cycle at rest goes through, and what it then leaves behind. */
  lemma RestingPasses(w: Worker, o: Motion.Options, servo: nat, start: nat, end: nat, observed: Vector, qHold: Vector)
    requires Motion.ValidOptions(o) && Resting(w, qHold)
    ensures var next := Dispatch(w, o, servo, start, end, observed).next;
            var tracked := Track(w.tracking, o, Lag(qHold, observed));
            && (next.Ok? <==> servo >= w.resampler.lastServoTime && start > w.diagnostics.previousCommand && tracked.Ok?)
            && (next.Ok? ==> next.value.resampler.lastServoTime == servo && next.value.diagnostics.previousCommand == start
                             && next.value.tracking == tracked.value)
  {
    RestingProposes(w, o, servo, start, qHold);
    if Propose(w, o, servo, start).Ok? {
      ProposalWaits(w, o, servo, start, qHold);
    }
    hide Propose, Holds.Recover, Track, Lag;
  }

  /** The session's cycles, as inputs of the worker. */
  function CyclesOf(moments: seq<Moment>): seq<Input>
    decreases |moments|
  {
    if moments == [] then []
    else
      var m := moments[0];
      [Cycle(m.servo, m.start, m.end, m.observed)] + CyclesOf(moments[1..])
  }

  /** How the rest of a session ends. */
  ghost function EndOf(next: Result<Worker, Halt>, o: Motion.Options, moments: seq<Moment>): Option<Halt> {
    match next
    case Err(h) => Some(h)
    case Ok(w) => Session(w, o, CyclesOf(moments)).1
  }

  /** How a session of cycles ends, one cycle at a time. */
  lemma SessionEnd(w: Worker, o: Motion.Options, moments: seq<Moment>)
    requires Ready(w)
    ensures moments == [] ==> Session(w, o, CyclesOf(moments)).1 == None
    ensures moments != [] ==>
              var m := moments[0];
              Session(w, o, CyclesOf(moments)).1
              == EndOf(Dispatch(w, o, m.servo, m.start, m.end, m.observed).next, o, moments[1..])
  {
    hide Dispatch, Ready;
    if moments != [] {
      assert CyclesOf(moments)[1..] == CyclesOf(moments[1..]);
    }
  }

  /** A session runs to its end exactly when its clocks and its lags allow it. */
  lemma {:induction false} Completion(w: Worker, o: Motion.Options, moments: seq<Moment>, qHold: Vector)
    requires Motion.ValidOptions(o) && Resting(w, qHold)
    ensures Session(w, o, CyclesOf(moments)).1.None?
       <==> Clocked(w.resampler.lastServoTime, w.diagnostics.previousCommand, moments) && Tracked(w.tracking, o, moments, qHold)
    decreases |moments|
  {
    RestsReady(w, qHold);
    hide Dispatch, Resting, Ready, Track, Lag, Session, Motion.ValidOptions;
    SessionEnd(w, o, moments);
    if moments != [] {
      var m := moments[0];
      RestingPasses(w, o, m.servo, m.start, m.end, m.observed, qHold);
      RestingCycle(w, o, m.servo, m.start, m.end, m.observed, qHold);
      var next := Dispatch(w, o, m.servo, m.start, m.end, m.observed).next;
      if next.Ok? {
        Completion(next.value, o, moments[1..], qHold);
      }
    }
  }

  lemma RestsReady(w: Worker, qHold: Vector)
    requires Resting(w, qHold)
    ensures Ready(w) && |w.tracking.increasing| == 6
  {
  }

  /** Everything the validator looks at, seen from the worker and the metrics. */
  lemma EvidenceFollows(r: Report, w: Worker, qHold: Vector)
    requires Resting(w, qHold)
    requires r.qHoldInitialized && r.mismatchCount == 0 && r.qHold == r.fixedDestination == qHold
    requires r.commandCount > 0 ==> r.firstCommand == r.lastCommand == qHold
    requires r.adjacent == w.diagnostics.extremes.delta && r.adjacentMaximum == Largest(r.adjacent)
    requires forall j | 0 <= j < 6 :: r.endpointError[j]
               == if w.resampler.counters.emittedPoints > 0 then w.resampler.emitted[j] - w.destination[j] else 0.0
    requires r.activeSegment == w.resampler.active
    requires r.trackingMaximum == Largest(r.tracking) && r.displacementMaximum == Largest(r.displacement)
    ensures StrictEvidenceIsValid(r) <==> r.commandCount > 0
  {
    VectorsEqual(r.endpointError, ZERO);
    SameIsClose(r.trackingMaximum);
    SameIsClose(r.displacementMaximum);
    SameIsClose(r.adjacentMaximum);
  }

  /** The session after n cycles. */
  ghost predicate Holding(worker: JointWorker, metrics: ZeroMotionMetrics, moments: seq<Moment>, qHold: Vector, n: nat)
    reads worker, worker.resampler, worker.diagnostics, worker.hold, metrics
  {
    && n <= |moments| && worker.Valid() && Motion.ValidOptions(worker.options) && metrics.Valid()
    && Resting(worker.Snapshot(), qHold)
    && metrics.commandCount == n && metrics.mismatchCount == 0
    && (n > 0 ==> metrics.first == metrics.last == qHold)
    && Peaks(metrics.tracking, metrics.displacement, moments, qHold, n)
  }

  /** One cycle of the session: observe, dispatch, account. */
  method RunCycle(worker: JointWorker, metrics: ZeroMotionMetrics, moments: seq<Moment>, qHold: Vector, n: nat)
    returns (halt: Option<Halt>)
    requires n < |moments| && Holding(worker, metrics, moments, qHold, n)
    modifies worker, worker.resampler, worker.diagnostics, worker.hold, metrics
    ensures halt.Some? ==> ClockOrLag(halt.value)
    ensures halt.None? ==> Holding(worker, metrics, moments, qHold, n + 1)
    ensures Ready(old(worker.Snapshot()))
    ensures var t := moments[n];
            match WorkerSpec.Dispatch(old(worker.Snapshot()), worker.options, t.servo, t.start, t.end, t.observed).next
            case Ok(next) => halt == None && worker.Snapshot() == next
            case Err(h) => halt == Some(h)
  {
    hide Dispatch, Sound, Waits, Unmoved, ClockOrLag, Motion.ValidOptions, Largest, Lag, Peaks;
    var t := moments[n];
    ghost var tracking, displacement := metrics.tracking, metrics.displacement;
    metrics.Observe(t.observed, qHold);
    RestingCycle(worker.Snapshot(), worker.options, t.servo, t.start, t.end, t.observed, qHold);
    hide Resting;
    var command;
    command, halt := worker.Dispatch(t.servo, t.start, t.end, t.observed);
    if halt.None? {
      metrics.Commanded(command.value.position, t.observed, qHold);
      PeaksNext(tracking, displacement, metrics.tracking, metrics.displacement, moments, qHold, n);
    }
  }

  /** The report names the session's own hand-off vector throughout. */
  predicate Names(r: Report, qHold: Vector) {
    r.qHold == r.fixedDestination == qHold && (r.commandCount > 0 ==> r.firstCommand == r.lastCommand == qHold)
  }

  lemma HoldingIsReady(worker: JointWorker, metrics: ZeroMotionMetrics, moments: seq<Moment>, qHold: Vector, n: nat)
    requires Holding(worker, metrics, moments, qHold, n)
    ensures Ready(worker.Snapshot())
  {
  }

  method Finish(worker: JointWorker, metrics: ZeroMotionMetrics, moments: seq<Moment>, qHold: Vector) returns (r: Report)
    requires Holding(worker, metrics, moments, qHold, |moments|)
    ensures r.commandCount == |moments|
    ensures Peaks(r.tracking, r.displacement, moments, qHold, |moments|)
    ensures StrictEvidenceIsValid(r) <==> moments != []
    ensures Names(r, qHold)
  {
    hide Resting, StrictEvidenceIsValid, Largest, Peaks, Motion.ValidOptions;
    r := WriteMetrics(metrics, worker);
    Finished(worker, metrics, r, qHold);
  }

  /** A session without a fault proves its own evidence exactly when it issued
      at least one command, whatever was measured on the way; and the only
      faults after the hand-off are those of the clock and of the measured lag. */
  method RunZeroMotion(o: Motion.Options, period: nat, qHold: Vector, handoff: nat, moments: seq<Moment>)
    returns (report: Option<Report>, halt: Option<Halt>)
    requires Resampler.ValidPeriod(period) && Motion.ValidOptions(o)
    ensures halt.None? <==> report.Some?
    ensures report.Some? ==> report.value.commandCount == |moments|
    ensures report.Some? ==> Peaks(report.value.tracking, report.value.displacement, moments, qHold, |moments|)
    ensures report.Some? ==> (StrictEvidenceIsValid(report.value) <==> moments != [])
    ensures report.Some? ==> Names(report.value, qHold)
    ensures halt.Some? && InLimits(qHold) && handoff != 0 ==> ClockOrLag(halt.value)
    ensures halt == SessionFrom(o, period, qHold, handoff, CyclesOf(moments)).1
    ensures halt.None? <==> InLimits(qHold) && handoff != 0 && Clocked(handoff, handoff, moments)
                            && Faults.NoFaults(o, LagsOf(moments, qHold), |moments|)
    ensures InLimits(qHold) && handoff != 0 && Clocked(handoff, handoff, moments) && Near(o, moments, qHold) ==> halt.None?
  {
    hide ClockOrLag, Sound, Waits, Unmoved, StrictEvidenceIsValid, Peaks, Motion.ValidOptions, Session, CyclesOf,
         Begin, Clocked, Tracked, Near, Faults.NoFaults, LagsOf;
    HandOffRests(o, period, qHold, handoff);
    var begun := JointWorker.HandOff(o, period, qHold, handoff);
    if begun.Err? {
      return None, Some(Rejected(begun.error));
    }
    Completion(begun.value.Snapshot(), o, moments, qHold);
    TrackedMeans(o, moments, qHold);
    if Near(o, moments, qHold) {
      NearIsTracked(UNTRACKED, o, moments, qHold);
    }
    hide Resting;
    report, halt := HoldStill(begun.value, qHold, moments);
  }

  lemma HandOffRests(o: Motion.Options, period: nat, qHold: Vector, handoff: nat)
    requires Resampler.ValidPeriod(period)
    ensures Begin(o, period, qHold, handoff).Ok? <==> InLimits(qHold) && handoff != 0
    ensures Begin(o, period, qHold, handoff).Ok? ==>
              var w := Begin(o, period, qHold, handoff).value;
              && Resting(w, qHold) && w.tracking == UNTRACKED
              && w.resampler.lastServoTime == w.diagnostics.previousCommand == handoff
  {
    BeginIsSound(o, period, qHold, handoff);
  }

  method Prepare(worker: JointWorker, moments: seq<Moment>, qHold: Vector) returns (metrics: ZeroMotionMetrics)
    requires worker.Valid() && Motion.ValidOptions(worker.options) && Resting(worker.Snapshot(), qHold)
    ensures fresh(metrics) && Holding(worker, metrics, moments, qHold, 0)
  {
    metrics := new ZeroMotionMetrics();
    assert Peaks(ZERO, ZERO, moments, qHold, 0);
    hide Resting, Motion.ValidOptions, Peaks;
  }

  /** The cycles after the hand-off, and the report at the end. */
  method HoldStill(worker: JointWorker, qHold: Vector, moments: seq<Moment>) returns (report: Option<Report>,
                   halt: Option<Halt>)
    requires worker.Valid() && Motion.ValidOptions(worker.options) && Resting(worker.Snapshot(), qHold)
    modifies worker, worker.resampler, worker.diagnostics, worker.hold
    ensures halt.None? <==> report.Some?
    ensures report.Some? ==> report.value.commandCount == |moments|
    ensures report.Some? ==> Peaks(report.value.tracking, report.value.displacement, moments, qHold, |moments|)
    ensures report.Some? ==> (StrictEvidenceIsValid(report.value) <==> moments != [])
    ensures report.Some? ==> Names(report.value, qHold)
    ensures halt.Some? ==> ClockOrLag(halt.value)
    ensures halt == Session(old(worker.Snapshot()), worker.options, CyclesOf(moments)).1
  {
    hide Resting, ClockOrLag, StrictEvidenceIsValid, Peaks, Holding, Dispatch, Session, CyclesOf;
    var metrics := Prepare(worker, moments, qHold);
    assert moments[0..] == moments;
    for i := 0 to |moments|
      invariant fresh(metrics) && Holding(worker, metrics, moments, qHold, i)
      invariant Session(worker.Snapshot(), worker.options, CyclesOf(moments[i..])).1
             == Session(old(worker.Snapshot()), worker.options, CyclesOf(moments)).1
    {
      HoldingIsReady(worker, metrics, moments, qHold, i);
      SessionEnd(worker.Snapshot(), worker.options, moments[i..]);
      assert moments[i..][0] == moments[i] && moments[i..][1..] == moments[i + 1..];
      halt := RunCycle(worker, metrics, moments, qHold, i);
      if halt.Some? {
        return None, halt;
      }
    }
    HoldingIsReady(worker, metrics, moments, qHold, |moments|);
    SessionEnd(worker.Snapshot(), worker.options, moments[|moments|..]);
    var r := Finish(worker, metrics, moments, qHold);
    return Some(r), None;
  }

  lemma Finished(worker: JointWorker, metrics: ZeroMotionMetrics, r: Report, qHold: Vector)
    requires Resting(worker.Snapshot(), qHold) && metrics.Valid() && metrics.mismatchCount == 0
    requires metrics.commandCount > 0 ==> metrics.first == metrics.last == qHold
    requires Wrote(metrics, worker, r)
    ensures StrictEvidenceIsValid(r) <==> r.commandCount > 0
    ensures Names(r, qHold)
    ensures r.tracking == metrics.tracking && r.displacement == metrics.displacement
  {
    EvidenceFollows(r, worker.Snapshot(), qHold);
  }
}
