// The worker's own motion gate: candidate check, shaping and final check
// against the last dispatched command, and the classification of stalls.

module OutputMotionSpec {
  import opened Results
  import opened Reals
  import opened Joints
  import opened ServoPoints
  import opened TransitionLimiter
  import opened MotionGate

  /** The settings of the joint modes that reach the output path. */
  datatype Options = Options(
    velocity: Vector, recoverable: real, hard: real, jerk: real,
    recover: bool, abort: bool,
    degraded: nat, hardStop: nat, maximumHoldCycles: nat,
    trackingAbort: real, trackingCycles: nat, alignment: real)

  /** What command-line parsing guarantees in the joint modes. */
  predicate ValidOptions(o: Options) {
    && (forall j | 0 <= j < 6 :: 0.0 < o.velocity[j] <= PI + SLACK)
    && o.recoverable > 0.0 && o.hard > 0.0 && o.jerk > 0.0
    && o.hard + SLACK >= o.recoverable
    && !(o.recover && o.abort)
    && 0 < o.degraded < o.hardStop
    && 2 <= o.maximumHoldCycles <= 10_000
    && 0.25 <= o.trackingAbort <= 1.0
    && 1 <= o.trackingCycles <= 10
    && 0.0 < o.alignment <= 0.01
  }

  /** Running maxima over all committed points. */
  datatype Extremes = Extremes(delta: Vector, velocity: Vector, acceleration: Vector, jerk: Vector)

  const NOTHING: Extremes := Extremes(ZERO, ZERO, ZERO, ZERO)

  datatype Diagnostics = Diagnostics(previous: History, previousCommand: nat, initialized: bool, extremes: Extremes)

  const FRESH: Diagnostics := Diagnostics(History(ZERO, ZERO, ZERO), 0, false, NOTHING)

  function Initialize(d: Diagnostics, position: Vector, command: nat): Result<Diagnostics, Error> {
    if !InLimits(position) then Err(JointLimitViolation)
    else if command == 0 then Err(InvalidTimestamp)
    else Ok(Diagnostics(History(position, ZERO, ZERO), command, true, d.extremes))
  }

  function Measure(d: Diagnostics, position: Vector, t: nat): Result<Sample, Error> {
    if !InLimits(position) then Err(JointLimitViolation)
    else if t == 0 then Err(InvalidTimestamp)
    else if !d.initialized then Ok(STILL)
    else if t <= d.previousCommand then Err(CommandTimeBackwards)
    else Ok(Differences(position, d.previous, Seconds(d.previousCommand, t)))
  }

  /** The check of the unshaped point. In recovery mode a crossing that can be
      shaped away is reported through the sample, not as an error. */
  function Candidate(d: Diagnostics, o: Options, position: Vector, t: nat): Result<Sample, Error> {
    match Measure(d, position, t)
    case Err(e) => Err(e)
    case Ok(sample) =>
      var recoverable := ExceedsScalar(sample.acceleration, o.recoverable);
      if Exceeds(sample.velocity, o.velocity) then (if o.recover then Ok(sample) else Err(VelocityBoundary))
      else if recoverable && o.recover then Ok(sample)
      else if recoverable && o.abort then Err(RecoverableBoundary)
      else if (o.recover || o.abort) && ExceedsScalar(sample.acceleration, o.hard) then Err(AccelerationBoundary)
      else Ok(sample)
  }

  predicate JerkExceeds(sample: Sample, jerk: real) {
    exists j | 0 <= j < 6 :: !JerkWithinBoundary(sample.jerk[j], jerk)
  }

  /** The final check: all velocities first, then all accelerations, then all jerks. */
  function Verdict(sample: Sample, o: Options): Option<Error> {
    if Exceeds(sample.velocity, o.velocity) then Some(VelocityBoundary)
    else if ExceedsScalar(sample.acceleration, o.hard) then Some(AccelerationBoundary)
    else if JerkExceeds(sample, o.jerk) then Some(JerkBoundary)
    else None
  }

  function Final(d: Diagnostics, o: Options, position: Vector, t: nat): Result<Sample, Error> {
    match Measure(d, position, t)
    case Err(e) => Err(e)
    case Ok(sample) =>
      match Verdict(sample, o)
      case Some(e) => Err(e)
      case None => Ok(sample)
  }

  predicate MustShape(o: Options, sample: Sample) {
    o.recover && TransitionRequired(sample, o.velocity, o.recoverable, o.jerk)
  }

  function ShapedPoint(d: Diagnostics, o: Options, proposed: Point, t: nat): Result<Point, Error> {
    if !d.initialized then Err(NotInitialized)
    else if t <= d.previousCommand then Err(InvalidTimestamp)
    else LimitedPoint(proposed, d.previous.position, d.previous.velocity, d.previous.acceleration,
                      Seconds(d.previousCommand, t), Min(o.recoverable, o.hard), o.jerk)
  }

  function Raised(maximum: Vector, values: Vector): Vector {
    seq(6, j requires 0 <= j < 6 => Max(maximum[j], Abs(values[j])))
  }

  function Difference(x: Vector, y: Vector): Vector {
    seq(6, j requires 0 <= j < 6 => x[j] - y[j])
  }

  function Commit(d: Diagnostics, position: Vector, sample: Sample, t: nat): Diagnostics {
    var extremes :=
      if d.initialized then
        Extremes(Raised(d.extremes.delta, Difference(position, d.previous.position)),
                 Raised(d.extremes.velocity, sample.velocity),
                 Raised(d.extremes.acceleration, sample.acceleration),
                 Raised(d.extremes.jerk, sample.jerk))
      else d.extremes;
    Diagnostics(Advance(position, sample), t, true, extremes)
  }

  const DESTINATION_GAP: real := 0.000001
  const MINIMUM_PROGRESS: real := 0.000000001

  /** A stall: the destination is away from the prior point, the selected point is not. */
  predicate Stalled(prior: Vector, selected: Vector, destination: Vector) {
    && (exists j | 0 <= j < 6 :: Abs(destination[j] - prior[j]) > DESTINATION_GAP)
    && (forall j | 0 <= j < 6 :: Abs(selected[j] - prior[j]) <= MINIMUM_PROGRESS)
  }

  // ---- what the checks mean ------------------------------------------------

  /** The worker's final check and the library's gate accept the same samples,
      although they look for violations in different orders. */
  lemma GatesAgree(sample: Sample, o: Options)
    ensures Verdict(sample, o).None? <==> FinalGate(sample, o.velocity, o.hard, o.jerk).None?
    ensures Verdict(sample, o).None? <==> WithinFinalBoundaries(sample, o.velocity, o.hard, o.jerk)
  {
    FinalGateMeaning(sample, o.velocity, o.hard, o.jerk);
  }

  /** Some joint outside a per-joint or a common boundary, comparison slack included. */
  predicate Outside(values: Vector, limits: Vector) {
    exists j | 0 <= j < 6 :: Abs(values[j]) > limits[j] + 0.000000000001
  }

  predicate OutsideScalar(values: Vector, limit: real) {
    exists j | 0 <= j < 6 :: Abs(values[j]) > limit + 0.000000000001
  }

  /** Which measurable candidates are refused, in each of the three modes. */
  lemma CandidateMeans(d: Diagnostics, o: Options, position: Vector, t: nat)
    requires ValidOptions(o) && Measure(d, position, t).Ok?
    ensures var x := Measure(d, position, t).value;
            var r := Candidate(d, o, position, t);
            && (r.Ok? ==> r.value == x)
            && (o.recover ==> (r.Err? <==> !Outside(x.velocity, o.velocity) && !OutsideScalar(x.acceleration, o.recoverable)
                                           && OutsideScalar(x.acceleration, o.hard)))
            && (o.abort ==> (r.Err? <==> Outside(x.velocity, o.velocity) || OutsideScalar(x.acceleration, o.recoverable)
                                         || OutsideScalar(x.acceleration, o.hard)))
            && (!o.recover && !o.abort ==> (r.Err? <==> Outside(x.velocity, o.velocity)))
            && (r == Err(VelocityBoundary) <==> !o.recover && Outside(x.velocity, o.velocity))
  {
    var x := Measure(d, position, t).value;
    assert Exceeds(x.velocity, o.velocity) <==> Outside(x.velocity, o.velocity);
    hide Measure;
  }

  /** In recovery mode a candidate that needs no shaping already passes the
      final check, so skipping that check for it is sound. */
  lemma UnshapedIsFinal(d: Diagnostics, o: Options, position: Vector, t: nat)
    requires ValidOptions(o) && o.recover
    requires Candidate(d, o, position, t).Ok? && !MustShape(o, Candidate(d, o, position, t).value)
    ensures Final(d, o, position, t) == Candidate(d, o, position, t)
  {
    var sample := Candidate(d, o, position, t).value;
    assert Measure(d, position, t) == Ok(sample);
    forall j | 0 <= j < 6
      ensures JerkWithinBoundary(sample.jerk[j], o.jerk)
    {
      assert Abs(sample.jerk[j]) <= o.jerk + SLACK;
    }
  }
}

module OutputMotion {
  import opened Results
  import opened Reals
  import opened Joints
  import opened ServoPoints
  import opened TransitionLimiter
  import opened MotionGate
  import opened Spec = OutputMotionSpec

  /** The largest gap and the largest step decide. */
  method ClassifyTransition(prior: Vector, selected: Vector, destination: Vector) returns (stalled: bool)
    ensures stalled <==> Stalled(prior, selected, destination)
  {
    var gap, progress := 0.0, 0.0;
    for joint := 0 to 6
      invariant gap > DESTINATION_GAP <==> exists j | 0 <= j < joint :: Abs(destination[j] - prior[j]) > DESTINATION_GAP
      invariant progress <= MINIMUM_PROGRESS <==> forall j | 0 <= j < joint :: Abs(selected[j] - prior[j]) <= MINIMUM_PROGRESS
    {
      gap := Max(gap, Abs(destination[joint] - prior[joint]));
      progress := Max(progress, Abs(selected[joint] - prior[joint]));
    }
    stalled := gap > DESTINATION_GAP && progress <= MINIMUM_PROGRESS;
  }

  class OutputMotionDiagnostics {
    const options: Options
    var previous: History
    var previousCommand: nat
    var initialized: bool
    var extremes: Extremes

    ghost function Snapshot(): Diagnostics
      reads this
    {
      Diagnostics(previous, previousCommand, initialized, extremes)
    }

    constructor (options: Options)
      ensures this.options == options && Snapshot() == FRESH
    {
      this.options := options;
      previous := History(ZERO, ZERO, ZERO);
      previousCommand, initialized := 0, false;
      extremes := NOTHING;
    }

    method Initialize(position: Vector, command: nat) returns (r: Result<(), Error>)
      modifies this
      ensures match Spec.Initialize(old(Snapshot()), position, command)
              case Ok(d) => r == Ok(()) && Snapshot() == d
              case Err(e) => r == Err(e) && Snapshot() == old(Snapshot())
    {
      if !InLimits(position) {
        return Err(JointLimitViolation);
      }
      if command == 0 {
        return Err(InvalidTimestamp);
      }
      previous := History(position, ZERO, ZERO);
      previousCommand, initialized := command, true;
      return Ok(());
    }

    method Measured(position: Vector, t: nat) returns (r: Result<Sample, Error>)
      ensures r == Measure(Snapshot(), position, t)
    {
      if !InLimits(position) {
        return Err(JointLimitViolation);
      }
      if t == 0 {
        return Err(InvalidTimestamp);
      }
      if !initialized {
        return Ok(STILL);
      }
      if t <= previousCommand {
        return Err(CommandTimeBackwards);
      }
      SecondsPositive(previousCommand, t);
      var sample := ComputeDifferences(position, previous, Seconds(previousCommand, t));
      return Ok(sample);
    }

    method CheckCandidate(position: Vector, t: nat) returns (r: Result<Sample, Error>)
      ensures r == Candidate(Snapshot(), options, position, t)
    {
      var measured := Measured(position, t);
      if measured.Err? {
        return measured;
      }
      var sample := measured.value;
      var velocityCrossing := Crosses(sample.velocity, options.velocity);
      if velocityCrossing && !options.recover {
        return Err(VelocityBoundary);
      }
      if velocityCrossing {
        return Ok(sample);
      }
      var recoverableCrossing := CrossesScalar(sample.acceleration, options.recoverable);
      if recoverableCrossing && options.recover {
        return Ok(sample);
      }
      if recoverableCrossing && options.abort {
        return Err(RecoverableBoundary);
      }
      if options.recover || options.abort {
        var hardCrossing := CrossesScalar(sample.acceleration, options.hard);
        if hardCrossing {
          return Err(AccelerationBoundary);
        }
      }
      return Ok(sample);
    }

    method CheckFinal(position: Vector, t: nat) returns (r: Result<Sample, Error>)
      ensures r == Final(Snapshot(), options, position, t)
    {
      var measured := Measured(position, t);
      if measured.Err? {
        return measured;
      }
      var sample := measured.value;
      var velocityCrossing := Crosses(sample.velocity, options.velocity);
      if velocityCrossing {
        return Err(VelocityBoundary);
      }
      var hardCrossing := CrossesScalar(sample.acceleration, options.hard);
      if hardCrossing {
        return Err(AccelerationBoundary);
      }
      for joint := 0 to 6
        invariant forall j | 0 <= j < joint :: JerkWithinBoundary(sample.jerk[j], options.jerk)
      {
        if !JerkWithinBoundary(sample.jerk[joint], options.jerk) {
          return Err(JerkBoundary);
        }
      }
      return Ok(sample);
    }

    static method Crosses(values: Vector, limits: Vector) returns (crosses: bool)
      ensures crosses <==> Exceeds(values, limits)
    {
      for joint := 0 to 6
        invariant forall j | 0 <= j < joint :: Abs(values[j]) <= limits[j] + SLACK
      {
        if Abs(values[joint]) > limits[joint] + SLACK {
          return true;
        }
      }
      return false;
    }

    static method CrossesScalar(values: Vector, limit: real) returns (crosses: bool)
      ensures crosses <==> ExceedsScalar(values, limit)
    {
      for joint := 0 to 6
        invariant forall j | 0 <= j < joint :: Abs(values[j]) <= limit + SLACK
      {
        if Abs(values[joint]) > limit + SLACK {
          return true;
        }
      }
      return false;
    }

    method TransitionLimitedPoint(proposed: Point, t: nat) returns (r: Result<Point, Error>)
      ensures r == ShapedPoint(Snapshot(), options, proposed, t)
    {
      if !initialized {
        return Err(NotInitialized);
      }
      if t <= previousCommand {
        return Err(InvalidTimestamp);
      }
      r := ComputeLimitedPoint(proposed, previous.position, previous.velocity, previous.acceleration,
                               Seconds(previousCommand, t), Min(options.recoverable, options.hard), options.jerk);
    }

    method Commit(position: Vector, sample: Sample, t: nat)
      modifies this
      ensures Snapshot() == Spec.Commit(old(Snapshot()), position, sample, t)
    {
      if initialized {
        var delta := Raise(extremes.delta, Difference(position, previous.position));
        var velocity := Raise(extremes.velocity, sample.velocity);
        var acceleration := Raise(extremes.acceleration, sample.acceleration);
        var jerk := Raise(extremes.jerk, sample.jerk);
        extremes := Extremes(delta, velocity, acceleration, jerk);
      }
      previous := Advance(position, sample);
      previousCommand, initialized := t, true;
    }

    static method Raise(maximum: Vector, values: Vector) returns (raised: Vector)
      ensures raised == Raised(maximum, values)
    {
      raised := maximum;
      for joint := 0 to 6
        invariant forall j | 0 <= j < joint :: raised[j] == Raised(maximum, values)[j]
        invariant forall j | joint <= j < 6 :: raised[j] == maximum[j]
      {
        raised := raised[joint := Max(raised[joint], Abs(values[joint]))];
      }
      VectorsEqual(raised, Raised(maximum, values));
    }
  }
}
