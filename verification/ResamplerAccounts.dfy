// The resampler's counters and provenance over whole runs: what each of them
// counts, and whose acceptances a point reports.

module ResamplerAccounts {
  import opened Results
  import opened Joints
  import opened ResamplerSpec
  import opened ResamplerRuns

  // ---- counters ------------------------------------------------------------------

  /** A segment that is still open ends later than the last servo time. */
  ghost predicate Pending(s: State) {
    Reachable(s) && (s.active ==> s.lastServoTime < s.segmentEnd)
  }

  predicate IsEmission(e: Event) {
    e.Emit? || e.EmitShaped?
  }

  /** A target that replaces another one. */
  predicate IsReplacement(e: Event, last: Option<Acceptance>) {
    e.Target? && last.Some? && !last.value.hold
  }

  /** What one event adds to the counters, told from what it did to the state. */
  ghost predicate CountsChange(s: State, e: Event, s': State, last: Option<Acceptance>) {
    var c, c' := s.counters, s'.counters;
    var arrives := e.Emit? && s.active && !s'.active;
    && c'.emittedPoints == c.emittedPoints + (if IsEmission(e) then 1 else 0)
    && c'.repeatedPoints == c.repeatedPoints + (if IsEmission(e) && s'.emitted == s.emitted then 1 else 0)
    && c'.limitedPoints == c.limitedPoints + (if e.EmitShaped? then 1 else 0)
    && c'.endpointPoints == c.endpointPoints + (if arrives then 1 else 0)
    && c'.destinationSwitches == c.destinationSwitches + (if IsReplacement(e, last) then 1 else 0)
    && c'.preemptions == c.preemptions + (if IsReplacement(e, last) && s.active then 1 else 0)
    && c'.maximumSegmentDuration
       == (if !e.Target? then c.maximumSegmentDuration
           else if last.None? then s.servoPeriod
           else Greater(c.maximumSegmentDuration, s'.segmentEnd - s'.segmentStart))
    && c'.maximumEndpointLatency
       == (if arrives then Greater(c.maximumEndpointLatency, e.commandTime - s.origin.toAccepted) else c.maximumEndpointLatency)
  }

  function Greater(x: nat, y: int): nat {
    if y > x then y else x
  }

  lemma EmitCounts(s: State, e: Event, last: Option<Acceptance>)
    requires Pending(s) && Step(s, e).Ok? && e.Emit?
    ensures Pending(Step(s, e).value) && CountsChange(s, e, Step(s, e).value, last)
  {
    EmitKeepsReachable(s, e.servoTime, e.commandTime);
    EvaluatedPoint(s, e.servoTime);
    hide Reachable, Alpha, Along;
  }

  lemma ShapedCounts(s: State, e: Event, last: Option<Acceptance>)
    requires Pending(s) && Step(s, e).Ok? && e.EmitShaped?
    ensures Pending(Step(s, e).value) && CountsChange(s, e, Step(s, e).value, last)
  {
    EvaluatedPoint(s, e.servoTime);
    ShapedKeepsReachable(s, e.servoTime, e.shaped);
    hide Reachable, Alpha, Along, InLimits;
  }

  lemma AcceptanceCounts(s: State, e: Event, last: Option<Acceptance>)
    requires Pending(s) && Remembers(s, last) && Step(s, e).Ok? && !IsEmission(e)
    ensures Pending(Step(s, e).value) && CountsChange(s, e, Step(s, e).value, last)
  {
    StepKeepsReachable(s, e);
    hide Reachable, Alpha, Along, InLimits;
  }

  lemma StepCounts(s: State, e: Event, last: Option<Acceptance>)
    requires Pending(s) && Remembers(s, last) && Step(s, e).Ok?
    ensures Pending(Step(s, e).value) && CountsChange(s, e, Step(s, e).value, last)
  {
    hide Step, Pending, Remembers, CountsChange;
    match e
    case Emit(t, commandTime) => EmitCounts(s, e, last);
    case EmitShaped(t, shaped) => ShapedCounts(s, e, last);
    case _ => AcceptanceCounts(s, e, last);
  }

  function Emissions(events: seq<Event>): nat
    decreases |events|
  {
    if events == [] then 0 else (if IsEmission(events[0]) then 1 else 0) + Emissions(events[1..])
  }

  function ShapedEmissions(events: seq<Event>): nat
    decreases |events|
  {
    if events == [] then 0 else (if events[0].EmitShaped? then 1 else 0) + ShapedEmissions(events[1..])
  }

  function Replacements(last: Option<Acceptance>, events: seq<Event>): nat
    decreases |events|
  {
    if events == [] then 0
    else (if IsReplacement(events[0], last) then 1 else 0) + Replacements(After(last, events[0]), events[1..])
  }

  /** Over any run the totals are the numbers of events of each kind; segments
      that end and targets that preempt are among them. */
  lemma {:induction false} RunCounts(s: State, events: seq<Event>, s': State, last: Option<Acceptance>)
    requires Pending(s) && Remembers(s, last) && Runs(s, events, s')
    ensures Pending(s') && Remembers(s', Latest(last, events))
    ensures var c, c' := s.counters, s'.counters;
            && c'.emittedPoints == c.emittedPoints + Emissions(events)
            && c'.limitedPoints == c.limitedPoints + ShapedEmissions(events)
            && c'.destinationSwitches == c.destinationSwitches + Replacements(last, events)
            && c.repeatedPoints <= c'.repeatedPoints <= c.repeatedPoints + Emissions(events)
            && c.preemptions <= c'.preemptions <= c.preemptions + Replacements(last, events)
            && c.endpointPoints <= c'.endpointPoints <= c.endpointPoints + Emissions(events)
    decreases |events|
  {
    if events != [] {
      StepCounts(s, events[0], last);
      StepRemembers(s, events[0], last);
      hide Step, Pending, Remembers;
      RunCounts(Step(s, events[0]).value, events[1..], s', After(last, events[0]));
    }
  }

  // ---- provenance ----------------------------------------------------------------

  /** Where the current segment comes from and leads to. */
  datatype Source = Source(from: Acceptance, target: Acceptance)

  function SourceAfter(source: Option<Source>, e: Event): Option<Source> {
    match e
    case HoldAt(position, accepted, sequence) =>
      var a := Acceptance(accepted, sequence, true);
      Some(Source(a, a))
    case Target(destination, accepted, sequence) =>
      var a := Acceptance(accepted, sequence, false);
      Some(Source(if source.Some? && !source.value.target.hold then source.value.target else a, a))
    // a shaped point starts a new way to the same target
    case EmitShaped(t, shaped) => if source.Some? then Some(Source(source.value.target, source.value.target)) else source
    case Emit(t, commandTime) => source
  }

  function SourceOf(source: Option<Source>, events: seq<Event>): Option<Source>
    decreases |events|
  {
    if events == [] then source else SourceOf(SourceAfter(source, events[0]), events[1..])
  }

  predicate ComesFrom(s: State, source: Option<Source>) {
    match source
    case None => !s.hasAccepted && !s.internalHold
    case Some(x) =>
      && s.hasAccepted && s.internalHold == x.target.hold
      && s.origin == Provenance(x.target.time, x.from.time, x.target.time, x.from.sequence, x.target.sequence)
  }

  lemma StepComesFrom(s: State, e: Event, source: Option<Source>)
    requires s.segmentStart <= s.lastServoTime && ComesFrom(s, source) && Step(s, e).Ok?
    ensures ComesFrom(Step(s, e).value, SourceAfter(source, e))
  {
  }

  /** After any run, an evaluated point reports the acceptances its segment
      comes from and leads to. */
  lemma {:induction false} PointsTellTheirSource(s: State, events: seq<Event>, s': State, source: Option<Source>, t: nat)
    requires Runs(s, events, s') && ComesFrom(s, source) && s'.segmentStart <= s'.lastServoTime
    ensures ComesFrom(s', SourceOf(source, events))
    ensures Evaluate(s', t).Ok? ==>
              var p, x := Evaluate(s', t).value, SourceOf(source, events);
              && x.Some? && p.fromSequence == x.value.from.sequence && p.toSequence == x.value.target.sequence
              && p.fromAccepted == x.value.from.time && p.toAccepted == x.value.target.time
    decreases |events|
  {
    if events != [] {
      StepComesFrom(s, events[0], source);
      hide Step, SourceAfter;
      PointsTellTheirSource(Step(s, events[0]).value, events[1..], s', SourceAfter(source, events[0]), t);
    }
  }
}
