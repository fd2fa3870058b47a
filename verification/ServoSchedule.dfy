// The deadline schedule of the worker's command loop: absolute deadlines,
// realignment after a late start or a late completion, and the timing faults.

module ScheduleSpec {
  import opened Results

  const START_TOLERANCE: nat := 800_000
  const WAKE_WARNING: nat := 2_000_000

  datatype Config = Config(period: nat, graceCycles: nat)

  /** What the environment decides in one cycle. Absolute sleeps never return
      early, so the start is the deadline plus a lateness. */
  datatype Wake = Wake(lateness: nat, received: bool, work: nat)

  /** A cycle that issued its command. */
  datatype Cycle = Cycle(deadline: nat, start: nat, evaluation: nat, end: nat, warned: bool, missed: bool, graced: bool)

  datatype Outcome = Running | HardStartMiss | ConsecutiveStartMisses | HardCompletionMiss

  /** The timing variables of the loop. */
  datatype Timing = Timing(deadline: nat, previous: nat, graceActive: bool, graceUsed: nat, everReceived: bool,
                           warnings: nat, misses: nat, realignments: nat)

  datatype Pass = Pass(timing: Timing, cycle: Option<Cycle>, outcome: Outcome)

  function Begin(start: nat, teleoperation: bool): Timing {
    Timing(start, start, teleoperation, 0, false, 0, 0, 0)
  }

  /** The grace period ends with the first packet or after its last cycle. */
  function Graced(t: Timing, config: Config): Timing {
    if !t.graceActive then t
    else if t.everReceived || t.graceUsed >= config.graceCycles then t.(graceActive := false)
    else t.(graceUsed := t.graceUsed + 1)
  }

  predicate InGrace(t: Timing) {
    t.graceActive && !t.everReceived
  }

  /** The start checks and the bookkeeping of a started cycle. */
  function StartOutcome(t: Timing, config: Config, start: nat): Outcome {
    var late := start - t.deadline;
    if start - t.previous > 2 * config.period || (late >= config.period && !InGrace(t)) then HardStartMiss
    else if Warned(t, config, start) && t.warnings + 1 >= 2 && !InGrace(t) then ConsecutiveStartMisses
    else Running
  }

  predicate Warned(t: Timing, config: Config, start: nat) {
    start - t.previous > config.period + START_TOLERANCE || start - t.deadline > WAKE_WARNING
  }

  /** One pass of the loop. */
  function Step(before: Timing, config: Config, w: Wake): Pass {
    var t := Graced(before.(deadline := before.deadline + config.period), config);
    var start := t.deadline + w.lateness;
    var verdict := StartOutcome(t, config, start);
    var warned := Warned(t, config, start);
    var counted := t.(warnings := if warned then t.warnings + 1 else 0);
    if verdict == HardStartMiss then Pass(t, None, HardStartMiss)
    else if verdict == ConsecutiveStartMisses then Pass(counted, None, ConsecutiveStartMisses)
    else Complete(counted.(everReceived := t.everReceived || w.received), config, start, start + w.work, warned, InGrace(t))
  }

  /** The command, the completion check and the realignment. */
  function Complete(t: Timing, config: Config, start: nat, end: nat, warned: bool, graced: bool): Pass {
    var missed := end > t.deadline + config.period;
    var cycle := Cycle(t.deadline, start, if warned then start else t.deadline, end, warned, missed, graced);
    var misses := if missed then t.misses + 1 else 0;
    var hard := missed && (end > t.deadline + config.period + config.period / 2 || (!InGrace(t) && misses >= 2));
    var next := t.(previous := start, misses := misses);
    if hard then Pass(next, Some(cycle), HardCompletionMiss)
    else if missed then
      Pass(next.(deadline := end, previous := end, realignments := t.realignments + 1), Some(cycle), Running)
    else if warned then
      Pass(next.(deadline := start, realignments := t.realignments + 1), Some(cycle), Running)
    else Pass(next, Some(cycle), Running)
  }
}

module ServoSchedule {
  import opened Results
  import opened ScheduleSpec

  class ServoClock {
    const config: Config
    var deadline: nat
    var previous: nat
    var graceActive: bool
    var graceUsed: nat
    var everReceived: bool
    var warnings: nat
    var misses: nat
    var realignments: nat

    function Snapshot(): Timing
      reads this
    {
      Timing(deadline, previous, graceActive, graceUsed, everReceived, warnings, misses, realignments)
    }

    constructor (config: Config, teleoperation: bool, start: nat)
      ensures this.config == config && Snapshot() == Begin(start, teleoperation)
    {
      this.config := config;
      deadline, previous := start, start;
      graceActive, graceUsed, everReceived := teleoperation, 0, false;
      warnings, misses, realignments := 0, 0, 0;
    }

    method SpendGrace()
      modifies this
      ensures Snapshot() == Graced(old(Snapshot()), config)
    {
      if graceActive {
        if everReceived || graceUsed >= config.graceCycles {
          graceActive := false;
        } else {
          graceUsed := graceUsed + 1;
        }
      }
    }

    /** One pass of the loop body, timing only. */
    method RunCycle(w: Wake) returns (cycle: Option<Cycle>, outcome: Outcome)
      modifies this
      ensures Pass(Snapshot(), cycle, outcome) == Step(old(Snapshot()), config, w)
    {
      hide Complete, Graced;
      deadline := deadline + config.period;
      SpendGrace();
      ghost var t := Snapshot();
      var start := deadline + w.lateness;
      var startPeriod := start - previous;
      var wakeLateness := if start > deadline then start - deadline else 0;
      var grace := graceActive && !everReceived;
      if startPeriod > 2 * config.period || (wakeLateness >= config.period && !grace) {
        assert StartOutcome(t, config, start) == HardStartMiss;
        return None, HardStartMiss;
      }
      var warned := startPeriod > config.period + START_TOLERANCE || wakeLateness > WAKE_WARNING;
      warnings := if warned then warnings + 1 else 0;
      if warnings >= 2 && !grace {
        assert StartOutcome(t, config, start) == ConsecutiveStartMisses;
        return None, ConsecutiveStartMisses;
      }
      assert StartOutcome(t, config, start) == Running;
      everReceived := everReceived || w.received;
      cycle, outcome := CompleteCycle(start, start + w.work, warned, grace);
    }

    method CompleteCycle(start: nat, end: nat, warned: bool, graced: bool) returns (cycle: Option<Cycle>, outcome: Outcome)
      modifies this
      ensures Pass(Snapshot(), cycle, outcome) == Complete(old(Snapshot()), config, start, end, warned, graced)
    {
      // on the grid, or at the actual start when realigning
      var evaluation := if warned then start else deadline;
      var realign := warned;
      previous := start;
      var completionRealign := end > deadline + config.period;
      cycle := Some(Cycle(deadline, start, evaluation, end, warned, completionRealign, graced));
      if completionRealign {
        misses := misses + 1;
        realign := true;
        if end > deadline + config.period + config.period / 2 || (!(graceActive && !everReceived) && misses >= 2) {
          return cycle, HardCompletionMiss;
        }
      } else {
        misses := 0;
      }
      if realign {
        deadline := if completionRealign then end else start;
        if completionRealign {
          previous := end;
        }
        realignments := realignments + 1;
      }
      return cycle, Running;
    }
  }

  // ---- no catch-up burst ---------------------------------------------------

  /** What the last command cycle left behind for the next one. */
  ghost predicate Consistent(t: Timing, last: Cycle, period: nat) {
    && last.evaluation <= t.deadline
    // the next deadline is not yet past when the cycle completes
    && last.end <= t.deadline + period
    && last.start <= t.deadline + WAKE_WARNING && last.start <= last.end
    && last.start <= t.previous <= last.end
    && t.previous <= t.deadline + WAKE_WARNING
    && (last.warned <==> t.warnings > 0)
  }

  /** A cycle evaluates on or shortly before its own start. */
  ghost predicate Prompt(c: Cycle) {
    && c.evaluation <= c.start <= c.evaluation + WAKE_WARNING
    && c.start <= c.end
  }

  /** Two command cycles in a row. */
  ghost predicate Separated(c: Cycle, d: Cycle, period: nat) {
    // the servo time line advances by at least a period
    && c.evaluation + period <= d.evaluation
    // starts are at least a period minus the tolerated wake lateness apart
    && c.start + period <= d.start + WAKE_WARNING
    // and a cycle has completed before the next one starts
    && c.end <= d.start <= c.end + 2 * period
    // two late starts in a row only happen during startup grace
    && (c.warned && !d.graced ==> !d.warned)
  }

  /** The loop state in which a cycle commands, and what it then leaves behind. */
  lemma Completes(t: Timing, config: Config, start: nat, work: nat, warned: bool, graced: bool)
    requires config.period >= 8_000_000 && t.deadline <= start
    requires !warned ==> start <= t.deadline + WAKE_WARNING
    requires warned <==> t.warnings > 0
    ensures var r := Complete(t, config, start, start + work, warned, graced);
            && r.cycle.Some? && Prompt(r.cycle.value) && t.deadline <= r.cycle.value.evaluation
            && r.cycle.value.start == start && r.cycle.value.warned == warned && r.cycle.value.graced == graced
            && (r.outcome == Running ==> Consistent(r.timing, r.cycle.value, config.period))
  {
  }

  lemma GracedKeeps(t: Timing, config: Config)
    ensures var g := Graced(t, config);
            g == t.(graceActive := g.graceActive, graceUsed := g.graceUsed)
  {
  }

  /** When a pass issues a command, its start was checked first. */
  lemma StepCommands(t: Timing, config: Config, w: Wake)
    requires config.period >= 8_000_000
    requires Step(t, config, w).cycle.Some?
    ensures var r := Step(t, config, w);
            var c := r.cycle.value;
            && Prompt(c) && t.deadline + config.period <= c.evaluation
            && c.start >= t.deadline + config.period && c.start <= t.previous + 2 * config.period
            && (t.warnings > 0 && !c.graced ==> !c.warned)
            && (r.outcome == Running ==> Consistent(r.timing, c, config.period))
  {
    hide Graced, Complete, Prompt, Consistent, InGrace;
    GracedKeeps(t.(deadline := t.deadline + config.period), config);
    var g := Graced(t.(deadline := t.deadline + config.period), config);
    var start := g.deadline + w.lateness;
    var warned := Warned(g, config, start);
    var counted := g.(warnings := if warned then g.warnings + 1 else 0, everReceived := g.everReceived || w.received);
    assert StartOutcome(g, config, start) == Running;
    Completes(counted, config, start, w.work, warned, InGrace(g));
    assert Step(t, config, w) == Complete(counted, config, start, start + w.work, warned, InGrace(g));
  }

  /** A loop that goes on has commanded. */
  lemma RunningCommands(t: Timing, config: Config, w: Wake)
    requires Step(t, config, w).outcome == Running
    ensures Step(t, config, w).cycle.Some?
  {
    hide Graced;
  }

  lemma StepSeparates(t: Timing, config: Config, w: Wake, last: Cycle)
    requires config.period >= 8_000_000 && Consistent(t, last, config.period)
    requires Step(t, config, w).cycle.Some?
    ensures Separated(last, Step(t, config, w).cycle.value, config.period)
  {
    StepCommands(t, config, w);
    hide Step;
  }

  /** All command cycles of a run. */
  ghost predicate NoBurst(cycles: seq<Cycle>, start: nat, period: nat) {
    && (cycles != [] ==> start + period <= cycles[0].evaluation)
    && (forall i | 0 <= i < |cycles| :: Prompt(cycles[i]))
    && (forall i | 0 < i < |cycles| :: Separated(cycles[i - 1], cycles[i], period))
  }

  lemma Appended(cycles: seq<Cycle>, c: Cycle, start: nat, period: nat)
    requires NoBurst(cycles, start, period) && Prompt(c)
    requires cycles == [] ==> start + period <= c.evaluation
    requires cycles != [] ==> Separated(cycles[|cycles| - 1], c, period)
    ensures NoBurst(cycles + [c], start, period)
  {
    var all := cycles + [c];
    forall i | 0 < i < |all|
      ensures Separated(all[i - 1], all[i], period)
    {
      if i < |cycles| {
        assert Separated(cycles[i - 1], cycles[i], period);
      }
    }
  }

  // ---- the loop ------------------------------------------------------------

  /** Command cycles before the rest of a run. */
  function After(cycles: seq<Cycle>, rest: (seq<Cycle>, Outcome)): (seq<Cycle>, Outcome) {
    (cycles + rest.0, rest.1)
  }

  function Issued(r: Pass): seq<Cycle> {
    if r.cycle.Some? then [r.cycle.value] else []
  }

  /** The command cycles of a run and how it ends. */
  function Trace(t: Timing, config: Config, wakes: seq<Wake>): (seq<Cycle>, Outcome)
    decreases |wakes|
  {
    if wakes == [] then ([], Running)
    else
      var r := Step(t, config, wakes[0]);
      if r.outcome == Running then After(Issued(r), Trace(r.timing, config, wakes[1..]))
      else (Issued(r), r.outcome)
  }

  lemma TraceStep(t: Timing, config: Config, wakes: seq<Wake>, cycles: seq<Cycle>)
    requires wakes != []
    ensures var r := Step(t, config, wakes[0]);
            After(cycles, Trace(t, config, wakes))
              == if r.outcome == Running then After(cycles + Issued(r), Trace(r.timing, config, wakes[1..]))
                 else (cycles + Issued(r), r.outcome)
  {
    hide Step;
    var r := Step(t, config, wakes[0]);
    var rest := Trace(r.timing, config, wakes[1..]);
    assert cycles + (Issued(r) + rest.0) == cycles + Issued(r) + rest.0;
  }

  lemma TraceEnds(t: Timing, config: Config, wakes: seq<Wake>, cycles: seq<Cycle>)
    ensures wakes == [] ==> After(cycles, Trace(t, config, wakes)) == (cycles, Running)
    ensures cycles == [] ==> After(cycles, Trace(t, config, wakes)) == Trace(t, config, wakes)
  {
    assert cycles + [] == cycles;
    assert [] + Trace(t, config, wakes).0 == Trace(t, config, wakes).0;
  }

  /** What the loop knows between two passes. */
  ghost predicate Between(t: Timing, cycles: seq<Cycle>, start: nat, period: nat) {
    && NoBurst(cycles, start, period)
    && (cycles == [] ==> t.deadline == t.previous == start && t.warnings == 0)
    && (cycles != [] ==> Consistent(t, cycles[|cycles| - 1], period))
  }

  lemma StepKeepsApart(t: Timing, config: Config, w: Wake, cycles: seq<Cycle>, start: nat)
    requires config.period >= 8_000_000 && Between(t, cycles, start, config.period)
    ensures var r := Step(t, config, w);
            && NoBurst(cycles + Issued(r), start, config.period)
            && (r.outcome == Running ==> r.cycle.Some? && Between(r.timing, cycles + Issued(r), start, config.period))
  {
    var r := Step(t, config, w);
    if r.outcome == Running {
      RunningCommands(t, config, w);
    }
    if r.cycle.Some? {
      StepCommands(t, config, w);
      if cycles != [] {
        StepSeparates(t, config, w, cycles[|cycles| - 1]);
      }
      hide Step, Prompt, Separated, Consistent;
      Appended(cycles, r.cycle.value, start, config.period);
    } else {
      assert cycles + [] == cycles;
    }
  }

  /** The specified run never bursts, however it ends. */
  lemma {:induction false} TraceKeepsApart(t: Timing, config: Config, wakes: seq<Wake>, cycles: seq<Cycle>, start: nat)
    requires config.period >= 8_000_000 && Between(t, cycles, start, config.period)
    ensures NoBurst(After(cycles, Trace(t, config, wakes)).0, start, config.period)
    decreases |wakes|
  {
    hide Step, NoBurst, Between, Issued;
    if wakes == [] {
      BetweenIsApart(t, cycles, start, config.period);
      TraceEnds(t, config, wakes, cycles);
    } else {
      var r := Step(t, config, wakes[0]);
      TraceStep(t, config, wakes, cycles);
      StepKeepsApart(t, config, wakes[0], cycles, start);
      if r.outcome == Running {
        TraceKeepsApart(r.timing, config, wakes[1..], cycles + Issued(r), start);
      }
    }
  }

  lemma BetweenIsApart(t: Timing, cycles: seq<Cycle>, start: nat, period: nat)
    requires Between(t, cycles, start, period)
    ensures NoBurst(cycles, start, period)
  {
  }

  /** Every run from its start. */
  lemma RunsKeepApart(config: Config, teleoperation: bool, start: nat, wakes: seq<Wake>)
    requires config.period >= 8_000_000
    ensures NoBurst(Trace(Begin(start, teleoperation), config, wakes).0, start, config.period)
  {
    var none: seq<Cycle> := [];
    NothingBursts(start, config.period, none);
    TraceEnds(Begin(start, teleoperation), config, wakes, none);
    TraceKeepsApart(Begin(start, teleoperation), config, wakes, none, start);
    hide NoBurst, Trace;
  }

  /** The loop over any environment: its cycles and its end are those of the
      specified passes, and across on-time cycles and both kinds of realignment
      no two evaluations are closer than one servo period. */
  method RunLoop(config: Config, teleoperation: bool, start: nat, wakes: seq<Wake>)
    returns (cycles: seq<Cycle>, outcome: Outcome)
    requires config.period >= 8_000_000
    ensures (cycles, outcome) == Trace(Begin(start, teleoperation), config, wakes)
    ensures NoBurst(cycles, start, config.period)
    ensures outcome == Running ==> |cycles| == |wakes|
  {
    hide Step, NoBurst, Trace;
    RunsKeepApart(config, teleoperation, start, wakes);
    var clock := new ServoClock(config, teleoperation, start);
    cycles := [];
    TraceEnds(clock.Snapshot(), config, wakes, cycles);
    assert wakes[0..] == wakes;
    for i := 0 to |wakes|
      invariant clock.config == config && |cycles| == i
      invariant Trace(Begin(start, teleoperation), config, wakes) == After(cycles, Trace(clock.Snapshot(), config, wakes[i..]))
    {
      ghost var before := clock.Snapshot();
      assert wakes[i..][0] == wakes[i] && wakes[i..][1..] == wakes[i + 1..];
      TraceStep(before, config, wakes[i..], cycles);
      var cycle;
      cycle, outcome := clock.RunCycle(wakes[i]);
      if cycle.Some? {
        cycles := cycles + [cycle.value];
      }
      if outcome != Running {
        assert cycles + [] == cycles;
        return;
      }
      RunningCommands(before, config, wakes[i]);
    }
    TraceEnds(clock.Snapshot(), config, wakes[|wakes|..], cycles);
    outcome := Running;
  }

  lemma NothingBursts(start: nat, period: nat, cycles: seq<Cycle>)
    requires cycles == []
    ensures NoBurst(cycles, start, period)
  {
  }
}

module ScheduledServo {
  import opened ServoPoints
  import opened ResamplerSpec
  import opened ResamplerRuns
  import Schedule = ScheduleSpec
  import opened ServoSchedule

  /** The event evaluates the resampler no later than `t`, if it evaluates it at all. */
  ghost predicate EvaluatesBy(e: Event, t: nat) {
    && (e.Emit? ==> e.servoTime <= t)
    && (e.EmitShaped? ==> e.servoTime <= t)
  }

  lemma {:induction false} ServoTimeIsBounded(s: State, events: seq<Event>, s': State, t: nat)
    requires Runs(s, events, s') && s.lastServoTime <= t
    requires forall i | 0 <= i < |events| :: EvaluatesBy(events[i], t)
    ensures s'.lastServoTime <= t
    decreases |events|
  {
    if events != [] {
      assert EvaluatesBy(events[0], t);
      forall i | 0 <= i < |events[1..]|
        ensures EvaluatesBy(events[1..][i], t)
      {
        assert EvaluatesBy(events[i + 1], t);
      }
      ServoTimeIsBounded(Step(s, events[0]).value, events[1..], s', t);
    }
  }

  lemma {:induction false} EvaluationsIncrease(cycles: seq<Schedule.Cycle>, start: nat, period: nat, i: nat, k: nat)
    requires NoBurst(cycles, start, period) && i <= k < |cycles|
    ensures start + period <= cycles[i].evaluation <= cycles[k].evaluation
    decreases k
  {
    if k > 0 {
      EvaluationsIncrease(cycles, start, period, if i == k then k - 1 else i, k - 1);
      assert Separated(cycles[k - 1], cycles[k], period);
    }
  }

  /** Whatever targets, holds and shaped points are interleaved, the scheduled
      evaluation of a cycle is never rejected for moving backwards in time. */
  lemma EvaluationNeverGoesBack(cycles: seq<Schedule.Cycle>, start: nat, period: nat, k: nat,
                                s: State, events: seq<Event>, s': State)
    requires NoBurst(cycles, start, period) && k < |cycles|
    requires Reachable(s) && s.lastServoTime <= start && Runs(s, events, s')
    requires forall i | 0 <= i < |events| :: exists c | 0 <= c < k :: EvaluatesBy(events[i], cycles[c].evaluation)
    ensures Reachable(s')
    ensures Evaluate(s', cycles[k].evaluation).Err? ==> Evaluate(s', cycles[k].evaluation).error != ServoTimeBackwards
  {
    EveryRunIsContinuous(s, events, s');
    EvaluationsIncrease(cycles, start, period, k, k);
    forall i | 0 <= i < |events|
      ensures EvaluatesBy(events[i], cycles[k].evaluation)
    {
      var c :| 0 <= c < k && EvaluatesBy(events[i], cycles[c].evaluation);
      EvaluationsIncrease(cycles, start, period, c, k);
    }
    ServoTimeIsBounded(s, events, s', cycles[k].evaluation);
  }

  /** The scheduled evaluations of a run, as unshaped servo ticks. */
  function Ticks(cycles: seq<Schedule.Cycle>): seq<Tick> {
    seq(|cycles|, i requires 0 <= i < |cycles| => Tick(cycles[i].evaluation, cycles[i].end))
  }

  /** The schedule delivers the spacing on which exact arrival rests. */
  lemma ScheduleIsSpaced(cycles: seq<Schedule.Cycle>, start: nat, period: nat, last: nat)
    requires NoBurst(cycles, start, period) && last <= start
    ensures Spaced(last, period, Ticks(cycles))
  {
    forall i | 0 < i < |cycles|
      ensures Ticks(cycles)[i - 1].servoTime + period <= Ticks(cycles)[i].servoTime
    {
      assert Separated(cycles[i - 1], cycles[i], period);
    }
  }
}
