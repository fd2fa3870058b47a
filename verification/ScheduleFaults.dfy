// What the schedule does to a whole run, cycle by cycle and without its loop
// variables: every deadline, every flag, and exactly when and how it faults.

module ScheduleFaults {
  import opened Results
  import opened ScheduleSpec
  import opened ServoSchedule

  /** A run of the schedule. */
  datatype Plan = Plan(config: Config, teleoperation: bool, start: nat, wakes: seq<Wake>)

  /** The time from which the next deadline counts: the actual end after a late
      completion, the actual start after a late start, else the deadline itself. */
  function Base(p: Plan, cycles: seq<Cycle>, k: nat): nat
    requires k <= |cycles|
  {
    if k == 0 then p.start
    else
      var c := cycles[k - 1];
      if c.missed then c.end else if c.warned then c.start else c.deadline
  }

  /** The time from which the next start period counts. */
  function Reference(p: Plan, cycles: seq<Cycle>, k: nat): nat
    requires k <= |cycles|
  {
    if k == 0 then p.start else if cycles[k - 1].missed then cycles[k - 1].end else cycles[k - 1].start
  }

  function DeadlineOf(p: Plan, cycles: seq<Cycle>, k: nat): nat
    requires k <= |cycles|
  {
    Base(p, cycles, k) + p.config.period
  }

  function StartOf(p: Plan, cycles: seq<Cycle>, k: nat): nat
    requires k <= |cycles| && k < |p.wakes|
  {
    DeadlineOf(p, cycles, k) + p.wakes[k].lateness
  }

  /** A packet arrived in one of the first n cycles. */
  predicate Heard(p: Plan, n: nat) {
    exists k | 0 <= k < n && k < |p.wakes| :: p.wakes[k].received
  }

  /** Startup grace: the first cycles of a teleoperation without any packet. */
  predicate Grace(p: Plan, k: nat) {
    p.teleoperation && k < p.config.graceCycles && !Heard(p, k)
  }

  /** More than 0.8 ms over the period, or more than 2 ms behind the deadline. */
  predicate LateStart(p: Plan, cycles: seq<Cycle>, k: nat)
    requires k <= |cycles| && k < |p.wakes|
  {
    || StartOf(p, cycles, k) - Reference(p, cycles, k) > p.config.period + 800_000
    || p.wakes[k].lateness > 2_000_000
  }

  predicate HardStart(p: Plan, cycles: seq<Cycle>, k: nat)
    requires k <= |cycles| && k < |p.wakes|
  {
    || StartOf(p, cycles, k) - Reference(p, cycles, k) > 2 * p.config.period
    || (p.wakes[k].lateness >= p.config.period && !Grace(p, k))
  }

  /** A second late start in a row, outside grace. */
  predicate SecondLateStart(p: Plan, cycles: seq<Cycle>, k: nat)
    requires k <= |cycles| && k < |p.wakes|
  {
    k > 0 && LateStart(p, cycles, k) && cycles[k - 1].warned && !Grace(p, k)
  }

  /** A completion more than 1.5 periods after the deadline, or the second one
      in a row after the next deadline, unless grace lasts beyond the cycle. */
  predicate HardCompletion(p: Plan, cycles: seq<Cycle>, k: nat)
    requires k < |cycles| && k < |p.wakes|
  {
    var c := cycles[k];
    && c.end > c.deadline + p.config.period
    && (|| c.end > c.deadline + p.config.period + p.config.period / 2
        || (k > 0 && cycles[k - 1].end > cycles[k - 1].deadline + p.config.period && !(Grace(p, k) && !p.wakes[k].received)))
  }

  /** Cycle k is exactly what its wake makes of the cycles before it. */
  predicate CycleIs(p: Plan, cycles: seq<Cycle>, k: nat)
    requires k < |cycles| && k < |p.wakes|
  {
    var c := cycles[k];
    && c.deadline == DeadlineOf(p, cycles, k)
    && c.start == StartOf(p, cycles, k) && c.end == c.start + p.wakes[k].work
    && (c.warned <==> LateStart(p, cycles, k))
    && (c.missed <==> c.end > c.deadline + p.config.period)
    && (c.graced <==> Grace(p, k))
    && c.evaluation == (if c.warned then c.start else c.deadline)
    && !HardStart(p, cycles, k) && !SecondLateStart(p, cycles, k)
  }

  /** The command cycles of a run and its outcome. */
  ghost predicate Described(p: Plan, cycles: seq<Cycle>, outcome: Outcome) {
    var n := |cycles|;
    && n <= |p.wakes|
    && (forall k | 0 <= k < n :: CycleIs(p, cycles, k))
    && (forall k | 0 <= k < n - 1 :: !HardCompletion(p, cycles, k))
    && (outcome == HardCompletionMiss <==> n > 0 && HardCompletion(p, cycles, n - 1))
    && (outcome == HardStartMiss <==>
          n < |p.wakes| && (n > 0 ==> !HardCompletion(p, cycles, n - 1)) && HardStart(p, cycles, n))
    && (outcome == ConsecutiveStartMisses <==>
          && n < |p.wakes| && (n > 0 ==> !HardCompletion(p, cycles, n - 1))
          && !HardStart(p, cycles, n) && SecondLateStart(p, cycles, n))
    && (outcome == Running ==> n == |p.wakes|)
  }

  /** How many cycles realigned the schedule. */
  function Realigned(cycles: seq<Cycle>): nat
    decreases |cycles|
  {
    if cycles == [] then 0
    else
      var c := cycles[|cycles| - 1];
      Realigned(cycles[..|cycles| - 1]) + if c.missed || c.warned then 1 else 0
  }

  // ---- the loop variables say the same --------------------------------------

  /** The loop variables after the cycles of a run that goes on. */
  ghost predicate Tied(t: Timing, p: Plan, cycles: seq<Cycle>) {
    var n := |cycles|;
    && n <= |p.wakes|
    && t.deadline == Base(p, cycles, n) && t.previous == Reference(p, cycles, n)
    && (t.warnings > 0 <==> n > 0 && cycles[n - 1].warned)
    && (t.misses > 0 <==> n > 0 && cycles[n - 1].missed)
    && (n > 0 ==> (cycles[n - 1].missed <==> cycles[n - 1].end > cycles[n - 1].deadline + p.config.period))
    && (t.everReceived <==> Heard(p, n))
    && (t.graceActive ==> p.teleoperation && t.graceUsed == n)
    && (p.teleoperation && n <= p.config.graceCycles && !t.everReceived ==> t.graceActive)
  }

  lemma GraceIs(t: Timing, p: Plan, cycles: seq<Cycle>)
    requires Tied(t, p, cycles) && |cycles| < |p.wakes|
    ensures var g := Graced(t.(deadline := t.deadline + p.config.period), p.config);
            && g == t.(deadline := t.deadline + p.config.period, graceActive := g.graceActive, graceUsed := g.graceUsed)
            && (g.graceActive <==> Grace(p, |cycles|)) && (g.graceActive ==> g.graceUsed == |cycles| + 1 && !g.everReceived)
  {
  }

  /** The command, the completion check and the realignment of one cycle. */
  lemma CompletionMeans(t: Timing, config: Config, start: nat, end: nat, warned: bool, graced: bool)
    ensures var r := Complete(t, config, start, end, warned, graced);
            var missed := end > t.deadline + config.period;
            && r.cycle == Some(Cycle(t.deadline, start, if warned then start else t.deadline, end, warned, missed, graced))
            && r.outcome == (if missed && (end > t.deadline + config.period + config.period / 2
                                           || (t.misses > 0 && !InGrace(t))) then HardCompletionMiss else Running)
            && (r.outcome == Running ==>
                 && r.timing.deadline == (if missed then end else if warned then start else t.deadline)
                 && r.timing.previous == (if missed then end else start)
                 && (r.timing.misses > 0 <==> missed)
                 && r.timing == t.(deadline := r.timing.deadline, previous := r.timing.previous, misses := r.timing.misses,
                                   realignments := r.timing.realignments))
  {
  }

  /** The loop variables of a pass after its grace bookkeeping. */
  function Entered(t: Timing, p: Plan): Timing {
    Graced(t.(deadline := t.deadline + p.config.period), p.config)
  }

  /** The loop variables of a pass that commands. */
  function Commanding(t: Timing, p: Plan, w: Wake): Timing {
    var g := Entered(t, p);
    g.(warnings := if Warned(g, p.config, g.deadline + w.lateness) then g.warnings + 1 else 0,
       everReceived := g.everReceived || w.received)
  }

  lemma StartMeans(t: Timing, p: Plan, cycles: seq<Cycle>)
    requires Tied(t, p, cycles) && |cycles| < |p.wakes|
    ensures var n := |cycles|;
            var w := p.wakes[n];
            var start := StartOf(p, cycles, n);
            var r := Step(t, p.config, w);
            && Entered(t, p).deadline == DeadlineOf(p, cycles, n)
            && (HardStart(p, cycles, n) ==> r.outcome == HardStartMiss && r.cycle.None?)
            && (!HardStart(p, cycles, n) && SecondLateStart(p, cycles, n) ==>
                  r.outcome == ConsecutiveStartMisses && r.cycle.None?)
            && (!HardStart(p, cycles, n) && !SecondLateStart(p, cycles, n) ==>
                  r == Complete(Commanding(t, p, w), p.config, start, start + w.work, LateStart(p, cycles, n), Grace(p, n)))
  {
    hide Complete, Graced;
    GraceIs(t, p, cycles);
  }

  lemma CommandMeans(t: Timing, p: Plan, cycles: seq<Cycle>, r: Pass)
    requires Tied(t, p, cycles) && |cycles| < |p.wakes|
    requires !HardStart(p, cycles, |cycles|) && !SecondLateStart(p, cycles, |cycles|)
    requires var n := |cycles|;
             var start := StartOf(p, cycles, n);
             r == Complete(Commanding(t, p, p.wakes[n]), p.config, start, start + p.wakes[n].work,
                           LateStart(p, cycles, n), Grace(p, n))
    ensures var n := |cycles|;
            && r.cycle.Some? && r.outcome in {Running, HardCompletionMiss}
            && CycleIs(p, cycles + [r.cycle.value], n)
            && (r.outcome == HardCompletionMiss <==> HardCompletion(p, cycles + [r.cycle.value], n))
            && (r.outcome == Running ==> Tied(r.timing, p, cycles + [r.cycle.value]))
  {
    hide Complete, Graced, HardStart;
    var n := |cycles|;
    var start := StartOf(p, cycles, n);
    GraceIs(t, p, cycles);
    CompletionMeans(Commanding(t, p, p.wakes[n]), p.config, start, start + p.wakes[n].work, LateStart(p, cycles, n), Grace(p, n));
    HeardNext(p, n);
    SameStarts(p, cycles, r.cycle.value);
    hide Heard;
  }

  lemma SameStarts(p: Plan, cycles: seq<Cycle>, c: Cycle)
    requires |cycles| < |p.wakes|
    ensures var n := |cycles|;
            && (HardStart(p, cycles + [c], n) <==> HardStart(p, cycles, n))
            && (SecondLateStart(p, cycles + [c], n) <==> SecondLateStart(p, cycles, n))
            && (LateStart(p, cycles + [c], n) <==> LateStart(p, cycles, n))
            && DeadlineOf(p, cycles + [c], n) == DeadlineOf(p, cycles, n)
  {
  }

  /** What one pass makes of the cycles before it. */
  lemma PassMeans(t: Timing, p: Plan, cycles: seq<Cycle>)
    requires Tied(t, p, cycles) && |cycles| < |p.wakes|
    ensures var n := |cycles|;
            var r := Step(t, p.config, p.wakes[n]);
            && (r.outcome == HardStartMiss <==> HardStart(p, cycles, n))
            && (r.outcome == ConsecutiveStartMisses <==> !HardStart(p, cycles, n) && SecondLateStart(p, cycles, n))
            && (r.cycle.None? <==> HardStart(p, cycles, n) || SecondLateStart(p, cycles, n))
            && (r.cycle.Some? ==>
                 && CycleIs(p, cycles + [r.cycle.value], n)
                 && (r.outcome == HardCompletionMiss <==> HardCompletion(p, cycles + [r.cycle.value], n))
                 && (r.outcome == Running ==> Tied(r.timing, p, cycles + [r.cycle.value])))
  {
    hide Complete, Step, HardStart, SecondLateStart, LateStart, Tied, CycleIs, HardCompletion, Commanding, Grace;
    StartMeans(t, p, cycles);
    if !HardStart(p, cycles, |cycles|) && !SecondLateStart(p, cycles, |cycles|) {
      CommandMeans(t, p, cycles, Step(t, p.config, p.wakes[|cycles|]));
    }
  }

  lemma HeardNext(p: Plan, n: nat)
    requires n < |p.wakes|
    ensures Heard(p, n + 1) <==> Heard(p, n) || p.wakes[n].received
  {
  }

  // ---- whole runs ------------------------------------------------------------

  /** A run that has gone on so far. */
  ghost predicate GoesOn(t: Timing, p: Plan, cycles: seq<Cycle>) {
    && Tied(t, p, cycles)
    && (forall k | 0 <= k < |cycles| :: CycleIs(p, cycles, k) && !HardCompletion(p, cycles, k))
  }

  /** A cycle is described by the cycles before it alone. */
  lemma PrefixDecides(p: Plan, cycles: seq<Cycle>, c: Cycle, k: nat)
    requires k < |cycles| && k < |p.wakes|
    ensures CycleIs(p, cycles + [c], k) <==> CycleIs(p, cycles, k)
    ensures HardCompletion(p, cycles + [c], k) <==> HardCompletion(p, cycles, k)
  {
  }

  lemma StartsDecided(p: Plan, cycles: seq<Cycle>, c: Cycle)
    requires |cycles| < |p.wakes| && CycleIs(p, cycles + [c], |cycles|)
    ensures !HardStart(p, cycles, |cycles|) && !SecondLateStart(p, cycles, |cycles|)
  {
  }

  lemma {:induction false} TraceMeans(t: Timing, p: Plan, cycles: seq<Cycle>)
    requires GoesOn(t, p, cycles)
    ensures var r := After(cycles, Trace(t, p.config, p.wakes[|cycles|..])); Described(p, r.0, r.1)
    decreases |p.wakes| - |cycles|
  {
    var n := |cycles|;
    var wakes := p.wakes[n..];
    hide Step, CycleIs, HardCompletion, HardStart, SecondLateStart;
    if n == |p.wakes| {
      TraceEnds(t, p.config, wakes, cycles);
    } else {
      assert wakes[0] == p.wakes[n] && wakes[1..] == p.wakes[n + 1..];
      hide Tied;
      TraceStep(t, p.config, wakes, cycles);
      PassMeans(t, p, cycles);
      var r := Step(t, p.config, p.wakes[n]);
      if r.cycle.Some? {
        var next := cycles + [r.cycle.value];
        forall k: nat | k < n
          ensures CycleIs(p, next, k) && !HardCompletion(p, next, k)
        {
          PrefixDecides(p, cycles, r.cycle.value, k);
        }
        if r.outcome == Running {
          TraceMeans(r.timing, p, next);
        }
      } else {
        assert cycles + [] == cycles;
      }
    }
  }

  /** Every run of the schedule, from its start. */
  lemma RunIsDescribed(p: Plan)
    ensures var r := Trace(Begin(p.start, p.teleoperation), p.config, p.wakes); Described(p, r.0, r.1)
  {
    var none: seq<Cycle> := [];
    assert p.wakes[0..] == p.wakes;
    hide Trace, Described;
    TraceEnds(Begin(p.start, p.teleoperation), p.config, p.wakes, none);
    TraceMeans(Begin(p.start, p.teleoperation), p, none);
  }

  /** A run that goes on completes every cycle within 1.5 periods of its
      deadline, and misses no two completions in a row once grace is over. */
  lemma RunningCompletes(p: Plan, cycles: seq<Cycle>, k: nat)
    requires Described(p, cycles, Running) && k < |cycles|
    ensures cycles[k].end <= cycles[k].deadline + p.config.period + p.config.period / 2
    ensures k > 0 && (!cycles[k].graced || p.wakes[k].received) ==>
              !(&& cycles[k].end > cycles[k].deadline + p.config.period
                && cycles[k - 1].end > cycles[k - 1].deadline + p.config.period)
  {
    assert CycleIs(p, cycles, k) && !HardCompletion(p, cycles, k);
  }

  /** Wake-ups and completions within their bounds. */
  predicate OnTime(p: Plan) {
    forall k | 0 <= k < |p.wakes| :: p.wakes[k].lateness <= 800_000 && p.wakes[k].lateness + p.wakes[k].work <= p.config.period
  }

  /** Such a run never faults, and stays on the grid of its start. */
  lemma OnTimeNeverFaults(p: Plan, cycles: seq<Cycle>, outcome: Outcome)
    requires p.config.period >= 8_000_000 && OnTime(p) && Described(p, cycles, outcome)
    ensures outcome == Running && |cycles| == |p.wakes|
    ensures forall k | 0 <= k < |cycles| :: OnGrid(p, cycles, k)
  {
    forall k | 0 <= k < |cycles|
      ensures OnGrid(p, cycles, k)
    {
      StaysOnGrid(p, cycles, outcome, k);
    }
    var n := |cycles|;
    if n > 0 {
      StaysOnGrid(p, cycles, outcome, n - 1);
    }
  }

  function GridPoint(p: Plan, k: nat): nat {
    p.start + (k + 1) * p.config.period
  }

  predicate OnGrid(p: Plan, cycles: seq<Cycle>, k: nat)
    requires k < |cycles| && k < |p.wakes|
  {
    var c := cycles[k];
    && !c.warned && !c.missed && c.evaluation == c.deadline == GridPoint(p, k)
    && c.start == c.deadline + p.wakes[k].lateness && c.end == c.start + p.wakes[k].work
  }

  lemma {:induction false} StaysOnGrid(p: Plan, cycles: seq<Cycle>, outcome: Outcome, k: nat)
    requires p.config.period >= 8_000_000 && OnTime(p) && Described(p, cycles, outcome) && k < |cycles|
    ensures OnGrid(p, cycles, k)
    decreases k
  {
    assert CycleIs(p, cycles, k);
    assert (k + 1) * p.config.period == k * p.config.period + p.config.period;
    if k > 0 {
      StaysOnGrid(p, cycles, outcome, k - 1);
    }
  }

  // ---- the realignment counter ------------------------------------------------

  /** The loop variables after passes that all went on. */
  function TimingAfter(t: Timing, config: Config, wakes: seq<Wake>): Timing
    decreases |wakes|
  {
    if wakes == [] then t else TimingAfter(Step(t, config, wakes[0]).timing, config, wakes[1..])
  }

  /** Each realigned cycle is counted once. */
  lemma {:induction false} RealignmentsAreCounted(t: Timing, config: Config, wakes: seq<Wake>, cycles: seq<Cycle>)
    requires Trace(t, config, wakes).1 == Running && t.realignments == Realigned(cycles)
    ensures TimingAfter(t, config, wakes).realignments == Realigned(cycles + Trace(t, config, wakes).0)
    decreases |wakes|
  {
    hide Step;
    if wakes == [] {
      assert cycles + [] == cycles;
    } else {
      var r := Step(t, config, wakes[0]);
      assert r.outcome == Running;
      PassRealigns(t, config, wakes[0]);
      var c := r.cycle.value;
      assert (cycles + [c])[..|cycles|] == cycles;
      RealignmentsAreCounted(r.timing, config, wakes[1..], cycles + [c]);
      assert cycles + ([c] + Trace(r.timing, config, wakes[1..]).0) == cycles + [c] + Trace(r.timing, config, wakes[1..]).0;
    }
  }

  lemma PassRealigns(t: Timing, config: Config, w: Wake)
    requires Step(t, config, w).outcome == Running
    ensures var r := Step(t, config, w);
            r.cycle.Some?
            && r.timing.realignments == t.realignments + (if r.cycle.value.missed || r.cycle.value.warned then 1 else 0)
  {
    GracedKeeps(t.(deadline := t.deadline + config.period), config);
    hide Graced;
  }
}
