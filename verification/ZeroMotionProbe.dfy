// The cyclic loop of the zero-motion probe: relative rescheduling after late
// starts and late completions, and its timing faults.

module ZeroMotionProbe {
  import opened Results

  const PERIOD: nat := 8_000_000
  const WAKE_WARNING: nat := 2_000_000
  const TIMING_DEBT: nat := 8_000_000
  const PERIOD_OVERRUN: nat := 8_800_000
  const HARD_START: nat := 12_000_000
  const HARD_COMPLETION: nat := 12_000_000

  /** The environment of one cycle; sleeping to a release never returns early. */
  datatype Wake = Wake(lateness: nat, commandOk: bool, work: nat)

  datatype Outcome =
    | Completed
    | HardStartPeriodMiss
    | AccumulatedTimingDebt
    | RepeatedPeriodOverrun
    | CommandFailure
    | HardCompletionMiss
    | RepeatedCompletionMiss

  /** The loop's variables. `cycle` counts the commands issued before. */
  datatype Loop = Loop(cycle: nat, scheduled: nat, previousStart: nat, periodOverruns: nat, completionMisses: nat)

  /** The fault found at the start of a cycle, if any; the first cycle is not checked. */
  function StartFault(l: Loop, start: nat): Option<Outcome> {
    if l.cycle == 0 then None
    else if start - l.previousStart > HARD_START then Some(HardStartPeriodMiss)
    else if start - l.scheduled >= TIMING_DEBT then Some(AccumulatedTimingDebt)
    else if start - l.previousStart > PERIOD_OVERRUN && l.periodOverruns + 1 >= 2 then Some(RepeatedPeriodOverrun)
    else None
  }

  predicate StartWarning(l: Loop, start: nat) {
    l.cycle > 0 && (start - l.previousStart > PERIOD_OVERRUN || start - l.scheduled > WAKE_WARNING)
  }

  function CompletionFault(l: Loop, completion: nat): Option<Outcome> {
    if completion <= l.scheduled + PERIOD then None
    else if completion > l.scheduled + HARD_COMPLETION then Some(HardCompletionMiss)
    else if l.completionMisses + 1 >= 2 then Some(RepeatedCompletionMiss)
    else None
  }

  /** The next release: on the grid, or one period after the late event. */
  function NextRelease(l: Loop, start: nat, completion: nat): nat {
    if completion > l.scheduled + PERIOD then completion + PERIOD
    else if StartWarning(l, start) then start + PERIOD
    else l.scheduled + PERIOD
  }

  function Next(l: Loop, start: nat, completion: nat): Loop {
    var overrun := l.cycle > 0 && start - l.previousStart > PERIOD_OVERRUN;
    Loop(l.cycle + 1, NextRelease(l, start, completion), start,
         if l.cycle == 0 then l.periodOverruns else if overrun then l.periodOverruns + 1 else 0,
         if completion > l.scheduled + PERIOD then l.completionMisses + 1 else 0)
  }

  /** The start of a cycle, and what follows it when nothing faults. */
  function Start(l: Loop, w: Wake): nat {
    l.scheduled + w.lateness
  }

  /** One cycle: its fault, or the loop variables of the next. */
  function Step(l: Loop, w: Wake): Result<Loop, Outcome> {
    var start := Start(l, w);
    match StartFault(l, start)
    case Some(fault) => Err(fault)
    case None =>
      if !w.commandOk then Err(CommandFailure)
      else match CompletionFault(l, start + w.work)
        case Some(fault) => Err(fault)
        case None => Ok(Next(l, start, start + w.work))
  }

  /** The starts of the cycles that issued their command, and how the run ends. */
  function Trace(l: Loop, wakes: seq<Wake>): (seq<nat>, Outcome)
    decreases |wakes|
  {
    if wakes == [] then ([], Completed)
    else
      var start := Start(l, wakes[0]);
      match Step(l, wakes[0])
      case Ok(next) => After([start], Trace(next, wakes[1..]))
      case Err(fault) => (if StartFault(l, start).Some? || !wakes[0].commandOk then [] else [start], fault)
  }

  function After(starts: seq<nat>, rest: (seq<nat>, Outcome)): (seq<nat>, Outcome) {
    (starts + rest.0, rest.1)
  }

  /** The body of the loop: start checks, command, completion checks, rescheduling. */
  method RunCycle(l: Loop, w: Wake) returns (issued: bool, next: Result<Loop, Outcome>)
    ensures next == Step(l, w)
    ensures issued <==> StartFault(l, Start(l, w)).None? && w.commandOk
  {
    var periodOverruns, completionMisses := l.periodOverruns, l.completionMisses;
    var start := l.scheduled + w.lateness;
    var startWarning := false;
    if l.cycle > 0 {
      var actualPeriod := start - l.previousStart;
      if actualPeriod > HARD_START || w.lateness >= TIMING_DEBT {
        return false, Err(if actualPeriod > HARD_START then HardStartPeriodMiss else AccumulatedTimingDebt);
      }
      if actualPeriod > PERIOD_OVERRUN {
        startWarning := true;
        periodOverruns := periodOverruns + 1;
        if periodOverruns >= 2 {
          return false, Err(RepeatedPeriodOverrun);
        }
      } else {
        periodOverruns := 0;
      }
      if w.lateness > WAKE_WARNING {
        startWarning := true;
      }
    }
    if !w.commandOk {
      return false, Err(CommandFailure);
    }
    var completion := start + w.work;
    var nextRelease := l.scheduled + PERIOD;
    var completionWarning := false;
    if completion > nextRelease {
      completionMisses := completionMisses + 1;
      completionWarning := true;
      if completion > l.scheduled + HARD_COMPLETION || completionMisses >= 2 {
        return true, Err(if completion > l.scheduled + HARD_COMPLETION then HardCompletionMiss else RepeatedCompletionMiss);
      }
    } else {
      completionMisses := 0;
    }
    var scheduled := if startWarning || completionWarning then (if completionWarning then completion else start) + PERIOD
                     else nextRelease;
    return true, Ok(Loop(l.cycle + 1, scheduled, start, periodOverruns, completionMisses));
  }

  /** The whole run, one wake per cycle. `starts` are the starts of the cycles
      that issued their command. */
  method RunCycles(begin: nat, wakes: seq<Wake>) returns (starts: seq<nat>, outcome: Outcome)
    ensures SteadyStarts(starts)
    ensures starts != [] ==> starts[0] >= begin
    ensures (starts, outcome) == Trace(Loop(0, begin, begin, 0, 0), wakes)
    ensures outcome == Completed ==> |starts| == |wakes|
  {
    hide StartFault, CompletionFault, Next, After, Settled, SteadyStarts, Start;
    var l := Loop(0, begin, begin, 0, 0);
    starts := [];
    RunBegins(begin, wakes);
    for i := 0 to |wakes|
      invariant |starts| == l.cycle == i && Running(begin, l, starts)
      invariant Trace(Loop(0, begin, begin, 0, 0), wakes) == After(starts, Trace(l, wakes[i..]))
    {
      var issued, next := RunCycle(l, wakes[i]);
      assert wakes[i..][0] == wakes[i] && wakes[i..][1..] == wakes[i + 1..];
      CycleAppends(begin, l, wakes[i], starts);
      if next.Ok? {
        Reassociate(starts, [Start(l, wakes[i])], Trace(next.value, wakes[i + 1..]));
      }
      if issued {
        starts := starts + [Start(l, wakes[i])];
      }
      if next.Err? {
        return starts, next.error;
      }
      l := next.value;
    }
    assert wakes[|wakes|..] == [];
    NothingAfter(starts, Completed);
    return starts, Completed;
  }

  /** The loop between two cycles. */
  ghost predicate Running(begin: nat, l: Loop, starts: seq<nat>) {
    && SteadyStarts(starts)
    && (starts == [] ==> l == Loop(0, begin, begin, 0, 0))
    && (starts != [] ==> starts[0] >= begin && Settled(l, starts))
  }

  lemma RunBegins(begin: nat, wakes: seq<Wake>)
    ensures Running(begin, Loop(0, begin, begin, 0, 0), [])
    ensures var run := Trace(Loop(0, begin, begin, 0, 0), wakes); After([], run) == run && wakes[0..] == wakes
  {
    var run := Trace(Loop(0, begin, begin, 0, 0), wakes);
    assert [] + run.0 == run.0;
  }

  /** What one more cycle does to the starts, whether or not it ends the run. */
  lemma CycleAppends(begin: nat, l: Loop, w: Wake, starts: seq<nat>)
    requires |starts| == l.cycle && Running(begin, l, starts)
    ensures starts != [] ==> starts[0] >= begin
    ensures SteadyStarts(starts)
    ensures StartFault(l, Start(l, w)).None? && w.commandOk ==>
              SteadyStarts(starts + [Start(l, w)]) && (starts + [Start(l, w)])[0] >= begin
    ensures Step(l, w).Ok? ==> Running(begin, Step(l, w).value, starts + [Start(l, w)])
                               && Step(l, w).value.cycle == l.cycle + 1
    ensures Step(l, w).Err? ==>
              && Step(l, w).error != Completed
              && After(starts, ([], Step(l, w).error)) == (starts, Step(l, w).error)
              && After(starts, ([Start(l, w)], Step(l, w).error)) == (starts + [Start(l, w)], Step(l, w).error)
  {
    if StartFault(l, Start(l, w)).None? {
      Steady(l, starts, Start(l, w));
    }
    if Step(l, w).Err? {
      NothingAfter(starts, Step(l, w).error);
    }
  }

  /** Commands from cycle 1 on start 6 to 12 ms apart; cycle 1 itself follows
      cycle 0 within 12 ms. */
  ghost predicate SteadyStarts(starts: seq<nat>) {
    && (forall i | 0 < i < |starts| :: starts[i - 1] <= starts[i] <= starts[i - 1] + HARD_START)
    && (forall i | 1 < i < |starts| :: starts[i - 1] + 6_000_000 <= starts[i])
  }

  /** The loop variables after at least one command. */
  ghost predicate Settled(l: Loop, starts: seq<nat>) {
    && starts != [] && l.previousStart == starts[|starts| - 1]
    && l.previousStart <= l.scheduled
    && (|starts| > 1 ==> l.previousStart + 6_000_000 <= l.scheduled)
  }

  lemma NothingAfter(starts: seq<nat>, outcome: Outcome)
    ensures After(starts, ([], outcome)) == (starts, outcome)
  {
    assert starts + [] == starts;
  }

  lemma Reassociate(x: seq<nat>, y: seq<nat>, rest: (seq<nat>, Outcome))
    ensures After(x, After(y, rest)) == After(x + y, rest)
  {
    assert x + (y + rest.0) == (x + y) + rest.0;
  }

  lemma Steady(l: Loop, starts: seq<nat>, start: nat)
    requires SteadyStarts(starts) && |starts| == l.cycle && l.scheduled <= start
    requires l.cycle > 0 ==> Settled(l, starts)
    requires StartFault(l, start).None?
    ensures SteadyStarts(starts + [start])
  {
    var all := starts + [start];
    forall i | 0 < i < |all|
      ensures all[i - 1] <= all[i] <= all[i - 1] + HARD_START
      ensures i > 1 ==> all[i - 1] + 6_000_000 <= all[i]
    {
      if i < |starts| {
        assert all[i] == starts[i] && all[i - 1] == starts[i - 1];
      }
    }
  }

  /** Cycle 0 carries no lateness check, so its distance to cycle 1 has no lower
      bound: here a passing run starts them 100 microseconds apart. */
  lemma FirstGapCanCollapse()
    ensures exists wakes ::
              var run := Trace(Loop(0, 0, 0, 0, 0), wakes);
              run.1 == Completed && |run.0| == 2 && run.0[1] == run.0[0] + 100_000
  {
    var first, second := Wake(7_900_000, true, 0), Wake(0, true, 0);
    var wakes := [first, second];
    var l0 := Loop(0, 0, 0, 0, 0);
    var l1 := Loop(1, 8_000_000, 7_900_000, 0, 0);
    assert Step(l0, wakes[0]) == Ok(l1);
    assert wakes[1..] == [second];
    assert Step(l1, wakes[1..][0]).Ok?;
    assert wakes[1..][1..] == [];
    var l2 := Step(l1, second).value;
    assert Trace(l2, []) == ([], Completed);
    NothingAfter([8_000_000], Completed);
    assert Trace(l1, wakes[1..]) == ([8_000_000], Completed);
    assert Trace(l0, wakes) == After([7_900_000], Trace(l1, wakes[1..]));
    assert [7_900_000] + [8_000_000] == [7_900_000, 8_000_000];
  }

  /** Exactly when every following start is at least 6 ms after cycle 0: its
      own wake-up was no later than the warning bound, or its completion
      overran and moved the release. */
  lemma FirstGapIsSafe(begin: nat, w: Wake)
    requires Step(Loop(0, begin, begin, 0, 0), w).Ok?
    ensures var l0 := Loop(0, begin, begin, 0, 0);
            var l1 := Step(l0, w).value;
            (forall next: Wake :: Start(l1, next) >= Start(l0, w) + 6_000_000)
            <==> w.lateness <= WAKE_WARNING || w.lateness + w.work > PERIOD
  {
    var l0 := Loop(0, begin, begin, 0, 0);
    var l1 := Step(l0, w).value;
    assert Start(l1, Wake(0, true, 0)) == l1.scheduled;
  }
}
