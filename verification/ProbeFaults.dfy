// What the probe's loop does to a whole run, without its loop variables: every
// release and start, and exactly which fault ends the run, if any.

module ProbeFaults {
  import opened Results
  import opened ZeroMotionProbe

  /** The release of cycle k: one period after the last one, after a late start,
      or after a late completion. */
  function Release(begin: nat, wakes: seq<Wake>, k: nat): nat
    requires k <= |wakes|
    decreases k, 0
  {
    if k == 0 then begin
    else if DoneAt(begin, wakes, k - 1) > Release(begin, wakes, k - 1) + 8_000_000 then DoneAt(begin, wakes, k - 1) + 8_000_000
    else if LateAt(begin, wakes, k - 1) then StartAt(begin, wakes, k - 1) + 8_000_000
    else Release(begin, wakes, k - 1) + 8_000_000
  }

  function StartAt(begin: nat, wakes: seq<Wake>, k: nat): nat
    requires k < |wakes|
    decreases k, 1
  {
    Release(begin, wakes, k) + wakes[k].lateness
  }

  function DoneAt(begin: nat, wakes: seq<Wake>, k: nat): nat
    requires k < |wakes|
    decreases k, 2
  {
    StartAt(begin, wakes, k) + wakes[k].work
  }

  /** From cycle 1 on: more than 0.8 ms over the period since the last start. */
  predicate OverrunAt(begin: nat, wakes: seq<Wake>, k: nat)
    requires k < |wakes|
    decreases k, 3
  {
    k > 0 && StartAt(begin, wakes, k) - StartAt(begin, wakes, k - 1) > 8_800_000
  }

  predicate LateAt(begin: nat, wakes: seq<Wake>, k: nat)
    requires k < |wakes|
    decreases k, 4
  {
    k > 0 && (OverrunAt(begin, wakes, k) || wakes[k].lateness > 2_000_000)
  }

  predicate MissedAt(begin: nat, wakes: seq<Wake>, k: nat)
    requires k < |wakes|
  {
    DoneAt(begin, wakes, k) > Release(begin, wakes, k) + 8_000_000
  }

  /** The fault of cycle k, if the run gets there. */
  function FaultAt(begin: nat, wakes: seq<Wake>, k: nat): Option<Outcome>
    requires k < |wakes|
  {
    if k > 0 && StartAt(begin, wakes, k) - StartAt(begin, wakes, k - 1) > 12_000_000 then Some(HardStartPeriodMiss)
    else if k > 0 && wakes[k].lateness >= 8_000_000 then Some(AccumulatedTimingDebt)
    else if k > 0 && OverrunAt(begin, wakes, k) && OverrunAt(begin, wakes, k - 1) then Some(RepeatedPeriodOverrun)
    else if !wakes[k].commandOk then Some(CommandFailure)
    else if DoneAt(begin, wakes, k) > Release(begin, wakes, k) + 12_000_000 then Some(HardCompletionMiss)
    else if k > 0 && MissedAt(begin, wakes, k) && MissedAt(begin, wakes, k - 1) then Some(RepeatedCompletionMiss)
    else None
  }

  predicate NoFaults(begin: nat, wakes: seq<Wake>, n: nat)
    requires n <= |wakes|
  {
    forall k: nat | k < n :: FaultAt(begin, wakes, k) == None
  }

  /** The starts of the first n cycles. */
  function Starts(begin: nat, wakes: seq<Wake>, n: nat): seq<nat>
    requires n <= |wakes|
  {
    seq(n, k requires 0 <= k < n => StartAt(begin, wakes, k))
  }

  /** Whether a fault comes after the cycle's command. */
  predicate AfterCommand(f: Outcome) {
    f == HardCompletionMiss || f == RepeatedCompletionMiss
  }

  /** The starts and the outcome of a run: up to its first fault, or all of it. */
  ghost predicate Described(begin: nat, wakes: seq<Wake>, run: (seq<nat>, Outcome)) {
    || (NoFaults(begin, wakes, |wakes|) && run == (Starts(begin, wakes, |wakes|), Completed))
    || exists k: nat | k < |wakes| ::
         && NoFaults(begin, wakes, k) && FaultAt(begin, wakes, k) == Some(run.1)
         && run.0 == Starts(begin, wakes, if AfterCommand(run.1) then k + 1 else k)
  }

  // ---- the loop variables say the same --------------------------------------------

  ghost predicate Tied(l: Loop, begin: nat, wakes: seq<Wake>, n: nat)
    requires n <= |wakes|
  {
    && l.cycle == n && l.scheduled == Release(begin, wakes, n)
    && (n > 0 ==> l.previousStart == StartAt(begin, wakes, n - 1))
    && (l.periodOverruns > 0 <==> n > 0 && OverrunAt(begin, wakes, n - 1))
    && (l.completionMisses > 0 <==> n > 0 && MissedAt(begin, wakes, n - 1))
  }

  lemma StepMeans(l: Loop, begin: nat, wakes: seq<Wake>, n: nat)
    requires n < |wakes| && Tied(l, begin, wakes, n)
    ensures Start(l, wakes[n]) == StartAt(begin, wakes, n)
    ensures var fault := FaultAt(begin, wakes, n);
            && (fault.Some? ==> Step(l, wakes[n]) == Err(fault.value)
                                && (AfterCommand(fault.value) <==> StartFault(l, Start(l, wakes[n])).None? && wakes[n].commandOk))
            && (fault.None? ==> Step(l, wakes[n]).Ok? && Tied(Step(l, wakes[n]).value, begin, wakes, n + 1))
  {
    ReleaseNext(begin, wakes, n);
    var next := Next(l, Start(l, wakes[n]), DoneAt(begin, wakes, n));
    assert next.scheduled == Release(begin, wakes, n + 1);
  }

  lemma ReleaseNext(begin: nat, wakes: seq<Wake>, k: nat)
    requires k < |wakes|
    ensures StartAt(begin, wakes, k) == Release(begin, wakes, k) + wakes[k].lateness
    ensures DoneAt(begin, wakes, k) == StartAt(begin, wakes, k) + wakes[k].work
    ensures Release(begin, wakes, k + 1)
         == (if MissedAt(begin, wakes, k) then DoneAt(begin, wakes, k)
             else if LateAt(begin, wakes, k) then StartAt(begin, wakes, k) else Release(begin, wakes, k)) + 8_000_000
  {
  }

  lemma StartsAppend(begin: nat, wakes: seq<Wake>, n: nat)
    requires n < |wakes|
    ensures Starts(begin, wakes, n) + [StartAt(begin, wakes, n)] == Starts(begin, wakes, n + 1)
  {
    hide StartAt;
  }

  lemma {:induction false} TraceMeans(l: Loop, begin: nat, wakes: seq<Wake>, n: nat)
    requires n <= |wakes| && Tied(l, begin, wakes, n) && NoFaults(begin, wakes, n)
    ensures Described(begin, wakes, After(Starts(begin, wakes, n), Trace(l, wakes[n..])))
    decreases |wakes| - n
  {
    hide Release, StartAt, FaultAt, Step, StartFault, Start;
    var before := Starts(begin, wakes, n);
    if n == |wakes| {
      NothingAfter(before, Completed);
    } else {
      assert wakes[n..][0] == wakes[n] && wakes[n..][1..] == wakes[n + 1..];
      StepMeans(l, begin, wakes, n);
      StartsAppend(begin, wakes, n);
      hide Tied;
      var fault := FaultAt(begin, wakes, n);
      if fault.None? {
        var next := Step(l, wakes[n]).value;
        Reassociate(before, [StartAt(begin, wakes, n)], Trace(next, wakes[n + 1..]));
        TraceMeans(next, begin, wakes, n + 1);
      } else {
        NothingAfter(before, fault.value);
      }
    }
  }

  /** Every run of the probe. */
  lemma RunIsDescribed(begin: nat, wakes: seq<Wake>)
    ensures Described(begin, wakes, Trace(Loop(0, begin, begin, 0, 0), wakes))
  {
    hide FaultAt, Trace, Described;
    var l := Loop(0, begin, begin, 0, 0);
    assert wakes[0..] == wakes && Starts(begin, wakes, 0) == [];
    TraceMeans(l, begin, wakes, 0);
    var run := Trace(l, wakes);
    assert [] + run.0 == run.0;
  }

  /** Wake-ups within 0.8 ms and completions within the period never fault. */
  lemma OnTimeCompletes(begin: nat, wakes: seq<Wake>)
    requires forall k | 0 <= k < |wakes| ::
               wakes[k].commandOk && wakes[k].lateness <= 800_000 && wakes[k].lateness + wakes[k].work <= 8_000_000
    ensures NoFaults(begin, wakes, |wakes|)
  {
    forall k: nat | k < |wakes|
      ensures FaultAt(begin, wakes, k) == None
    {
      OnTimeCycle(begin, wakes, k);
      if k > 0 {
        OnTimeCycle(begin, wakes, k - 1);
      }
    }
  }

  lemma OnTimeCycle(begin: nat, wakes: seq<Wake>, k: nat)
    requires k < |wakes|
    requires forall i | 0 <= i < |wakes| :: wakes[i].lateness <= 800_000 && wakes[i].lateness + wakes[i].work <= 8_000_000
    ensures !MissedAt(begin, wakes, k) && !OverrunAt(begin, wakes, k) && !LateAt(begin, wakes, k)
    ensures k > 0 ==> Release(begin, wakes, k) == Release(begin, wakes, k - 1) + 8_000_000
    decreases k
  {
    ReleaseNext(begin, wakes, k);
    if k > 0 {
      OnTimeCycle(begin, wakes, k - 1);
      ReleaseNext(begin, wakes, k - 1);
    }
  }
}
