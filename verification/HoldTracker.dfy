// The no-progress hold tracker: streaks of commands that make no progress
// towards a distant destination, their accounting and their escalation.

module HoldTrackerSpec {
  import opened Naturals

  datatype Policy = Policy(degraded: nat, hardStop: nat, maximumCycles: nat)

  /** The tracker's fields. */
  datatype Tracker = Tracker(
    active: bool, degradedReported: bool, start: nat, last: nat,
    startSequence: nat, recoverySequence: nat,
    holds: nat, recoveries: nat, degradations: nat,
    total: nat, longest: nat, cycles: nat, maximumCycles: nat)

  const IDLE: Tracker := Tracker(false, false, 0, 0, 0, 0, 0, 0, 0, 0, 0, 0, 0)

  function Began(t: Tracker, now: nat, sequence: nat): Tracker {
    if t.active then t
    else t.(active := true, start := now, startSequence := sequence, cycles := 0, degradedReported := false,
            holds := t.holds + 1)
  }

  /** One more no-progress command. The fields change even when it escalates. */
  function Hold(t: Tracker, policy: Policy, now: nat, sequence: nat): Tracker
    requires t.active ==> t.start <= now
  {
    var b := Began(t, now, sequence);
    var degrades := !b.degradedReported && now - b.start >= policy.degraded;
    b.(last := now, cycles := b.cycles + 1, maximumCycles := MaxNat(b.maximumCycles, b.cycles + 1),
       degradedReported := b.degradedReported || degrades,
       degradations := b.degradations + if degrades then 1 else 0)
  }

  predicate Escalates(t: Tracker, policy: Policy, now: nat)
    requires t.start <= now
  {
    now - t.start >= policy.hardStop || t.cycles > policy.maximumCycles
  }

  function Recover(t: Tracker, now: nat, sequence: nat): Tracker
    requires t.active ==> t.start <= now
  {
    if !t.active then t
    else t.(total := t.total + (now - t.start), longest := MaxNat(t.longest, now - t.start),
            recoverySequence := sequence, recoveries := t.recoveries + 1, active := false, cycles := 0)
  }

  /** The end of the session closes a streak without counting a recovery. */
  function Finalize(t: Tracker, end: nat): Tracker {
    if !t.active then t
    else
      var duration := if end >= t.start then end - t.start else 0;
      t.(total := t.total + duration, longest := MaxNat(t.longest, duration), active := false)
  }
}

module HoldTracker {
  import opened Naturals
  import opened Spec = HoldTrackerSpec

  class OutputNoProgressHoldTracker {
    const policy: Policy
    var active: bool
    var degradedReported: bool
    var start: nat
    var last: nat
    var startSequence: nat
    var recoverySequence: nat
    var holds: nat
    var recoveries: nat
    var degradations: nat
    var total: nat
    var longest: nat
    var cycles: nat
    var maximumCycles: nat

    ghost function Snapshot(): Tracker
      reads this
    {
      Tracker(active, degradedReported, start, last, startSequence, recoverySequence, holds, recoveries, degradations,
              total, longest, cycles, maximumCycles)
    }

    constructor (policy: Policy)
      ensures this.policy == policy && Snapshot() == IDLE
    {
      this.policy := policy;
      active, degradedReported := false, false;
      start, last, startSequence, recoverySequence := 0, 0, 0, 0;
      holds, recoveries, degradations := 0, 0, 0;
      total, longest, cycles, maximumCycles := 0, 0, 0, 0;
    }

    method Begin(now: nat, sequence: nat) returns (started: bool)
      modifies this
      ensures Snapshot() == Began(old(Snapshot()), now, sequence)
      ensures started <==> !old(active)
    {
      started := false;
      if !active {
        active := true;
        start, startSequence := now, sequence;
        cycles, degradedReported := 0, false;
        holds := holds + 1;
        started := true;
      }
    }

    method Hold(now: nat, sequence: nat) returns (escalated: bool, duration: nat, started: bool, degraded: bool)
      requires active ==> start <= now
      modifies this
      ensures Snapshot() == Spec.Hold(old(Snapshot()), policy, now, sequence)
      ensures start <= now && (escalated <==> Escalates(Snapshot(), policy, now))
      ensures duration == now - start && (started <==> !old(active))
      ensures degraded <==> degradations == old(degradations) + 1
    {
      started := Begin(now, sequence);
      degraded := false;
      last := now;
      cycles := cycles + 1;
      maximumCycles := MaxNat(maximumCycles, cycles);
      duration := now - start;
      if !degradedReported && duration >= policy.degraded {
        degradedReported := true;
        degraded := true;
        degradations := degradations + 1;
      }
      escalated := duration >= policy.hardStop || cycles > policy.maximumCycles;
    }

    method Recover(now: nat, sequence: nat) returns (duration: nat)
      requires active ==> start <= now
      modifies this
      ensures Snapshot() == Spec.Recover(old(Snapshot()), now, sequence)
      ensures duration == if old(active) then now - old(start) else 0
    {
      if !active {
        return 0;
      }
      duration := now - start;
      total := total + duration;
      longest := MaxNat(longest, duration);
      recoverySequence := sequence;
      recoveries := recoveries + 1;
      active, cycles := false, 0;
    }

    method Finalize(end: nat)
      modifies this
      ensures Snapshot() == Spec.Finalize(old(Snapshot()), end)
    {
      if !active {
        return;
      }
      var duration := if end >= start then end - start else 0;
      total := total + duration;
      longest := MaxNat(longest, duration);
      active := false;
    }
  }
}

module HoldAccounting {
  import opened Spec = HoldTrackerSpec

  /** What the worker reports to the tracker over a session, oldest first. */
  datatype Event = Stall(time: nat, sequence: nat) | Progress(time: nat, sequence: nat)

  /** A finished streak: the times of its stalls, and when progress ended it. */
  datatype Streak = Streak(stalls: seq<nat>, end: nat)

  function Duration(s: Streak): nat {
    if s.stalls != [] && s.end >= s.stalls[0] then s.end - s.stalls[0] else 0
  }

  // ---- the session as a list of streaks ------------------------------------

  /** The stalls since the last progress. */
  function Open(events: seq<Event>): (stalls: seq<nat>)
    decreases |events|
  {
    if events == [] then []
    else
      var e := events[|events| - 1];
      if e.Stall? then Open(events[..|events| - 1]) + [e.time] else []
  }

  /** The finished streaks: maximal blocks of stalls that progress followed. */
  function Closed(events: seq<Event>): seq<Streak>
    decreases |events|
  {
    if events == [] then []
    else
      var before := events[..|events| - 1];
      var e := events[|events| - 1];
      if e.Progress? && Open(before) != [] then Closed(before) + [Streak(Open(before), e.time)] else Closed(before)
  }

  function Total(streaks: seq<Streak>): nat
    decreases |streaks|
  {
    if streaks == [] then 0 else Total(streaks[..|streaks| - 1]) + Duration(streaks[|streaks| - 1])
  }

  /** Some stall came at least the threshold after the first one. */
  predicate Degraded(stalls: seq<nat>, threshold: nat) {
    exists i | 0 <= i < |stalls| :: stalls[i] >= stalls[0] + threshold
  }

  function CountDegraded(streaks: seq<Streak>, threshold: nat): nat
    decreases |streaks|
  {
    if streaks == [] then 0
    else CountDegraded(streaks[..|streaks| - 1], threshold)
         + if Degraded(streaks[|streaks| - 1].stalls, threshold) then 1 else 0
  }

  /** Command times never go back. */
  ghost predicate Ordered(events: seq<Event>) {
    forall i, j | 0 <= i <= j < |events| :: events[i].time <= events[j].time
  }

  // ---- the tracker over a session ------------------------------------------

  function Update(t: Tracker, policy: Policy, e: Event): Tracker
    requires t.active ==> t.start <= e.time
  {
    match e
    case Stall(time, sequence) => Hold(t, policy, time, sequence)
    case Progress(time, sequence) => Recover(t, time, sequence)
  }

  /** The tracker's counters are those of the list of streaks. */
  ghost predicate Accounts(t: Tracker, policy: Policy, closed: seq<Streak>, open: seq<nat>) {
    && (t.active <==> open != [])
    && (t.active ==> t.start == open[0] && t.cycles == |open| && (t.degradedReported <==> Degraded(open, policy.degraded)))
    && t.holds == |closed| + (if open != [] then 1 else 0)
    && t.recoveries == |closed|
    && t.total == Total(closed)
    && (forall i | 0 <= i < |closed| :: Duration(closed[i]) <= t.longest)
    && (t.longest == 0 || exists i | 0 <= i < |closed| :: Duration(closed[i]) == t.longest)
    && t.degradations == CountDegraded(closed, policy.degraded) + (if Degraded(open, policy.degraded) then 1 else 0)
    && (forall i | 0 <= i < |closed| :: |closed[i].stalls| <= t.maximumCycles)
    && |open| <= t.maximumCycles
    && (|open| == t.maximumCycles || exists i | 0 <= i < |closed| :: |closed[i].stalls| == t.maximumCycles)
  }

  lemma StallAccounts(t: Tracker, policy: Policy, closed: seq<Streak>, open: seq<nat>, now: nat, sequence: nat)
    requires Accounts(t, policy, closed, open) && (open != [] ==> open[0] <= now)
    ensures Accounts(Hold(t, policy, now, sequence), policy, closed, open + [now])
  {
    var next := open + [now];
    assert next[0] == if open != [] then open[0] else now;
    assert Degraded(next, policy.degraded) <==> Degraded(open, policy.degraded) || now >= next[0] + policy.degraded by {
      if Degraded(open, policy.degraded) {
        var i :| 0 <= i < |open| && open[i] >= open[0] + policy.degraded;
        assert next[i] == open[i];
      }
      if now >= next[0] + policy.degraded {
        assert next[|open|] == now;
      }
    }
  }

  lemma ProgressAccounts(t: Tracker, policy: Policy, closed: seq<Streak>, open: seq<nat>, now: nat, sequence: nat)
    requires Accounts(t, policy, closed, open) && open != [] && open[0] <= now
    ensures Accounts(Recover(t, now, sequence), policy, closed + [Streak(open, now)], [])
  {
    var s := Streak(open, now);
    var all := closed + [s];
    assert all[..|all| - 1] == closed && all[|closed|] == s;
    var r := Recover(t, now, sequence);
    if |open| == t.maximumCycles {
      assert |all[|closed|].stalls| == r.maximumCycles;
    } else {
      var i :| 0 <= i < |closed| && |closed[i].stalls| == t.maximumCycles;
      assert |all[i].stalls| == r.maximumCycles;
    }
    if r.longest == Duration(s) {
      assert Duration(all[|closed|]) == r.longest;
    } else {
      var i :| 0 <= i < |closed| && Duration(closed[i]) == t.longest;
      assert Duration(all[i]) == r.longest;
    }
  }

  lemma UpdateAccounts(t: Tracker, policy: Policy, events: seq<Event>)
    requires events != []
    requires var before := events[..|events| - 1];
             && Accounts(t, policy, Closed(before), Open(before))
             && (Open(before) != [] ==> Open(before)[0] <= events[|events| - 1].time)
    ensures t.active ==> t.start <= events[|events| - 1].time
    ensures Accounts(Update(t, policy, events[|events| - 1]), policy, Closed(events), Open(events))
  {
    var before, e := events[..|events| - 1], events[|events| - 1];
    if e.Stall? {
      StallAccounts(t, policy, Closed(before), Open(before), e.time, e.sequence);
    } else if Open(before) != [] {
      ProgressAccounts(t, policy, Closed(before), Open(before), e.time, e.sequence);
    }
  }

  lemma OrderedPrefix(events: seq<Event>)
    requires Ordered(events) && events != []
    ensures Ordered(events[..|events| - 1])
    ensures |events| > 1 ==> events[|events| - 2].time <= events[|events| - 1].time
  {
    var before := events[..|events| - 1];
    forall i, j | 0 <= i <= j < |before|
      ensures before[i].time <= before[j].time
    {
      assert events[i].time <= events[j].time;
    }
  }

  lemma {:induction false} OpenIsPast(events: seq<Event>)
    requires Ordered(events)
    ensures forall i | 0 <= i < |Open(events)| :: Open(events)[i] <= events[|events| - 1].time
    decreases |events|
  {
    if events != [] {
      OrderedPrefix(events);
      OpenIsPast(events[..|events| - 1]);
    }
  }

  /** Every counter of the tracker is the corresponding statistic of the
      session's streaks, whatever the session was. */
  lemma {:induction false} TrackerAccounts(events: seq<Event>, policy: Policy) returns (t: Tracker)
    requires Ordered(events)
    ensures t == After(events, policy)
    ensures Accounts(t, policy, Closed(events), Open(events))
    ensures Open(events) != [] ==> Open(events)[0] <= events[|events| - 1].time
    decreases |events|
  {
    OpenIsPast(events);
    t := After(events, policy);
    if events == [] {
      assert Accounts(t, policy, [], []);
    } else {
      hide Accounts;
      OrderedPrefix(events);
      var s := TrackerAccounts(events[..|events| - 1], policy);
      UpdateAccounts(s, policy, events);
    }
  }

  /** The tracker after a session; clamped where times would go back. */
  function After(events: seq<Event>, policy: Policy): Tracker
    decreases |events|
  {
    if events == [] then IDLE
    else
      var t := After(events[..|events| - 1], policy);
      var e := events[|events| - 1];
      if t.active && t.start > e.time then t else Update(t, policy, e)
  }

  lemma TotalBoundsEach(streaks: seq<Streak>, i: nat)
    requires i < |streaks|
    ensures Duration(streaks[i]) <= Total(streaks)
    decreases |streaks|
  {
    if i < |streaks| - 1 {
      TotalBoundsEach(streaks[..|streaks| - 1], i);
    }
  }

  lemma {:induction false} DegradedAtMostAll(streaks: seq<Streak>, threshold: nat)
    ensures CountDegraded(streaks, threshold) <= |streaks|
    decreases |streaks|
  {
    if streaks != [] {
      DegradedAtMostAll(streaks[..|streaks| - 1], threshold);
    }
  }

  /** The session accounting: holds are recoveries plus the open streak, the
      longest duration is bounded by the total, degradations by the holds. */
  lemma AccountingHolds(events: seq<Event>, policy: Policy)
    requires Ordered(events)
    ensures var t := After(events, policy);
            && t.holds == t.recoveries + (if t.active then 1 else 0)
            && t.longest <= t.total == Total(Closed(events))
            && t.degradations <= t.holds
  {
    var t := TrackerAccounts(events, policy);
    DegradedAtMostAll(Closed(events), policy.degraded);
    if t.longest > 0 {
      var i :| 0 <= i < |Closed(events)| && Duration(Closed(events)[i]) == t.longest;
      TotalBoundsEach(Closed(events), i);
    }
  }

  /** A stall that does not escalate leaves a streak within the policy. */
  lemma QuietStallIsWithinPolicy(events: seq<Event>, policy: Policy, now: nat, sequence: nat)
    requires Ordered(events + [Stall(now, sequence)])
    ensures var t := After(events + [Stall(now, sequence)], policy);
            && t.active && t.start <= now
            && (!Escalates(t, policy, now) <==>
                 && |Open(events + [Stall(now, sequence)])| <= policy.maximumCycles
                 && now - Open(events + [Stall(now, sequence)])[0] < policy.hardStop)
  {
    var all := events + [Stall(now, sequence)];
    assert all[..|all| - 1] == events;
    var t := TrackerAccounts(all, policy);
    assert Open(all)[0] <= now;
  }

  /** Closing the session adds the open streak to the total and the longest,
      and counts no recovery. */
  lemma FinalizedAccounts(events: seq<Event>, policy: Policy, end: nat)
    requires Ordered(events)
    ensures var t := Finalize(After(events, policy), end);
            var streaks := if Open(events) == [] then Closed(events) else Closed(events) + [Streak(Open(events), end)];
            && !t.active && t.total == Total(streaks) && t.holds == |streaks|
            && (forall i | 0 <= i < |streaks| :: Duration(streaks[i]) <= t.longest)
  {
    var t := TrackerAccounts(events, policy);
    if Open(events) != [] {
      var streaks := Closed(events) + [Streak(Open(events), end)];
      assert streaks[..|streaks| - 1] == Closed(events);
    }
  }

  /** The stall that opened the last streak, the progress that ended the last
      finished one, and the last stall. */
  function Opening(events: seq<Event>): nat
    decreases |events|
  {
    if events == [] then 0
    else
      var before, e := events[..|events| - 1], events[|events| - 1];
      if e.Stall? && Open(before) == [] then e.sequence else Opening(before)
  }

  function Ending(events: seq<Event>): nat
    decreases |events|
  {
    if events == [] then 0
    else
      var before, e := events[..|events| - 1], events[|events| - 1];
      if e.Progress? && Open(before) != [] then e.sequence else Ending(before)
  }

  function LastStall(events: seq<Event>): nat
    decreases |events|
  {
    if events == [] then 0
    else if events[|events| - 1].Stall? then events[|events| - 1].time else LastStall(events[..|events| - 1])
  }

  /** The sequences the tracker reports are those of these events. */
  lemma {:induction false} SequencesAreReported(events: seq<Event>, policy: Policy)
    requires Ordered(events)
    ensures var t := After(events, policy);
            t.startSequence == Opening(events) && t.recoverySequence == Ending(events) && t.last == LastStall(events)
    decreases |events|
  {
    if events != [] {
      var before := events[..|events| - 1];
      OrderedPrefix(events);
      SequencesAreReported(before, policy);
      var t := TrackerAccounts(before, policy);
      var u := TrackerAccounts(events, policy);
    }
  }
}
