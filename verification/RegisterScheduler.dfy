// The read-only register stream of the hand: five sources, earliest due first,
// each on its own fixed grid.

module RegisterSchedule {
  import opened Results

  // A source is its priority: angle 0, status 1, error 2, current 3, force 4.

  /** When an iteration looks at the clock, and when its read completes. */
  datatype Moment = Moment(now: int, completed: int)

  /** One due time and one period per source. */
  predicate WellFormed(due: seq<int>, periods: seq<nat>) {
    |due| == |periods| && forall i | 0 <= i < |periods| :: periods[i] >= 1
  }

  /** Earlier due time first, then the smaller priority number. */
  predicate Before(due: seq<int>, i: nat, j: nat)
    requires i < |due| && j < |due|
  {
    due[i] < due[j] || (due[i] == due[j] && i < j)
  }

  /** The first of the sources before n that are due. */
  function Pick(due: seq<int>, now: int, n: nat): (r: Option<nat>)
    requires n <= |due|
    ensures r.Some? ==> r.value < n
  {
    if n == 0 then None
    else
      match Pick(due, now, n - 1)
      case None => if due[n - 1] <= now then Some(n - 1) else None
      case Some(i) => if due[n - 1] <= now && due[n - 1] < due[i] then Some(n - 1) else Some(i)
  }

  lemma {:induction false} PickIsFirst(due: seq<int>, now: int, n: nat)
    requires n <= |due|
    ensures match Pick(due, now, n)
            case None => forall j | 0 <= j < n :: due[j] > now
            case Some(i) =>
              && i < n && due[i] <= now
              && (forall j | 0 <= j < n && due[j] <= now && j != i :: Before(due, i, j))
    decreases n
  {
    if n > 0 {
      PickIsFirst(due, now, n - 1);
    }
  }

  /** The next grid point after the completion. */
  function NextDue(due: int, period: nat, completed: int): int
    requires period >= 1
  {
    var next := due + period;
    if next <= completed then next + ((completed - next) / period + 1) * period else next
  }

  ghost predicate OnGrid(from: int, point: int, period: nat) {
    exists k: nat :: point == GridPoint(from, period, k)
  }

  function GridPoint(from: int, period: nat, k: nat): int {
    from + k * period
  }

  /** The next due time is the first later grid point after the completion. */
  lemma NextDueIsNext(due: int, period: nat, completed: int) returns (k: nat)
    requires period >= 1
    ensures k >= 1 && NextDue(due, period, completed) == GridPoint(due, period, k)
    ensures NextDue(due, period, completed) > completed
    ensures k > 1 ==> NextDue(due, period, completed) - period <= completed
  {
    var next := due + period;
    if next <= completed {
      var q := (completed - next) / period;
      assert completed - next == q * period + (completed - next) % period;
      k := q + 2;
      assert (q + 1) * period == q * period + period;
      assert k * period == (q + 1) * period + period;
    } else {
      k := 1;
    }
  }

  function Serve(due: seq<int>, periods: seq<nat>, i: nat, completed: int): seq<int>
    requires WellFormed(due, periods) && i < |due|
  {
    due[i := NextDue(due[i], periods[i], completed)]
  }

  /** One iteration: idle, or one read. */
  function Step(due: seq<int>, periods: seq<nat>, m: Moment): (r: (seq<int>, Option<nat>))
    requires WellFormed(due, periods)
    ensures WellFormed(r.0, periods)
  {
    match Pick(due, m.now, |due|)
    case None => (due, None)
    case Some(i) =>
      PickIsFirst(due, m.now, |due|);
      (Serve(due, periods, i, m.completed), Some(i))
  }

  /** A clock that never goes back. */
  predicate Ordered(clock: seq<Moment>) {
    && (forall k | 0 <= k < |clock| :: clock[k].now <= clock[k].completed)
    && (forall k | 0 < k < |clock| :: clock[k - 1].completed <= clock[k].now)
  }

  /** The due times before iteration k. */
  function DueAt(due: seq<int>, periods: seq<nat>, clock: seq<Moment>, k: nat): (r: seq<int>)
    requires WellFormed(due, periods) && k <= |clock|
    ensures WellFormed(r, periods) && |r| == |due|
    decreases k
  {
    if k == 0 then due else Step(DueAt(due, periods, clock, k - 1), periods, clock[k - 1]).0
  }

  /** The source read in iteration k. */
  function ServedAt(due: seq<int>, periods: seq<nat>, clock: seq<Moment>, k: nat): Option<nat>
    requires WellFormed(due, periods) && k < |clock|
  {
    Step(DueAt(due, periods, clock, k), periods, clock[k]).1
  }
}

module RegisterScheduler {
  import opened Results
  import opened RegisterSchedule

  class RH56ReadOnlyStream {
    const periods: seq<nat>
    var due: seq<int>
    var successes: seq<nat>

    ghost predicate Valid()
      reads this
    {
      WellFormed(due, periods) && |successes| == |periods|
    }

    constructor (periods: seq<nat>, start: seq<int>)
      requires WellFormed(start, periods)
      ensures Valid() && this.periods == periods && due == start
      ensures successes == seq(|periods|, _ => 0)
    {
      this.periods := periods;
      due := start;
      successes := seq(|periods|, _ => 0);
    }

    method PickReady(now: int) returns (chosen: Option<nat>)
      requires Valid()
      ensures chosen == Pick(due, now, |due|)
    {
      chosen := None;
      for i := 0 to |due|
        invariant chosen == Pick(due, now, i)
        invariant chosen.Some? ==> chosen.value < i
      {
        if due[i] <= now && (chosen.None? || due[i] < due[chosen.value]) {
          chosen := Some(i);
        }
      }
    }

    /** One iteration; the read itself takes until `completed`. */
    method Iterate(m: Moment) returns (served: Option<nat>)
      requires Valid()
      modifies this
      ensures Valid()
      ensures (due, served) == Step(old(due), periods, m)
      ensures successes == if served.Some? then old(successes)[served.value := old(successes)[served.value] + 1]
                           else old(successes)
    {
      PickIsFirst(due, m.now, |due|);
      served := PickReady(m.now);
      if served.Some? {
        var i := served.value;
        successes := successes[i := successes[i] + 1];
        var period := periods[i];
        var next := due[i] + period;
        if next <= m.completed {
          next := next + ((m.completed - next) / period + 1) * period;
        }
        due := due[i := next];
      }
    }
  }

  /** The reading loop over a given clock. */
  method RunStream(periods: seq<nat>, start: seq<int>, clock: seq<Moment>) returns (served: seq<Option<nat>>)
    requires WellFormed(start, periods)
    ensures |served| == |clock|
    ensures forall k | 0 <= k < |clock| :: served[k] == ServedAt(start, periods, clock, k)
  {
    served := [];
    var stream := new RH56ReadOnlyStream(periods, start);
    for k := 0 to |clock|
      invariant fresh(stream) && stream.Valid() && stream.periods == periods && |served| == k
      invariant stream.due == DueAt(start, periods, clock, k)
      invariant forall l | 0 <= l < k :: served[l] == ServedAt(start, periods, clock, l)
    {
      var source := stream.Iterate(clock[k]);
      served := served + [source];
    }
  }

  // ---- bounded waiting -----------------------------------------------------

  /** How many of the first n sources may still be read before source i. */
  function InFront(due: seq<int>, i: nat, n: nat): nat
    requires i < |due| && n <= |due|
  {
    if n == 0 then 0 else InFront(due, i, n - 1) + if n - 1 != i && Before(due, n - 1, i) then 1 else 0
  }

  function Waiting(due: seq<int>, i: nat): nat
    requires i < |due|
  {
    InFront(due, i, |due|)
  }

  lemma {:induction false} InFrontIsBounded(due: seq<int>, i: nat, n: nat)
    requires i < |due| && n <= |due|
    ensures InFront(due, i, n) <= n - if i < n then 1 else 0
    decreases n
  {
    if n > 0 {
      InFrontIsBounded(due, i, n - 1);
    }
  }

  lemma {:induction false} OneFewer(due: seq<int>, i: nat, j: nat, later: int, n: nat)
    requires i < |due| && j < |due| && n <= |due| && i != j
    requires Before(due, j, i) && later > due[i]
    ensures InFront(due[j := later], i, n) + (if j < n then 1 else 0) == InFront(due, i, n)
    decreases n
  {
    if n > 0 {
      OneFewer(due, i, j, later, n - 1);
    }
  }

  /** A read of another source that completes once source i is due was in front
      of it and is behind it afterwards. */
  lemma ReadGoesBehind(due: seq<int>, periods: seq<nat>, m: Moment, i: nat)
    requires WellFormed(due, periods) && i < |due| && m.now <= m.completed && due[i] <= m.completed
    requires Step(due, periods, m).1.Some? && Step(due, periods, m).1 != Some(i)
    ensures var r := Step(due, periods, m);
            && r.0[i] == due[i] && Waiting(r.0, i) + 1 == Waiting(due, i)
  {
    PickIsFirst(due, m.now, |due|);
    var j := Step(due, periods, m).1.value;
    var k := NextDueIsNext(due[j], periods[j], m.completed);
    OneFewer(due, i, j, NextDue(due[j], periods[j], m.completed), |due|);
  }

  /** How many iterations in [from, until) read something. */
  function Reads(due: seq<int>, periods: seq<nat>, clock: seq<Moment>, from: nat, until: nat): nat
    requires WellFormed(due, periods) && from <= until <= |clock|
    decreases until
  {
    if from == until then 0
    else Reads(due, periods, clock, from, until - 1) + if ServedAt(due, periods, clock, until - 1).Some? then 1 else 0
  }

  lemma {:induction false} ClockGrows(clock: seq<Moment>, k: nat, l: nat)
    requires Ordered(clock) && k <= l < |clock|
    ensures clock[k].now <= clock[l].now && clock[k].completed <= clock[l].completed
    decreases l
  {
    if k < l {
      ClockGrows(clock, k, l - 1);
    }
  }

  lemma {:induction false} WaitingShrinks(due: seq<int>, periods: seq<nat>, clock: seq<Moment>, i: nat, from: nat,
                                          until: nat)
    requires WellFormed(due, periods) && Ordered(clock) && i < |due| && from <= until <= |clock|
    requires from < |clock| ==> DueAt(due, periods, clock, from)[i] <= clock[from].completed
    requires forall k | from <= k < until :: ServedAt(due, periods, clock, k) != Some(i)
    ensures DueAt(due, periods, clock, until)[i] == DueAt(due, periods, clock, from)[i]
    ensures Waiting(DueAt(due, periods, clock, until), i) + Reads(due, periods, clock, from, until)
         == Waiting(DueAt(due, periods, clock, from), i)
    decreases until
  {
    if from < until {
      WaitingShrinks(due, periods, clock, i, from, until - 1);
      var before := DueAt(due, periods, clock, until - 1);
      ClockGrows(clock, from, until - 1);
      assert DueAt(due, periods, clock, until) == Step(before, periods, clock[until - 1]).0;
      assert ServedAt(due, periods, clock, until - 1) != Some(i);
      if ServedAt(due, periods, clock, until - 1).Some? {
        ReadGoesBehind(before, periods, clock[until - 1], i);
      }
    }
  }

  /** How many iterations in [from, until) read source j. */
  function ReadsOf(due: seq<int>, periods: seq<nat>, clock: seq<Moment>, j: nat, from: nat, until: nat): nat
    requires WellFormed(due, periods) && from <= until <= |clock|
    decreases until
  {
    if from == until then 0
    else ReadsOf(due, periods, clock, j, from, until - 1)
         + if ServedAt(due, periods, clock, until - 1) == Some(j) then 1 else 0
  }

  /** A source that is due and not read stays due. */
  lemma StaysDue(due: seq<int>, periods: seq<nat>, clock: seq<Moment>, i: nat, from: nat, until: nat)
    requires WellFormed(due, periods) && Ordered(clock) && i < |due| && from <= until < |clock|
    requires DueAt(due, periods, clock, from)[i] <= clock[from].completed
    requires forall k | from <= k < until :: ServedAt(due, periods, clock, k) != Some(i)
    ensures DueAt(due, periods, clock, until)[i] <= clock[until].completed
  {
    hide DueAt, ServedAt, Reads, Waiting;
    WaitingShrinks(due, periods, clock, i, from, until);
    ClockGrows(clock, from, until);
  }

  /** A source read while source i is due falls behind it, and so is not read
      again before it. */
  lemma {:induction false} OncePerSource(due: seq<int>, periods: seq<nat>, clock: seq<Moment>, i: nat, j: nat,
                                         from: nat, until: nat)
    requires WellFormed(due, periods) && Ordered(clock) && i < |due| && j < |due| && from <= until <= |clock|
    requires from < |clock| ==> DueAt(due, periods, clock, from)[i] <= clock[from].completed
    requires forall k | from <= k < until :: ServedAt(due, periods, clock, k) != Some(i)
    ensures ReadsOf(due, periods, clock, j, from, until) <= 1
    ensures ReadsOf(due, periods, clock, j, from, until) == 1 ==> !Before(DueAt(due, periods, clock, until), j, i)
    decreases until
  {
    if from < until {
      hide Before, Step, Pick;
      OncePerSource(due, periods, clock, i, j, from, until - 1);
      StaysDue(due, periods, clock, i, from, until - 1);
      assert ServedAt(due, periods, clock, until - 1) != Some(i);
      ReadPutsBehind(DueAt(due, periods, clock, until - 1), periods, clock[until - 1], i, j);
    }
  }

  lemma ReadPutsBehind(due: seq<int>, periods: seq<nat>, m: Moment, i: nat, j: nat)
    requires WellFormed(due, periods) && i < |due| && j < |due| && m.now <= m.completed && due[i] <= m.completed
    requires Step(due, periods, m).1 != Some(i)
    ensures var r := Step(due, periods, m);
            if r.1 == Some(j) then Before(due, j, i) && !Before(r.0, j, i) else Before(r.0, j, i) <==> Before(due, j, i)
  {
    PickIsFirst(due, m.now, |due|);
    var served := Step(due, periods, m).1;
    if served.Some? {
      var k := NextDueIsNext(due[served.value], periods[served.value], m.completed);
    }
  }

  /** Bounded waiting: from the first read that completes when source i is due,
      at most one read of every other source completes before source i is read,
      and once an iteration starts with source i due none of them is idle. */
  lemma BoundedWaiting(due: seq<int>, periods: seq<nat>, clock: seq<Moment>, i: nat, from: nat, until: nat)
    requires WellFormed(due, periods) && Ordered(clock) && i < |due| && from <= until <= |clock|
    requires from < |clock| ==> DueAt(due, periods, clock, from)[i] <= clock[from].completed
    requires forall k | from <= k < until :: ServedAt(due, periods, clock, k) != Some(i)
    ensures forall j: nat | j < |due| :: ReadsOf(due, periods, clock, j, from, until) <= 1
    ensures Reads(due, periods, clock, from, until) <= |due| - 1
    ensures from < |clock| && DueAt(due, periods, clock, from)[i] <= clock[from].now ==> until - from <= |due| - 1
  {
    WaitingShrinks(due, periods, clock, i, from, until);
    InFrontIsBounded(DueAt(due, periods, clock, from), i, |due|);
    forall j: nat | j < |due|
      ensures ReadsOf(due, periods, clock, j, from, until) <= 1
    {
      OncePerSource(due, periods, clock, i, j, from, until);
    }
    if from < |clock| && DueAt(due, periods, clock, from)[i] <= clock[from].now {
      NeverIdle(due, periods, clock, i, from, until);
    }
  }

  lemma {:induction false} NeverIdle(due: seq<int>, periods: seq<nat>, clock: seq<Moment>, i: nat, from: nat, until: nat)
    requires WellFormed(due, periods) && Ordered(clock) && i < |due| && from <= until <= |clock| && from < |clock|
    requires DueAt(due, periods, clock, from)[i] <= clock[from].now
    requires forall k | from <= k < until :: ServedAt(due, periods, clock, k) != Some(i)
    ensures Reads(due, periods, clock, from, until) == until - from
    decreases until
  {
    if from < until {
      NeverIdle(due, periods, clock, i, from, until - 1);
      WaitingShrinks(due, periods, clock, i, from, until - 1);
      ClockGrows(clock, from, until - 1);
      PickIsFirst(DueAt(due, periods, clock, until - 1), clock[until - 1].now, |due|);
    }
  }

  /** Every due time stays on its source's original grid. */
  lemma {:induction false} StaysOnGrid(due: seq<int>, periods: seq<nat>, clock: seq<Moment>, i: nat, k: nat)
    requires WellFormed(due, periods) && i < |due| && k <= |clock|
    ensures OnGrid(due[i], DueAt(due, periods, clock, k)[i], periods[i])
    decreases k
  {
    if k == 0 {
      assert due[i] == GridPoint(due[i], periods[i], 0);
    } else {
      StaysOnGrid(due, periods, clock, i, k - 1);
      var before := DueAt(due, periods, clock, k - 1);
      var a: nat :| before[i] == GridPoint(due[i], periods[i], a);
      if ServedAt(due, periods, clock, k - 1) == Some(i) {
        var b := NextDueIsNext(before[i], periods[i], clock[k - 1].completed);
        assert (a + b) * periods[i] == a * periods[i] + b * periods[i];
        assert DueAt(due, periods, clock, k)[i] == GridPoint(due[i], periods[i], a + b);
      } else {
        assert DueAt(due, periods, clock, k)[i] == before[i];
      }
    }
  }

  /** After a read its source is next due strictly after the completion, so the
      stream never reads a source twice for one grid point. */
  lemma ReadMovesOn(due: seq<int>, periods: seq<nat>, clock: seq<Moment>, k: nat, i: nat)
    requires WellFormed(due, periods) && k < |clock| && ServedAt(due, periods, clock, k) == Some(i)
    ensures i < |due| && DueAt(due, periods, clock, k)[i] <= clock[k].now
    ensures DueAt(due, periods, clock, k + 1)[i] > clock[k].completed
  {
    var before := DueAt(due, periods, clock, k);
    PickIsFirst(before, clock[k].now, |before|);
    var b := NextDueIsNext(before[i], periods[i], clock[k].completed);
  }
}
