// The lag checks over sequences of lag vectors, without their counters: exactly
// when a wrist joint lags too much for too long, and when tracking is lost.

module TrackingFaults {
  import opened Results
  import opened Joints
  import opened WorkerSpec

  /** The lag of joint j grew by more than a microradian in cycle i. */
  predicate Grew(lags: seq<Vector>, i: nat, j: nat)
    requires i < |lags| && j < 6
  {
    lags[i][j] > (if i == 0 then 0.0 else lags[i - 1][j]) + 0.000001
  }

  /** A wrist joint lags half the bound after growing for three cycles. */
  predicate WristAt(o: Motion.Options, lags: seq<Vector>, k: nat)
    requires k < |lags|
  {
    exists j: nat | 3 <= j < 6 ::
      lags[k][j] >= 0.5 * o.trackingAbort && k >= 2 && Grew(lags, k - 2, j) && Grew(lags, k - 1, j) && Grew(lags, k, j)
  }

  /** Some joint lags more than the bound. */
  predicate Beyond(o: Motion.Options, lags: seq<Vector>, i: nat)
    requires i < |lags|
  {
    exists j | 0 <= j < 6 :: lags[i][j] > o.trackingAbort
  }

  /** Cycle k closes as many consecutive cycles beyond the bound as are tolerated. */
  predicate LostAt(o: Motion.Options, lags: seq<Vector>, k: nat)
    requires k < |lags|
  {
    k + 1 >= o.trackingCycles && forall i: nat | k + 1 - o.trackingCycles <= i <= k :: Beyond(o, lags, i)
  }

  /** What cycle k stops for, if anything; the wrist check comes first. */
  function FaultAt(o: Motion.Options, lags: seq<Vector>, k: nat): Option<Halt>
    requires k < |lags|
  {
    if WristAt(o, lags, k) then Some(WristLag) else if LostAt(o, lags, k) then Some(TrackingLost) else None
  }

  predicate NoFaults(o: Motion.Options, lags: seq<Vector>, n: nat)
    requires n <= |lags|
  {
    forall k: nat | k < n :: FaultAt(o, lags, k) == None
  }

  // ---- the counters say the same ----------------------------------------------

  /** How many cycles joint j has been growing, ending before cycle n. */
  function GrowthRun(lags: seq<Vector>, n: nat, j: nat): nat
    requires n <= |lags| && j < 6
  {
    if n == 0 || !Grew(lags, n - 1, j) then 0 else GrowthRun(lags, n - 1, j) + 1
  }

  function BeyondRun(o: Motion.Options, lags: seq<Vector>, n: nat): nat
    requires n <= |lags|
  {
    if n == 0 || !Beyond(o, lags, n - 1) then 0 else BeyondRun(o, lags, n - 1) + 1
  }

  lemma GrowthOfThree(lags: seq<Vector>, n: nat, j: nat)
    requires n < |lags| && j < 6
    ensures GrowthRun(lags, n + 1, j) >= 3 <==> n >= 2 && Grew(lags, n - 2, j) && Grew(lags, n - 1, j) && Grew(lags, n, j)
  {
    hide Grew;
    if n >= 2 {
      assert GrowthRun(lags, n, j) >= 1 <==> Grew(lags, n - 1, j);
      assert GrowthRun(lags, n - 1, j) >= 1 <==> Grew(lags, n - 2, j);
    } else if n == 1 {
      assert GrowthRun(lags, 1, j) <= 1;
    }
  }

  lemma {:induction false} BeyondOfMany(o: Motion.Options, lags: seq<Vector>, n: nat, m: nat)
    requires n <= |lags|
    ensures BeyondRun(o, lags, n) <= n
    ensures BeyondRun(o, lags, n) >= m <==> n >= m && forall i: nat | n - m <= i < n :: Beyond(o, lags, i)
    decreases n
  {
    hide Beyond;
    if n > 0 {
      BeyondOfMany(o, lags, n - 1, if m > 0 then m - 1 else 0);
      if m > 0 && n >= m && Beyond(o, lags, n - 1) && BeyondRun(o, lags, n - 1) >= m - 1 {
        forall i: nat | n - m <= i < n
          ensures Beyond(o, lags, i)
        {
        }
      }
      if m > 0 && n >= m && forall i: nat | n - m <= i < n :: Beyond(o, lags, i) {
        assert Beyond(o, lags, n - 1);
      }
    }
  }

  /** The tracking state after the first n lags. */
  ghost predicate Tied(t: Tracking, o: Motion.Options, lags: seq<Vector>, n: nat)
    requires n <= |lags|
  {
    && |t.increasing| == 6
    && t.previous == (if n == 0 then ZERO else lags[n - 1])
    && (forall j: nat | 3 <= j < 6 :: t.increasing[j] == GrowthRun(lags, n, j))
    && t.crossings == BeyondRun(o, lags, n)
  }

  /** One lag check. */
  lemma CheckMeans(t: Tracking, o: Motion.Options, lags: seq<Vector>, n: nat)
    requires Motion.ValidOptions(o) && n < |lags| && Tied(t, o, lags, n)
    ensures FaultAt(o, lags, n).Some? ==> Track(t, o, lags[n]) == Err(FaultAt(o, lags, n).value)
    ensures FaultAt(o, lags, n).None? ==> Track(t, o, lags[n]).Ok? && Tied(Track(t, o, lags[n]).value, o, lags, n + 1)
  {
    var lag := lags[n];
    CountersNext(t, o, lags, n);
    WristMeans(t, o, lags, n);
    BeyondOfMany(o, lags, n + 1, o.trackingCycles);
    assert LostAt(o, lags, n) <==> BeyondRun(o, lags, n + 1) >= o.trackingCycles;
    hide Increasing, WristLags, Lost, WristAt, LostAt, GrowthRun, BeyondRun, Motion.ValidOptions;
  }

  lemma CountersNext(t: Tracking, o: Motion.Options, lags: seq<Vector>, n: nat)
    requires n < |lags| && Tied(t, o, lags, n)
    ensures forall j: nat | 3 <= j < 6 :: Increasing(t, lags[n])[j] == GrowthRun(lags, n + 1, j)
    ensures Lost(lags[n], o) <==> Beyond(o, lags, n)
    ensures (if Lost(lags[n], o) then t.crossings + 1 else 0) == BeyondRun(o, lags, n + 1)
  {
    assert Lost(lags[n], o) <==> Beyond(o, lags, n);
    forall j: nat | 3 <= j < 6
      ensures Increasing(t, lags[n])[j] == GrowthRun(lags, n + 1, j)
    {
      assert Grew(lags, n, j) <==> lags[n][j] > t.previous[j] + LAG_INCREASE;
    }
  }

  lemma WristMeans(t: Tracking, o: Motion.Options, lags: seq<Vector>, n: nat)
    requires n < |lags| && Tied(t, o, lags, n)
    ensures WristLags(Increasing(t, lags[n]), lags[n], o) <==> WristAt(o, lags, n)
  {
    CountersNext(t, o, lags, n);
    forall j: nat | 3 <= j < 6
      ensures Increasing(t, lags[n])[j] >= 3
         <==> n >= 2 && Grew(lags, n - 2, j) && Grew(lags, n - 1, j) && Grew(lags, n, j)
    {
      GrowthOfThree(lags, n, j);
    }
    hide Increasing, Grew, GrowthRun, BeyondRun;
  }

  // ---- sequences of lags --------------------------------------------------------

  /** The first check that fails, counted from n on, and what it reports. */
  function FirstFault(t: Tracking, o: Motion.Options, lags: seq<Vector>, n: nat): Option<(nat, Halt)>
    requires |t.increasing| == 6 && n <= |lags|
    decreases |lags| - n
  {
    if n == |lags| then None
    else
      match Track(t, o, lags[n])
      case Err(h) => Some((n, h))
      case Ok(next) => FirstFault(next, o, lags, n + 1)
  }

  /** The checks pass or stop exactly as the lags themselves say. */
  lemma {:induction false} FaultsAreExact(t: Tracking, o: Motion.Options, lags: seq<Vector>, n: nat)
    requires Motion.ValidOptions(o) && n <= |lags| && Tied(t, o, lags, n) && NoFaults(o, lags, n)
    ensures match FirstFault(t, o, lags, n)
            case None => NoFaults(o, lags, |lags|)
            case Some(f) => n <= f.0 < |lags| && NoFaults(o, lags, f.0) && FaultAt(o, lags, f.0) == Some(f.1)
    decreases |lags| - n
  {
    hide Track, FaultAt, Motion.ValidOptions;
    if n < |lags| {
      CheckMeans(t, o, lags, n);
      hide Tied;
      if FaultAt(o, lags, n).None? {
        FaultsAreExact(Track(t, o, lags[n]).value, o, lags, n + 1);
      }
    }
  }

  /** From the hand-off on. */
  lemma FaultsFromHandOff(o: Motion.Options, lags: seq<Vector>)
    requires Motion.ValidOptions(o)
    ensures match FirstFault(UNTRACKED, o, lags, 0)
            case None => NoFaults(o, lags, |lags|)
            case Some(f) => f.0 < |lags| && NoFaults(o, lags, f.0) && FaultAt(o, lags, f.0) == Some(f.1)
  {
    hide Motion.ValidOptions;
    assert Tied(UNTRACKED, o, lags, 0);
    FaultsAreExact(UNTRACKED, o, lags, 0);
  }
}

module TrackedSession {
  import opened Results
  import opened Joints
  import opened WorkerSpec
  import opened WorkerRuns
  import opened WorkerSession
  import opened TrackingFaults

  /** The point a cycle wants to command, when it gets as far as the lag check. */
  ghost function Wanted(w: Worker, o: Motion.Options, i: Input): Option<Vector>
    requires Ready(w)
  {
    if !i.Cycle? then None
    else
      match Propose(w, o, i.servo, i.start)
      case Err(h) => None
      case Ok(p) =>
        if p.stalled && Holds.Escalates(Holds.Hold(w.hold, PolicyOf(o), i.start, p.point.toSequence), PolicyOf(o), i.start)
        then None else Some(Lag(p.point.position, i.observed))
  }

  function Entry(lag: Option<Vector>): seq<Vector> {
    if lag.Some? then [lag.value] else []
  }

  /** The lags a session checks, in order. */
  ghost function Checked(w: Worker, o: Motion.Options, inputs: seq<Input>): seq<Vector>
    decreases |inputs|
  {
    if inputs == [] || !Ready(w) then []
    else
      var turn := Take(w, o, inputs[0]);
      Entry(Wanted(w, o, inputs[0])) + if turn.next.Ok? then Checked(turn.next.value, o, inputs[1..]) else []
  }

  predicate TrackingHalt(h: Option<Halt>) {
    h in {Some(WristLag), Some(TrackingLost)}
  }

  /** A session stops for tracking exactly at the first lag at fault, and for
      exactly that fault. */
  ghost predicate Tracks(o: Motion.Options, lags: seq<Vector>, end: Option<Halt>) {
    if TrackingHalt(end) then
      && lags != [] && NoFaults(o, lags, |lags| - 1) && FaultAt(o, lags, |lags| - 1) == end
    else NoFaults(o, lags, |lags|)
  }

  lemma OneCheck(w: Worker, o: Motion.Options, i: Input)
    requires Ready(w)
    ensures var turn := Take(w, o, i);
            var lag := Wanted(w, o, i);
            && (lag.None? ==> (turn.next.Err? ==> !TrackingHalt(Some(turn.next.error)))
                              && (turn.next.Ok? ==> turn.next.value.tracking == w.tracking))
            && (lag.Some? ==>
                 && (Track(w.tracking, o, lag.value).Err? ==> turn.next == Err(Track(w.tracking, o, lag.value).error))
                 && (Track(w.tracking, o, lag.value).Ok? ==>
                      && (turn.next.Err? ==> !TrackingHalt(Some(turn.next.error)))
                      && (turn.next.Ok? ==> turn.next.value.tracking == Track(w.tracking, o, lag.value).value)))
  {
    hide Track, Holds.Hold, Holds.Recover, Holds.Escalates, Motion.Candidate, Motion.Final, Motion.ShapedPoint;
    if i.Cycle? && Propose(w, o, i.servo, i.start).Err? {
      assert !TrackingHalt(Some(Propose(w, o, i.servo, i.start).error));
    }
  }

  lemma TrackErrors(t: Tracking, o: Motion.Options, lag: Vector)
    requires |t.increasing| == 6 && Track(t, o, lag).Err?
    ensures TrackingHalt(Some(Track(t, o, lag).error))
  {
  }

  /** Faults of earlier lags do not depend on later ones. */
  lemma FaultsOfPrefix(o: Motion.Options, lags: seq<Vector>, rest: seq<Vector>, k: nat)
    requires k < |lags|
    ensures FaultAt(o, lags + rest, k) == FaultAt(o, lags, k)
  {
    var all := lags + rest;
    forall i: nat | i <= k
      ensures Beyond(o, all, i) == Beyond(o, lags, i)
    {
      Unchanged(o, lags, rest, i);
    }
    Unchanged(o, lags, rest, k);
    if k >= 2 {
      Unchanged(o, lags, rest, k - 1);
      Unchanged(o, lags, rest, k - 2);
    }
    assert WristAt(o, all, k) == WristAt(o, lags, k);
    assert LostAt(o, all, k) == LostAt(o, lags, k);
  }

  /** Later lags change nothing about cycle i. */
  predicate SameAt(o: Motion.Options, lags: seq<Vector>, rest: seq<Vector>, i: nat)
    requires i < |lags|
  {
    && Beyond(o, lags + rest, i) == Beyond(o, lags, i)
    && forall j: nat | j < 6 :: Grew(lags + rest, i, j) == Grew(lags, i, j)
  }

  lemma Unchanged(o: Motion.Options, lags: seq<Vector>, rest: seq<Vector>, i: nat)
    requires i < |lags|
    ensures SameAt(o, lags, rest, i)
  {
    assert (lags + rest)[i] == lags[i];
  }

  lemma TiedToPrefix(t: Tracking, o: Motion.Options, lags: seq<Vector>, rest: seq<Vector>)
    requires Tied(t, o, lags, |lags|) && NoFaults(o, lags, |lags|)
    ensures Tied(t, o, lags + rest, |lags|) && NoFaults(o, lags + rest, |lags|)
  {
    forall k: nat | k < |lags|
      ensures FaultAt(o, lags + rest, k) == None
    {
      FaultsOfPrefix(o, lags, rest, k);
    }
    RunsOfPrefix(o, lags, rest, |lags|);
  }

  lemma {:induction false} RunsOfPrefix(o: Motion.Options, lags: seq<Vector>, rest: seq<Vector>, n: nat)
    requires n <= |lags|
    ensures forall j: nat | j < 6 :: GrowthRun(lags + rest, n, j) == GrowthRun(lags, n, j)
    ensures BeyondRun(o, lags + rest, n) == BeyondRun(o, lags, n)
    decreases n
  {
    if n > 0 {
      RunsOfPrefix(o, lags, rest, n - 1);
      Unchanged(o, lags, rest, n - 1);
    }
  }

  lemma {:induction false} SessionTracks(w: Worker, o: Motion.Options, inputs: seq<Input>, lags: seq<Vector>)
    requires Motion.ValidOptions(o) && Sound(w) && Tied(w.tracking, o, lags, |lags|) && NoFaults(o, lags, |lags|)
    ensures Tracks(o, lags + Checked(w, o, inputs), Session(w, o, inputs).1)
    decreases |inputs|
  {
    hide Take, Sound, Tied, FaultAt, Motion.ValidOptions, Wanted;
    IsSoundReady(w);
    if inputs == [] {
      assert lags + [] == lags;
    } else {
      var turn, lag := Take(w, o, inputs[0]), Wanted(w, o, inputs[0]);
      OneCheck(w, o, inputs[0]);
      TakeStaysSound(w, o, inputs[0]);
      if lag.Some? {
        NextLag(w.tracking, o, lags, lag.value);
      }
      var next := lags + Entry(lag);
      match turn.next
      case Err(h) => assert lags + Entry(lag) + [] == next && lags + (Entry(lag) + []) == next; assert lags + [] == lags;
      case Ok(worker) =>
        assert lag.None? ==> next == lags;
        SessionTracks(worker, o, inputs[1..], next);
        assert lags + (Entry(lag) + Checked(worker, o, inputs[1..])) == next + Checked(worker, o, inputs[1..]);
    }
  }

  lemma IsSoundReady(w: Worker)
    requires Sound(w)
    ensures Ready(w)
  {
  }

  lemma TakeStaysSound(w: Worker, o: Motion.Options, i: Input)
    requires Sound(w) && Motion.ValidOptions(o)
    ensures Take(w, o, i).next.Ok? ==> Sound(Take(w, o, i).next.value)
  {
    if Take(w, o, i).next.Ok? {
      match i
      case Packet(m) => ReceiveIsSound(w, o, m);
      case Cycle(servo, start, end, observed) => DispatchIsSound(w, o, servo, start, end, observed);
    }
    hide Take, Dispatch, Receive;
  }

  /** One more lag after those checked so far. */
  lemma NextLag(t: Tracking, o: Motion.Options, lags: seq<Vector>, lag: Vector)
    requires Motion.ValidOptions(o) && |t.increasing| == 6 && Tied(t, o, lags, |lags|) && NoFaults(o, lags, |lags|)
    ensures var all := lags + [lag];
            && NoFaults(o, all, |lags|)
            && (Track(t, o, lag).Err? ==> FaultAt(o, all, |lags|) == Some(Track(t, o, lag).error)
                                          && TrackingHalt(Some(Track(t, o, lag).error)))
            && (Track(t, o, lag).Ok? ==> NoFaults(o, all, |all|) && Tied(Track(t, o, lag).value, o, all, |all|))
  {
    hide Tied, FaultAt, Track, Motion.ValidOptions;
    var all := lags + [lag];
    TiedToPrefix(t, o, lags, [lag]);
    CheckMeans(t, o, all, |lags|);
    if Track(t, o, lag).Err? {
      TrackErrors(t, o, lag);
    }
  }

  /** Over whole sessions from the hand-off on. */
  lemma SessionFromTracks(o: Motion.Options, period: nat, qHold: Vector, handoff: nat, inputs: seq<Input>)
    requires Motion.ValidOptions(o) && Begin(o, period, qHold, handoff).Ok? && Resampler.ValidPeriod(period)
    ensures var w := Begin(o, period, qHold, handoff).value;
            Tracks(o, Checked(w, o, inputs), SessionFrom(o, period, qHold, handoff, inputs).1)
  {
    hide Session, Checked, Motion.ValidOptions;
    BeginIsSound(o, period, qHold, handoff);
    var w, none := Begin(o, period, qHold, handoff).value, [];
    assert w.tracking == UNTRACKED && Tied(w.tracking, o, none, 0);
    hide Begin;
    SessionTracks(w, o, inputs, none);
    assert none + Checked(w, o, inputs) == Checked(w, o, inputs);
  }
}
