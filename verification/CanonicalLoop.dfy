// The canonical rollout loop: one query and one selection per control tick.

module CanonicalLoop {
  import opened Naturals
  import opened Results
  import opened Predictions
  import opened EnsemblerIndex
  import opened EnsemblerSpec
  import opened NaiveEnsembler
  import opened EnsemblerRuns
  import opened SelectionRuns
  import opened EnsemblerSession
  import opened TemporalEnsembler

  const DEFAULT_CAPACITY: nat := 4096

  /** The loop's ensembler: every horizon of a K-step chunk, no age limit. */
  predicate Canonical(c: Config) {
    ValidConfig(c) && c.maxHorizon == c.chunkSize - 1 && c.maxAge == None
  }

  /** The i-th query is made at tick i. */
  predicate OnePerTick(c: Config, history: seq<Prediction>) {
    forall i | 0 <= i < |history| :: history[i].queryTick == i && WellShaped(c, history[i])
  }

  /** Points left in the buffer after n cycles without a trim. */
  function Buffered(n: nat, k: nat): nat {
    if n == 0 then 0 else Buffered(n - 1, k) + k - MinNat(n, k)
  }

  /** No addition of the first n cycles exceeds the capacity. */
  predicate Fits(n: nat, k: nat, capacity: nat) {
    forall i | 0 <= i < n :: Buffered(i, k) + k <= capacity
  }

  // ---- counting ------------------------------------------------------------

  lemma {:induction false} BufferedClosedForm(n: nat, k: nat)
    ensures n <= k ==> 2 * Buffered(n, k) == n * (2 * k - n - 1)
    ensures n >= k >= 1 ==> 2 * Buffered(n, k) == k * (k - 1)
    decreases n
  {
    if n > 0 {
      BufferedClosedForm(n - 1, k);
      if n <= k {
        assert 2 * Buffered(n, k) == 2 * Buffered(n - 1, k) + 2 * k - 2 * n;
        Telescopes(n, k);
      }
    }
  }

  lemma Telescopes(n: nat, k: nat)
    requires n > 0
    ensures (n - 1) * (2 * k - (n - 1) - 1) + 2 * k - 2 * n == n * (2 * k - n - 1)
    ensures k * (2 * k - k - 1) == k * (k - 1)
  {
  }

  lemma {:induction false} BufferedGrows(i: nat, n: nat, k: nat)
    requires i <= n
    ensures Buffered(i, k) <= Buffered(n, k)
    decreases n
  {
    if i < n {
      BufferedGrows(i, n - 1, k);
    }
  }

  /** The largest buffer over n cycles: m (2K - m + 1) / 2 with m = min(n, K). */
  function Peak(n: nat, k: nat): nat {
    var m := MinNat(n, k);
    NonNegative(m, 2 * k - m + 1);
    m * (2 * k - m + 1) / 2
  }

  lemma NonNegative(x: nat, y: nat)
    ensures x * y >= 0
  {
  }

  lemma PeakIsReached(m: nat, k: nat)
    requires 1 <= m <= k
    ensures Buffered(m - 1, k) + k == Peak(m, k)
  {
    BufferedClosedForm(m - 1, k);
    PeakProduct(m, k);
  }

  lemma PeakProduct(m: int, k: int)
    ensures (m - 1) * (2 * k - (m - 1) - 1) + 2 * k == m * (2 * k - m + 1)
  {
  }

  lemma BufferedIsBounded(i: nat, n: nat, k: nat)
    requires i < n && k >= 1
    ensures Buffered(i, k) <= Buffered(MinNat(n, k) - 1, k)
  {
    if i < k {
      BufferedGrows(i, MinNat(n, k) - 1, k);
    } else {
      BufferedClosedForm(i, k);
      BufferedClosedForm(k - 1, k);
      Commutes(k - 1, k);
      assert 2 * k - (k - 1) - 1 == k;
    }
  }

  lemma Commutes(x: int, y: int)
    ensures x * y == y * x
  {
  }

  /** For every number of cycles the capacity suffices exactly when it holds
      the largest buffer of that many cycles. */
  lemma FitsIsPeak(n: nat, k: nat, capacity: nat)
    requires k >= 1
    ensures Fits(n, k, capacity) <==> Peak(n, k) <= capacity
  {
    if n > 0 {
      var m := MinNat(n, k);
      PeakIsReached(m, k);
      assert Peak(m, k) == Peak(n, k);
      hide Peak;
      forall i | 0 <= i < n
        ensures Buffered(i, k) <= Buffered(m - 1, k)
      {
        BufferedIsBounded(i, n, k);
      }
    }
  }

  /** The buffer never exceeds the triangle of a chunk, and reaches it in any
      run of at least a chunk's worth of cycles. */
  lemma PeakIsTriangular(n: nat, k: nat)
    requires k >= 1
    ensures Peak(n, k) <= Triangle(k)
    ensures n >= k ==> Peak(n, k) == Triangle(k)
  {
    if n >= k {
      assert 2 * k - k + 1 == k + 1;
    } else if n > 0 {
      PeakIsReached(n, k);
      PeakIsReached(k, k);
      BufferedGrows(n - 1, k - 1, k);
      assert 2 * k - k + 1 == k + 1;
    }
  }

  /** How many of m one-per-tick queries are due at tick t. */
  function DueSize(m: nat, t: int, k: nat): nat {
    if m <= t - k + 1 then 0 else if t - k + 1 <= 0 then m else m - (t - k + 1)
  }

  lemma {:induction false} DueCount(c: Config, history: seq<Prediction>, t: int, k: nat)
    requires OnePerTick(c, history) && |history| <= t + 1
    ensures |Due(history, t, k)| == DueSize(|history|, t, k)
    decreases |history|
  {
    if history != [] {
      DueCount(c, history[..|history| - 1], t, k);
    }
  }

  lemma {:induction false} AgelessIsYoung(s: seq<Entry>, c: Config, t: int)
    requires c.maxAge == None
    ensures Young(s, c, t) == s
    decreases |s|
  {
    if s != [] {
      AgelessIsYoung(s[..|s| - 1], c, t);
    }
  }

  /** The selection of a cycle that nothing has been trimmed before. */
  predicate Full(selection: Selection, tick: nat, k: nat) {
    && selection.tick == tick && selection.action.Some? && !selection.fallback
    && |selection.contributors| == MinNat(tick + 1, k)
  }

  // ---- one cycle -----------------------------------------------------------

  predicate NothingBefore(m: Buckets, tick: int) {
    forall t | t in m :: t >= tick
  }

  /** The ensembler after n cycles. */
  ghost predicate Cycled(s: State, c: Config, history: seq<Prediction>) {
    && Valid(s, c) && Canonical(c) && OnePerTick(c, history)
    && NothingBefore(s.byTick, |history|)
    && Synced(s, c, history, Some(|history| - 1))
    && (s.stats.dropped == 0 ==> s.count == Buffered(|history|, c.chunkSize))
  }

  lemma {:induction false} InsertedKeys(m: Buckets, p: Prediction, n: nat)
    requires NothingBefore(m, p.queryTick)
    ensures NothingBefore(InsertAll(m, p, n), p.queryTick)
    decreases n
  {
    if n > 0 {
      InsertedKeys(m, p, n - 1);
    }
  }

  lemma AddedKeys(s: State, c: Config, p: Prediction)
    requires Valid(s, c) && NothingBefore(s.byTick, p.queryTick)
    ensures NothingBefore(Add(s, c, p).byTick, p.queryTick)
  {
    InsertAllFacts(s.byTick, p, c.maxHorizon + 1);
    InsertedKeys(s.byTick, p, c.maxHorizon + 1);
    forall t | t in Add(s, c, p).byTick
      ensures t >= p.queryTick
    {
      TrimRemovesOldest(InsertAll(s.byTick, p, c.maxHorizon + 1), c.capacity, t, t);
    }
  }

  /** The addition trims exactly when the new chunk does not fit. */
  lemma AddFits(s: State, c: Config, history: seq<Prediction>, p: Prediction)
    requires Cycled(s, c, history) && WellShaped(c, p) && p.queryTick == |history|
    ensures var next := Add(s, c, p);
            && Valid(next, c) && NothingBefore(next.byTick, p.queryTick)
            && (next.stats.dropped == 0 <==> s.stats.dropped == 0 && Buffered(|history|, c.chunkSize) + c.chunkSize <= c.capacity)
            && (next.stats.dropped == 0 ==> next.count == Buffered(|history|, c.chunkSize) + c.chunkSize)
            && (forall t | t >= p.queryTick :: SyncedAt(next, c, history + [p], t))
  {
    AddKeepsValid(s, c, p);
    AddedKeys(s, c, p);
    InsertAllFacts(s.byTick, p, c.maxHorizon + 1);
    TrimSize(InsertAll(s.byTick, p, c.maxHorizon + 1), c.capacity);
    hide InsertAll, Trim, WellFilled, AllUsable, SyncedAt, NothingBefore;
    forall t | t >= p.queryTick
      ensures SyncedAt(Add(s, c, p), c, history + [p], t)
    {
      assert Ahead(Some(|history| - 1), t);
      AddSyncs(s, c, history, p, t);
    }
  }

  /** Nothing expires when every bucket is current or to come. */
  lemma PoppedCount(s: State, c: Config, t: int)
    requires Valid(s, c) && NothingBefore(s.byTick, t)
    ensures Popped(s, c, t).count + |Bucket(s.byTick, t)| == s.count
  {
    assert From(s.byTick, t) == s.byTick;
    PoppedFacts(s, c, t);
  }

  /** The shape of a selection follows from the young part of its bucket alone. */
  lemma SelectShape(s: State, c: Config, t: int)
    requires Valid(s, c)
    ensures var r := Select(s, c, t);
            var young := Young(Bucket(s.byTick, t), c, t);
            && r.1.tick == t && |r.1.contributors| == |young|
            && (young != [] ==> r.1.action.Some? && !r.1.fallback)
            && r.0.count == Popped(s, c, t).count
  {
    CandidatesAreUsable(Bucket(s.byTick, t), c, t);
    hide Popped, Valid, AllUsable, Young, Ensemble;
  }

  /** The selection of the same tick uses one prediction per query still in reach. */
  lemma SelectsAllInReach(s: State, c: Config, history: seq<Prediction>, t: nat)
    requires Valid(s, c) && Canonical(c) && OnePerTick(c, history) && |history| == t + 1
    requires NothingBefore(s.byTick, t) && SyncedAt(s, c, history, t) && s.stats.dropped == 0
    ensures var r := Select(s, c, t);
            && Full(r.1, t, c.chunkSize)
            && r.0.count == s.count - MinNat(t + 1, c.chunkSize)
  {
    hide Select, Popped, Valid, OnePerTick, Due, Young, NothingBefore, Suffix, Bucket, ValidConfig;
    var bucket := Bucket(s.byTick, t);
    assert bucket == Due(history, t, c.maxHorizon + 1);
    hide SyncedAt;
    DueCount(c, history, t, c.maxHorizon + 1);
    AgelessIsYoung(Bucket(s.byTick, t), c, t);
    PoppedCount(s, c, t);
    SelectShape(s, c, t);
  }

  /** One pass of the loop body. */
  ghost function Cycle(s: State, c: Config, p: Prediction, t: int): (State, Selection)
    requires Valid(s, c) && Valid(Add(s, c, p), c)
  {
    Select(Add(s, c, p), c, t)
  }

  lemma CycleCounts(s: State, c: Config, history: seq<Prediction>, p: Prediction)
    requires Cycled(s, c, history) && OnePerTick(c, history + [p])
    ensures Valid(Add(s, c, p), c)
    ensures var r := Cycle(s, c, p, |history|);
            && Cycled(r.0, c, history + [p])
            && (r.0.stats.dropped == 0 <==> s.stats.dropped == 0 && Buffered(|history|, c.chunkSize) + c.chunkSize <= c.capacity)
            && (r.0.stats.dropped == 0 ==> Full(r.1, |history|, c.chunkSize))
  {
    hide Add, Select, Synced, SyncedAt, WellFilled, AllUsable, NothingBefore, WellShaped;
    var n := |history|;
    assert (history + [p])[n] == p;
    AddFits(s, c, history, p);
    var added := Add(s, c, p);
    if added.stats.dropped == 0 {
      SelectsAllInReach(added, c, history + [p], n);
    }
    SelectKeepsValid(added, c, n);
    RemainsSynced(added, c, history + [p], n);
  }

  lemma RemainsSynced(s: State, c: Config, history: seq<Prediction>, t: nat)
    requires Valid(s, c) && |history| == t + 1
    requires forall u | u >= t :: SyncedAt(s, c, history, u)
    ensures Synced(Select(s, c, t).0, c, history, Some(t))
    ensures NothingBefore(Select(s, c, t).0.byTick, t + 1)
    ensures Select(s, c, t).0.stats.dropped == s.stats.dropped
  {
    PoppedFacts(s, c, t);
    forall u | Ahead(Some(t), u)
      ensures SyncedAt(Select(s, c, t).0, c, history, u)
    {
      SelectSyncs(s, c, history, t, u);
    }
    forall u | u in Select(s, c, t).0.byTick
      ensures u >= t + 1
    {
      assert Bucket(Select(s, c, t).0.byTick, u) != [];
    }
  }

  lemma FreshIsCycled(c: Config, done: seq<Prediction>)
    requires Canonical(c) && done == []
    ensures Cycled(FRESH, c, done)
  {
    forall t | Ahead(Some(-1), t)
      ensures SyncedAt(FRESH, c, done, t)
    {
    }
  }

  // ---- the loop ------------------------------------------------------------

  /** The loop as ensembler operations: add the chunk of a tick, select the tick. */
  function LoopOps(chunks: seq<Prediction>): seq<Op>
    decreases |chunks|
  {
    if chunks == [] then []
    else LoopOps(chunks[..|chunks| - 1]) + [AddOp(chunks[|chunks| - 1])] + [SelectOp(|chunks| - 1)]
  }

  /** Selections as the trace of such operations. */
  function LoopTrace(selections: seq<Selection>): Trace
    decreases |selections|
  {
    if selections == [] then []
    else LoopTrace(selections[..|selections| - 1]) + [None] + [Some(selections[|selections| - 1])]
  }

  lemma {:induction false} LoopOpsIncrease(chunks: seq<Prediction>)
    ensures Increasing(LoopOps(chunks))
    ensures LastTick(LoopOps(chunks)) == if chunks == [] then None else Some(|chunks| - 1)
    decreases |chunks|
  {
    if chunks != [] {
      var before, p := chunks[..|chunks| - 1], chunks[|chunks| - 1];
      LoopOpsIncrease(before);
      OpsAppend(LoopOps(before), AddOp(p));
      OpsAppend(LoopOps(before) + [AddOp(p)], SelectOp(|chunks| - 1));
    }
  }

  lemma OpsAppend(ops: seq<Op>, op: Op)
    ensures LastTick(ops + [op]) == if op.SelectOp? then Some(op.tick) else LastTick(ops)
    ensures Increasing(ops + [op]) <==> Increasing(ops) && (op.SelectOp? ==> Ahead(LastTick(ops), op.tick))
  {
    assert (ops + [op])[..|ops|] == ops;
  }

  /** The loop after its first cycles, seen through the fold of its operations. */
  ghost predicate Looping(s: State, c: Config, done: seq<Prediction>, selections: seq<Selection>) {
    && Cycled(s, c, done) && |selections| == |done|
    && (s.stats.dropped == 0 <==> Fits(|done|, c.chunkSize, c.capacity))
    && (s.stats.dropped == 0 ==> forall t | 0 <= t < |selections| :: Full(selections[t], t, c.chunkSize))
  }

  ghost predicate Folded(s: State, c: Config, done: seq<Prediction>, selections: seq<Selection>) {
    ValidConfig(c) && Fold(c, LoopOps(done)) == (s, LoopTrace(selections))
  }

  /** Both at once. */
  ghost predicate InLoop(s: State, c: Config, done: seq<Prediction>, selections: seq<Selection>) {
    Looping(s, c, done, selections) && Folded(s, c, done, selections)
  }

  lemma LoopStarts(c: Config, done: seq<Prediction>, selections: seq<Selection>)
    requires Canonical(c) && done == [] && selections == []
    ensures InLoop(FRESH, c, done, selections)
  {
    FreshIsCycled(c, done);
    hide Cycled, Fold;
    FoldBegins(c, LoopOps(done));
  }

  lemma CycleFolds(s: State, c: Config, done: seq<Prediction>, p: Prediction, selections: seq<Selection>)
    requires ValidConfig(c) && Valid(s, c) && Folded(s, c, done, selections) && WellShaped(c, p)
    ensures Valid(Add(s, c, p), c)
    ensures var r := Cycle(s, c, p, |done|); Folded(r.0, c, done + [p], selections + [r.1])
  {
    hide Fold, Valid, Add, Select, WellShaped;
    AddKeepsValid(s, c, p);
    var ops := LoopOps(done);
    FoldAppend(c, ops, AddOp(p));
    FoldAppend(c, ops + [AddOp(p)], SelectOp(|done|));
    assert (done + [p])[..|done|] == done;
    var selection := Cycle(s, c, p, |done|).1;
    assert (selections + [selection])[..|selections|] == selections;
  }

  lemma LoopContinues(s: State, c: Config, done: seq<Prediction>, p: Prediction, selections: seq<Selection>)
    requires Looping(s, c, done, selections) && OnePerTick(c, done + [p])
    ensures Valid(Add(s, c, p), c)
    ensures var r := Cycle(s, c, p, |done|); Looping(r.0, c, done + [p], selections + [r.1])
  {
    hide Cycled, OnePerTick, Cycle, Full, Buffered, Valid;
    CycleCounts(s, c, done, p);
    var n := |done|;
    assert Fits(n + 1, c.chunkSize, c.capacity)
      <==> Fits(n, c.chunkSize, c.capacity) && Buffered(n, c.chunkSize) + c.chunkSize <= c.capacity;
  }

  lemma LoopGoesOn(s: State, c: Config, done: seq<Prediction>, p: Prediction, selections: seq<Selection>)
    requires InLoop(s, c, done, selections) && OnePerTick(c, done + [p])
    ensures Valid(s, c) && WellShaped(c, p) && Valid(Add(s, c, p), c)
    ensures var r := Cycle(s, c, p, |done|); InLoop(r.0, c, done + [p], selections + [r.1])
  {
    assert (done + [p])[|done|] == p;
    LoopContinues(s, c, done, p, selections);
    CycleFolds(s, c, done, p, selections);
    hide Looping, Folded, Cycle, Valid, WellShaped;
  }

  lemma LoopMeans(s: State, c: Config, done: seq<Prediction>, selections: seq<Selection>)
    requires InLoop(s, c, done, selections)
    ensures |selections| == |done| && ValidConfig(c)
    ensures Fold(c, LoopOps(done)) == (s, LoopTrace(selections))
    ensures s.stats.dropped == 0 <==> Peak(|done|, c.chunkSize) <= c.capacity
    ensures s.stats.dropped == 0 ==> forall t | 0 <= t < |selections| :: Full(selections[t], t, c.chunkSize)
    ensures s.stats.dropped == 0 ==> LoopTrace(selections) == NaiveRun(c, LoopOps(done)).1
  {
    hide Full, Fits, Peak, Fold, NaiveRun;
    FitsIsPeak(|done|, c.chunkSize, c.capacity);
    LoopOpsIncrease(done);
    var box := seq(c.actionDim, _ => 0.0);
    EveryRunKeeps(c, LoopOps(done), box, box);
  }

  method RunCycle(e: AbsoluteTimeTemporalEnsembler, p: Prediction, tick: nat) returns (selection: Selection)
    requires e.Valid() && WellShaped(e.config, p) && Valid(Add(e.Snapshot(), e.config, p), e.config)
    modifies e
    ensures e.Valid() && (e.Snapshot(), selection) == Cycle(old(e.Snapshot()), e.config, p, tick)
  {
    hide Add, Select, WellShaped, Valid;
    var added := e.AddPrediction(p);
    selection := e.Select(tick);
  }

  /** The loop, tied to the ensembler's operations. For runs of every length it
      never trims exactly when the capacity holds the run's largest buffer; then
      tick t is an ensemble of min(t+1, K) queries, never a fallback, and the
      selections are those of the naive ensembler. */
  method RunCanonical(c: Config, chunks: seq<Prediction>) returns (selections: seq<Selection>,
                      e: AbsoluteTimeTemporalEnsembler)
    requires Canonical(c) && OnePerTick(c, chunks)
    ensures |selections| == |chunks| && e.config == c
    ensures Fold(c, LoopOps(chunks)) == (e.Snapshot(), LoopTrace(selections))
    ensures e.stats.dropped == 0 <==> Peak(|chunks|, c.chunkSize) <= c.capacity
    ensures e.stats.dropped == 0 ==> forall t | 0 <= t < |selections| :: Full(selections[t], t, c.chunkSize)
    ensures e.stats.dropped == 0 ==> LoopTrace(selections) == NaiveRun(c, LoopOps(chunks)).1
  {
    hide InLoop, Cycle, Valid, Full, Peak, Fold, NaiveRun, WellShaped, LoopTrace, LoopOps;
    selections := [];
    e := new AbsoluteTimeTemporalEnsembler(c);
    LoopStarts(c, chunks[..0], selections);
    for t := 0 to |chunks|
      invariant fresh(e) && e.Valid() && e.config == c && |selections| == t
      invariant InLoop(e.Snapshot(), c, chunks[..t], selections)
    {
      assert chunks[..t + 1] == chunks[..t] + [chunks[t]];
      LoopGoesOn(e.Snapshot(), c, chunks[..t], chunks[t], selections);
      var selection := RunCycle(e, chunks[t], t);
      selections := selections + [selection];
    }
    assert chunks[..|chunks|] == chunks;
    LoopMeans(e.Snapshot(), c, chunks, selections);
  }

  /** With the loop's fixed capacity, chunks of up to 90 steps are never trimmed. */
  lemma DefaultCapacityHolds(k: nat)
    ensures Triangle(k) <= DEFAULT_CAPACITY <==> k <= 90
  {
    Squares(k);
  }

  lemma Squares(k: nat)
    ensures k <= 90 ==> k * (k + 1) <= 90 * 91
    ensures k >= 91 ==> k * (k + 1) >= 91 * 92
  {
    if k <= 90 {
      assert k * (k + 1) <= 90 * (k + 1);
    } else {
      assert k * (k + 1) >= 91 * (k + 1);
    }
  }
}
