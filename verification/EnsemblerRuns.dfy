// The ensembler against a naive one that filters the whole history at every
// selection, and what every run keeps: accounting, no leak, convex hull.

module NaiveEnsembler {
  import opened Results
  import opened Predictions
  import opened EnsemblerSpec

  datatype Op = AddOp(prediction: Prediction) | SelectOp(tick: int)

  /** The predictions of a history whose age at tick t is within the chunk
      prefix in use and within the maximum age, in order of arrival. */
  function Relevant(history: seq<Prediction>, c: Config, t: int): seq<Entry>
    decreases |history|
  {
    if history == [] then []
    else
      var p := history[|history| - 1];
      var age := t - p.queryTick;
      Relevant(history[..|history| - 1], c, t)
        + if 0 <= age <= c.maxHorizon && (c.maxAge.None? || age <= c.maxAge.value) then [Entry(p, age)] else []
  }

  /** The naive ensembler remembers everything. */
  datatype Memory = Memory(history: seq<Prediction>, lastAction: Option<seq<real>>, lastTick: Option<int>)

  predicate Sane(m: Memory, c: Config) {
    forall i | 0 <= i < |m.history| :: WellShaped(c, m.history[i])
  }

  lemma {:induction false} RelevantMembers(history: seq<Prediction>, c: Config, t: int)
    ensures forall i | 0 <= i < |Relevant(history, c, t)| ::
      var e := Relevant(history, c, t)[i];
      e.prediction in history && e.Target() == t && e.horizon <= c.maxHorizon && !TooOld(e, c, t)
    decreases |history|
  {
    if history != [] {
      RelevantMembers(history[..|history| - 1], c, t);
    }
  }

  lemma RelevantIsUsable(m: Memory, c: Config, t: int)
    requires ValidConfig(c) && Sane(m, c)
    ensures AllUsable(c, StableSort(Relevant(m.history, c, t)))
  {
    RelevantMembers(m.history, c, t);
    SortKeepsMembers(Relevant(m.history, c, t));
  }

  function NaiveSelection(m: Memory, c: Config, t: int): Selection
    requires ValidConfig(c) && Sane(m, c)
  {
    RelevantIsUsable(m, c, t);
    Report(StableSort(Relevant(m.history, c, t)), c, t, m.lastAction, m.lastTick)
  }

  function NaiveStep(m: Memory, c: Config, op: Op): (r: (Memory, Option<Selection>))
    requires ValidConfig(c) && Sane(m, c)
    ensures Sane(r.0, c)
  {
    match op
    case AddOp(p) => (if WellShaped(c, p) then m.(history := m.history + [p]) else m, None)
    case SelectOp(t) =>
      var selection := NaiveSelection(m, c, t);
      (if selection.fallback then m else m.(lastAction := selection.action, lastTick := Some(t)), Some(selection))
  }

  /** The naive run: memory and one trace entry per operation. */
  function NaiveRun(c: Config, ops: seq<Op>): (r: (Memory, seq<Option<Selection>>))
    requires ValidConfig(c)
    ensures Sane(r.0, c) && |r.1| == |ops|
    decreases |ops|
  {
    if ops == [] then (Memory([], None, None), [])
    else
      var before := NaiveRun(c, ops[..|ops| - 1]);
      var step := NaiveStep(before.0, c, ops[|ops| - 1]);
      (step.0, before.1 + [step.1])
  }
}

module EnsemblerRuns {
  import opened Results
  import opened Predictions
  import opened EnsemblerIndex
  import opened EnsembleWeights
  import opened EnsemblerSpec
  import opened NaiveEnsembler

  // ---- refinement ----------------------------------------------------------

  /** Everything a history ever put into the bucket of one tick. */
  function Due(history: seq<Prediction>, t: int, n: nat): seq<Entry>
    decreases |history|
  {
    if history == [] then []
    else Due(history[..|history| - 1], t, n) + Contribution(history[|history| - 1], t, n)
  }

  lemma YoungAppend(s: seq<Entry>, x: seq<Entry>, c: Config, t: int)
    requires |x| <= 1
    ensures Young(s + x, c, t) == Young(s, c, t) + Young(x, c, t)
  {
    if x == [] {
      assert s + x == s;
    } else {
      assert (s + x)[..|s|] == s && x[..0] == [];
    }
  }

  /** The young part of a full bucket is what the naive filter finds. */
  lemma {:induction false} YoungIsRelevant(history: seq<Prediction>, c: Config, t: int)
    ensures Young(Due(history, t, c.maxHorizon + 1), c, t) == Relevant(history, c, t)
    decreases |history|
  {
    if history != [] {
      var front, p := history[..|history| - 1], history[|history| - 1];
      YoungIsRelevant(front, c, t);
      YoungAppend(Due(front, t, c.maxHorizon + 1), Contribution(p, t, c.maxHorizon + 1), c, t);
    }
  }

  predicate Ahead(last: Option<int>, t: int) {
    last.Some? ==> t > last.value
  }

  /** The bucket of a coming tick is all that is due there, or what trimming left of it. */
  predicate SyncedAt(s: State, c: Config, history: seq<Prediction>, t: int) {
    var due := Due(history, t, c.maxHorizon + 1);
    Suffix(Bucket(s.byTick, t), due) && (s.stats.dropped == 0 ==> Bucket(s.byTick, t) == due)
  }

  ghost predicate Synced(s: State, c: Config, history: seq<Prediction>, last: Option<int>) {
    forall t | Ahead(last, t) :: SyncedAt(s, c, history, t)
  }

  lemma SuffixAppend(b: seq<Entry>, d: seq<Entry>, x: seq<Entry>)
    requires Suffix(b, d)
    ensures Suffix(b + x, d + x)
  {
  }

  /** One bucket through an insertion and the trim after it. */
  lemma TrimmedBucket(m: Buckets, p: Prediction, n: nat, capacity: nat, t: int)
    requires WellFilled(m)
    ensures WellFilled(InsertAll(m, p, n))
    ensures var all := InsertAll(m, p, n);
            && Suffix(Bucket(Trim(all, capacity), t), Bucket(m, t) + Contribution(p, t, n))
            && Size(Trim(all, capacity)) <= Size(all)
            && (Size(Trim(all, capacity)) == Size(all) ==>
                  Bucket(Trim(all, capacity), t) == Bucket(m, t) + Contribution(p, t, n))
  {
    InsertAllFacts(m, p, n);
    InsertAllBucket(m, p, n, t);
    TrimRemovesOldest(InsertAll(m, p, n), capacity, t, t);
    TrimSize(InsertAll(m, p, n), capacity);
    hide InsertAll, WellFilled, Suffix, Bucket, Contribution;
  }

  lemma AddSyncs(s: State, c: Config, history: seq<Prediction>, p: Prediction, t: int)
    requires Valid(s, c) && WellShaped(c, p) && SyncedAt(s, c, history, t)
    ensures SyncedAt(Add(s, c, p), c, history + [p], t)
  {
    hide InsertAll, Trim, WellFilled, Suffix, Bucket, Contribution, Size, WellShaped, AllUsable;
    var n := c.maxHorizon + 1;
    TrimmedBucket(s.byTick, p, n, c.capacity, t);
    DueAppend(history, p, t, n);
    SuffixAppend(Bucket(s.byTick, t), Due(history, t, n), Contribution(p, t, n));
    SuffixChain(Bucket(Add(s, c, p).byTick, t), Bucket(s.byTick, t) + Contribution(p, t, n), Due(history + [p], t, n));
  }

  lemma DueAppend(history: seq<Prediction>, p: Prediction, t: int, n: nat)
    ensures Due(history + [p], t, n) == Due(history, t, n) + Contribution(p, t, n)
  {
    assert (history + [p])[..|history|] == history;
  }

  lemma SelectSyncs(s: State, c: Config, history: seq<Prediction>, t: int, u: int)
    requires Valid(s, c) && SyncedAt(s, c, history, u) && u > t
    ensures SyncedAt(Select(s, c, t).0, c, history, u)
  {
    PoppedFacts(s, c, t);
  }

  /** The candidates of a tick, seen from the history. */
  lemma CandidatesAreRelevant(s: State, c: Config, history: seq<Prediction>, t: int)
    requires SyncedAt(s, c, history, t)
    ensures s.stats.dropped == 0 ==> Candidates(Bucket(s.byTick, t), c, t) == StableSort(Relevant(history, c, t))
    ensures forall i | 0 <= i < |Candidates(Bucket(s.byTick, t), c, t)| ::
      Candidates(Bucket(s.byTick, t), c, t)[i] in Relevant(history, c, t)
  {
    var due := Due(history, t, c.maxHorizon + 1);
    var bucket := Bucket(s.byTick, t);
    YoungIsRelevant(history, c, t);
    YoungOfSuffix(bucket, due, c, t);
    SortKeepsMembers(Young(bucket, c, t));
  }

  lemma YoungOfSuffix(b: seq<Entry>, d: seq<Entry>, c: Config, t: int)
    requires Suffix(b, d)
    ensures forall i | 0 <= i < |Young(b, c, t)| :: Young(b, c, t)[i] in Young(d, c, t)
  {
    YoungMembers(b, c, t);
    forall i | 0 <= i < |Young(b, c, t)|
      ensures Young(b, c, t)[i] in Young(d, c, t)
    {
      var k :| 0 <= k < |b| && b[k] == Young(b, c, t)[i];
      assert d[|d| - |b| + k] == b[k];
      YoungHas(d, c, t, |d| - |b| + k);
    }
  }

  lemma {:induction false} YoungHas(d: seq<Entry>, c: Config, t: int, k: nat)
    requires k < |d| && !TooOld(d[k], c, t)
    ensures d[k] in Young(d, c, t)
    decreases |d|
  {
    if k < |d| - 1 {
      YoungHas(d[..|d| - 1], c, t, k);
    }
  }

  // ---- runs ----------------------------------------------------------------

  ghost function Apply(s: State, c: Config, op: Op): (State, Option<Selection>)
    requires Valid(s, c)
  {
    match op
    case AddOp(p) => if WellShaped(c, p) then (Add(s, c, p), None) else (s, None)
    case SelectOp(t) => var r := Select(s, c, t); (r.0, Some(r.1))
  }

  lemma ApplyKeepsValid(s: State, c: Config, op: Op)
    requires Valid(s, c)
    ensures Valid(Apply(s, c, op).0, c)
  {
    match op
    case AddOp(p) => if WellShaped(c, p) { AddKeepsValid(s, c, p); }
    case SelectOp(t) => SelectKeepsValid(s, c, t);
  }

  lemma FreshIsValid(c: Config)
    requires ValidConfig(c)
    ensures Valid(FRESH, c)
  {
  }

  /** The ensembler after the operations, and one trace entry for each of them. */
  ghost function Fold(c: Config, ops: seq<Op>): (r: (State, seq<Option<Selection>>))
    requires ValidConfig(c)
    ensures Valid(r.0, c) && |r.1| == |ops|
    decreases |ops|
  {
    if ops == [] then
      FreshIsValid(c);
      (FRESH, [])
    else
      var before := Fold(c, ops[..|ops| - 1]);
      ApplyKeepsValid(before.0, c, ops[|ops| - 1]);
      var step := Apply(before.0, c, ops[|ops| - 1]);
      (step.0, before.1 + [step.1])
  }

  lemma FoldBegins(c: Config, ops: seq<Op>)
    requires ValidConfig(c) && ops == []
    ensures Fold(c, ops) == (FRESH, [])
  {
  }

  lemma FoldAppend(c: Config, ops: seq<Op>, op: Op)
    requires ValidConfig(c)
    ensures var before := Fold(c, ops);
            Fold(c, ops + [op]) == (Apply(before.0, c, op).0, before.1 + [Apply(before.0, c, op).1])
  {
    hide Apply, Valid;
    assert (ops + [op])[..|ops|] == ops;
  }

  function LastTick(ops: seq<Op>): Option<int>
    decreases |ops|
  {
    if ops == [] then None
    else if ops[|ops| - 1].SelectOp? then Some(ops[|ops| - 1].tick)
    else LastTick(ops[..|ops| - 1])
  }

  /** Selected ticks strictly increase. */
  predicate Increasing(ops: seq<Op>)
    decreases |ops|
  {
    ops == [] || (var before := ops[..|ops| - 1];
                  Increasing(before) && (ops[|ops| - 1].SelectOp? ==> Ahead(LastTick(before), ops[|ops| - 1].tick)))
  }

  /** A run's ensembler and the naive one after the same operations. */
  ghost predicate Simulates(s: State, c: Config, m: Memory, last: Option<int>) {
    && Synced(s, c, m.history, last)
    && (s.stats.dropped == 0 ==> s.lastAction == m.lastAction && s.lastTick == m.lastTick)
  }

  lemma DroppedGrows(s: State, c: Config, op: Op)
    requires Valid(s, c)
    ensures Apply(s, c, op).0.stats.dropped >= s.stats.dropped
  {
    if op.AddOp? {
      InsertAllFacts(s.byTick, op.prediction, c.maxHorizon + 1);
      TrimSize(InsertAll(s.byTick, op.prediction, c.maxHorizon + 1), c.capacity);
    }
  }

  lemma StepSimulates(s: State, c: Config, m: Memory, last: Option<int>, op: Op)
    requires Valid(s, c) && Sane(m, c) && Simulates(s, c, m, last)
    requires op.SelectOp? ==> Ahead(last, op.tick)
    ensures var next := Apply(s, c, op);
            && Simulates(next.0, c, NaiveStep(m, c, op).0, if op.SelectOp? then Some(op.tick) else last)
            && (next.0.stats.dropped == 0 ==> next.1 == NaiveStep(m, c, op).1)
  {
    DroppedGrows(s, c, op);
    match op
    case AddOp(p) =>
      if WellShaped(c, p) {
        hide Valid, SyncedAt, WellShaped;
        forall t | Ahead(last, t)
          ensures SyncedAt(Add(s, c, p), c, m.history + [p], t)
        {
          AddSyncs(s, c, m.history, p, t);
        }
      }
    case SelectOp(t) =>
      assert SyncedAt(s, c, m.history, t);
      CandidatesAreRelevant(s, c, m.history, t);
      RelevantIsUsable(m, c, t);
      CandidatesAreUsable(Bucket(s.byTick, t), c, t);
      hide SyncedAt, Valid, Candidates, Relevant, Popped, Ensemble, Contributors, StableSort, AllUsable;
      forall u | Ahead(Some(t), u)
        ensures SyncedAt(Select(s, c, t).0, c, m.history, u)
      {
        assert SyncedAt(s, c, m.history, u);
        SelectSyncs(s, c, m.history, t, u);
      }
  }

  // ---- no leak and convex hull ---------------------------------------------

  /** Every contributor is a relevant prediction of the history at its tick. */
  ghost predicate FromHistory(selection: Selection, c: Config, history: seq<Prediction>) {
    forall i | 0 <= i < |selection.contributors| ::
      && selection.contributors[i].entry in Relevant(history, c, selection.tick)
      && selection.contributors[i].target == selection.tick
  }

  lemma SelectDoesNotLeak(s: State, c: Config, history: seq<Prediction>, t: int)
    requires Valid(s, c) && SyncedAt(s, c, history, t)
    ensures FromHistory(Select(s, c, t).1, c, history)
  {
    CandidatesAreRelevant(s, c, history, t);
    CandidatesAreUsable(Bucket(s.byTick, t), c, t);
    hide SyncedAt, Valid, Candidates, Relevant, Popped, Ensemble, AllUsable;
  }

  predicate RowWithin(row: seq<real>, lo: seq<real>, hi: seq<real>)
    requires |lo| == |hi|
  {
    |row| == |lo| && forall k | 0 <= k < |row| :: lo[k] <= row[k] <= hi[k]
  }

  predicate ChunkWithin(p: Prediction, lo: seq<real>, hi: seq<real>)
    requires |lo| == |hi|
  {
    forall h | 0 <= h < |p.chunk| :: RowWithin(p.chunk[h], lo, hi)
  }

  predicate HistoryWithin(history: seq<Prediction>, lo: seq<real>, hi: seq<real>)
    requires |lo| == |hi|
  {
    forall i | 0 <= i < |history| :: ChunkWithin(history[i], lo, hi)
  }

  lemma EnsembleInHull(candidates: seq<Entry>, c: Config, lo: seq<real>, hi: seq<real>)
    requires c.q > 0.0 && candidates != [] && AllUsable(c, candidates) && |lo| == |hi| == c.actionDim
    requires forall i | 0 <= i < |candidates| :: RowWithin(Action(candidates[i]), lo, hi)
    ensures RowWithin(Ensemble(candidates, c), lo, hi)
  {
    forall k | 0 <= k < c.actionDim
      ensures lo[k] <= Ensemble(candidates, c)[k] <= hi[k]
    {
      AverageInHull(c.q, Column(candidates, c, k), lo[k], hi[k]);
    }
  }

  /** Whatever boxes all chunks boxes every selected or repeated action. */
  lemma SelectInHull(s: State, c: Config, history: seq<Prediction>, t: int, lo: seq<real>, hi: seq<real>)
    requires Valid(s, c) && SyncedAt(s, c, history, t) && |lo| == |hi| == c.actionDim
    requires HistoryWithin(history, lo, hi)
    requires s.lastAction.Some? ==> RowWithin(s.lastAction.value, lo, hi)
    ensures Select(s, c, t).1.action.Some? ==> RowWithin(Select(s, c, t).1.action.value, lo, hi)
    ensures Select(s, c, t).0.lastAction.Some? ==> RowWithin(Select(s, c, t).0.lastAction.value, lo, hi)
  {
    var bucket := Bucket(s.byTick, t);
    var candidates := Candidates(bucket, c, t);
    CandidatesAreRelevant(s, c, history, t);
    CandidatesAreUsable(bucket, c, t);
    RelevantMembers(history, c, t);
    hide SyncedAt, Valid, Candidates, Relevant, Popped, Young, Ensemble, RowWithin;
    if candidates != [] {
      forall i | 0 <= i < |candidates|
        ensures RowWithin(Action(candidates[i]), lo, hi)
      {
        var e := candidates[i];
        assert e.prediction in history;
        assert ChunkWithin(e.prediction, lo, hi);
      }
      EnsembleInHull(candidates, c, lo, hi);
    }
  }
}

module EnsemblerSession {
  import opened Results
  import opened EnsemblerSpec
  import opened NaiveEnsembler
  import opened EnsemblerRuns
  import opened TemporalEnsembler
  import opened SelectionRuns

  /** Contributions over all selections of a trace. */
  function Contributed(trace: Trace): nat
    decreases |trace|
  {
    if trace == [] then 0
    else Contributed(trace[..|trace| - 1])
         + match trace[|trace| - 1] case None => 0 case Some(selection) => |selection.contributors|
  }

  /** Every point ever added is accounted for. */
  ghost predicate Conserved(s: State, trace: Trace) {
    s.stats.added == Lost(s.stats) + Contributed(trace) + s.count
  }

  ghost predicate Refined(s: State, c: Config, ops: seq<Op>, trace: Trace)
    requires ValidConfig(c)
  {
    && Simulates(s, c, NaiveRun(c, ops).0, LastTick(ops))
    && (s.stats.dropped == 0 ==> trace == NaiveRun(c, ops).1)
  }

  /** No selection uses anything but the relevant predictions made before it. */
  ghost predicate Leakless(c: Config, ops: seq<Op>, trace: Trace)
    requires ValidConfig(c)
  {
    forall i | 0 <= i < |trace| && i <= |ops| && trace[i].Some? ::
      FromHistory(trace[i].value, c, NaiveRun(c, ops[..i]).0.history)
  }

  predicate ActionWithin(action: Option<seq<real>>, lo: seq<real>, hi: seq<real>)
    requires |lo| == |hi|
  {
    action.Some? ==> RowWithin(action.value, lo, hi)
  }

  predicate Boxed(trace: Trace, lo: seq<real>, hi: seq<real>)
    requires |lo| == |hi|
  {
    forall i | 0 <= i < |trace| && trace[i].Some? :: ActionWithin(trace[i].value.action, lo, hi)
  }

  lemma ApplyConserves(s: State, c: Config, op: Op, trace: Trace)
    requires Valid(s, c) && Conserved(s, trace)
    ensures Conserved(Apply(s, c, op).0, trace + [Apply(s, c, op).1])
  {
    var entry := Apply(s, c, op).1;
    assert (trace + [entry])[..|trace|] == trace;
    match op
    case AddOp(p) => AddAccounts(s, c, p);
    case SelectOp(t) => SelectAccounts(s, c, t);
  }

  lemma NaiveAppend(c: Config, ops: seq<Op>, op: Op)
    requires ValidConfig(c)
    ensures var before := NaiveRun(c, ops);
            var step := NaiveStep(before.0, c, op);
            NaiveRun(c, ops + [op]) == (step.0, before.1 + [step.1])
    ensures LastTick(ops + [op]) == if op.SelectOp? then Some(op.tick) else LastTick(ops)
    ensures Increasing(ops + [op]) <==> Increasing(ops) && (op.SelectOp? ==> Ahead(LastTick(ops), op.tick))
  {
    assert (ops + [op])[..|ops|] == ops;
  }

  lemma ApplyRefines(s: State, c: Config, ops: seq<Op>, op: Op, trace: Trace)
    requires Valid(s, c) && Refined(s, c, ops, trace) && Increasing(ops + [op])
    ensures Refined(Apply(s, c, op).0, c, ops + [op], trace + [Apply(s, c, op).1])
  {
    NaiveAppend(c, ops, op);
    DroppedGrows(s, c, op);
    StepSimulates(s, c, NaiveRun(c, ops).0, LastTick(ops), op);
    hide Simulates, NaiveRun, NaiveStep, Apply, Valid, Increasing, LastTick;
  }

  lemma LeaklessAppend(c: Config, ops: seq<Op>, op: Op, trace: Trace, entry: Option<Selection>)
    requires ValidConfig(c) && Leakless(c, ops, trace) && |trace| == |ops|
    requires entry.Some? ==> FromHistory(entry.value, c, NaiveRun(c, ops).0.history)
    ensures Leakless(c, ops + [op], trace + [entry])
  {
    hide NaiveRun, FromHistory;
    var all, next := ops + [op], trace + [entry];
    forall i | 0 <= i < |next| && i <= |all| && next[i].Some?
      ensures FromHistory(next[i].value, c, NaiveRun(c, all[..i]).0.history)
    {
      assert all[..i] == ops[..i];
      assert i == |ops| ==> ops[..i] == ops;
    }
  }

  lemma ApplyDoesNotLeak(s: State, c: Config, ops: seq<Op>, op: Op, trace: Trace)
    requires Valid(s, c) && Refined(s, c, ops, trace) && Increasing(ops + [op]) && |trace| == |ops|
    requires Leakless(c, ops, trace)
    ensures Leakless(c, ops + [op], trace + [Apply(s, c, op).1])
  {
    if op.SelectOp? {
      NaiveAppend(c, ops, op);
      assert SyncedAt(s, c, NaiveRun(c, ops).0.history, op.tick);
      SelectDoesNotLeak(s, c, NaiveRun(c, ops).0.history, op.tick);
    }
    hide NaiveRun, FromHistory, Valid, Refined, Increasing, Select, Add, Leakless;
    LeaklessAppend(c, ops, op, trace, Apply(s, c, op).1);
  }

  lemma ApplyIsBoxed(s: State, c: Config, ops: seq<Op>, op: Op, trace: Trace, lo: seq<real>, hi: seq<real>)
    requires Valid(s, c) && Refined(s, c, ops, trace) && Increasing(ops + [op]) && |lo| == |hi| == c.actionDim
    requires HistoryWithin(NaiveRun(c, ops).0.history, lo, hi)
    requires Boxed(trace, lo, hi) && ActionWithin(s.lastAction, lo, hi)
    ensures Boxed(trace + [Apply(s, c, op).1], lo, hi) && ActionWithin(Apply(s, c, op).0.lastAction, lo, hi)
  {
    if op.SelectOp? {
      NaiveAppend(c, ops, op);
      assert SyncedAt(s, c, NaiveRun(c, ops).0.history, op.tick);
      SelectInHull(s, c, NaiveRun(c, ops).0.history, op.tick, lo, hi);
    }
    hide NaiveRun, Valid, Refined, Increasing, Select, HistoryWithin, RowWithin;
  }

  lemma HistoryGrows(c: Config, ops: seq<Op>, op: Op, lo: seq<real>, hi: seq<real>)
    requires ValidConfig(c) && |lo| == |hi|
    ensures HistoryWithin(NaiveRun(c, ops + [op]).0.history, lo, hi) ==> HistoryWithin(NaiveRun(c, ops).0.history, lo, hi)
  {
    NaiveAppend(c, ops, op);
    var before, after := NaiveRun(c, ops).0.history, NaiveRun(c, ops + [op]).0.history;
    if HistoryWithin(after, lo, hi) {
      forall i | 0 <= i < |before|
        ensures ChunkWithin(before[i], lo, hi)
      {
        assert after[i] == before[i];
      }
    }
  }

  /** All that a run keeps, for strictly increasing selections. */
  ghost predicate Kept(s: State, c: Config, ops: seq<Op>, trace: Trace, lo: seq<real>, hi: seq<real>)
    requires ValidConfig(c) && |lo| == |hi|
  {
    && Refined(s, c, ops, trace)
    && Leakless(c, ops, trace)
    && (HistoryWithin(NaiveRun(c, ops).0.history, lo, hi) ==> Boxed(trace, lo, hi) && ActionWithin(s.lastAction, lo, hi))
  }

  lemma ApplyKeeps(s: State, c: Config, ops: seq<Op>, op: Op, trace: Trace, lo: seq<real>, hi: seq<real>)
    requires Valid(s, c) && |trace| == |ops| && |lo| == |hi| == c.actionDim
    requires Increasing(ops + [op]) && Kept(s, c, ops, trace, lo, hi)
    ensures Kept(Apply(s, c, op).0, c, ops + [op], trace + [Apply(s, c, op).1], lo, hi)
  {
    ApplyRefines(s, c, ops, op, trace);
    ApplyDoesNotLeak(s, c, ops, op, trace);
    HistoryGrows(c, ops, op, lo, hi);
    if HistoryWithin(NaiveRun(c, ops).0.history, lo, hi) {
      ApplyIsBoxed(s, c, ops, op, trace, lo, hi);
    }
    hide Valid, Refined, Leakless, Boxed, ActionWithin, HistoryWithin, NaiveRun, Apply, Increasing;
  }

  /** A run's state and trace. */
  ghost predicate Session(s: State, c: Config, ops: seq<Op>, trace: Trace, lo: seq<real>, hi: seq<real>) {
    && Valid(s, c) && |trace| == |ops| && |lo| == |hi| == c.actionDim
    && Conserved(s, trace)
    && (Increasing(ops) ==> Kept(s, c, ops, trace, lo, hi))
  }

  /** Before anything is added nothing is due. */
  lemma FreshIsSynced(c: Config, t: int)
    ensures SyncedAt(FRESH, c, [], t)
  {
  }

  lemma FreshIsRefined(c: Config, ops: seq<Op>, trace: Trace)
    requires ValidConfig(c) && ops == [] && trace == []
    ensures Refined(FRESH, c, ops, trace)
  {
    hide SyncedAt;
    forall t | Ahead(None, t)
      ensures SyncedAt(FRESH, c, [], t)
    {
      FreshIsSynced(c, t);
    }
  }

  lemma NothingLeaks(c: Config, ops: seq<Op>, trace: Trace, lo: seq<real>, hi: seq<real>)
    requires ValidConfig(c) && |lo| == |hi| && ops == [] && trace == []
    ensures Leakless(c, ops, trace) && Boxed(trace, lo, hi) && ActionWithin(FRESH.lastAction, lo, hi)
  {
    hide NaiveRun, RowWithin, FromHistory;
  }

  lemma SessionStarts(c: Config, ops: seq<Op>, trace: Trace, lo: seq<real>, hi: seq<real>)
    requires ValidConfig(c) && |lo| == |hi| == c.actionDim && ops == [] && trace == []
    ensures Session(FRESH, c, ops, trace, lo, hi)
  {
    hide Valid, Refined, Leakless, Boxed, ActionWithin, HistoryWithin, NaiveRun, Increasing;
    FreshIsValid(c);
    FreshIsRefined(c, ops, trace);
    NothingLeaks(c, ops, trace, lo, hi);
  }

  lemma SessionContinues(s: State, c: Config, ops: seq<Op>, op: Op, trace: Trace, lo: seq<real>, hi: seq<real>)
    requires Session(s, c, ops, trace, lo, hi)
    ensures Session(Apply(s, c, op).0, c, ops + [op], trace + [Apply(s, c, op).1], lo, hi)
  {
    ApplyKeepsValid(s, c, op);
    ApplyConserves(s, c, op, trace);
    NaiveAppend(c, ops, op);
    if Increasing(ops + [op]) {
      ApplyKeeps(s, c, ops, op, trace, lo, hi);
    }
    hide Valid, Conserved, Kept, Apply, Increasing, NaiveRun, NaiveStep, LastTick;
  }

  lemma {:induction false} FoldIsSession(c: Config, ops: seq<Op>, lo: seq<real>, hi: seq<real>)
    requires ValidConfig(c) && |lo| == |hi| == c.actionDim
    ensures Session(Fold(c, ops).0, c, ops, Fold(c, ops).1, lo, hi)
    decreases |ops|
  {
    hide Session, Apply, Valid;
    if ops == [] {
      SessionStarts(c, ops, Fold(c, ops).1, lo, hi);
      FoldBegins(c, ops);
    } else {
      var before, op := ops[..|ops| - 1], ops[|ops| - 1];
      FoldIsSession(c, before, lo, hi);
      SessionContinues(Fold(c, before).0, c, before, op, Fold(c, before).1, lo, hi);
      FoldAppend(c, before, op);
      assert before + [op] == ops;
    }
  }

  /** Without drops no selection misses a relevant prediction. */
  ghost predicate AllComplete(c: Config, ops: seq<Op>, trace: Trace)
    requires ValidConfig(c)
  {
    forall i: nat | i < |ops| && i < |trace| && ops[i].SelectOp? && trace[i].Some? ::
      Complete(trace[i].value, c, Added(c, ops[..i]))
  }

  lemma {:induction false} NaiveRunIsComplete(c: Config, ops: seq<Op>)
    requires ValidConfig(c)
    ensures AllComplete(c, ops, NaiveRun(c, ops).1)
    decreases |ops|
  {
    hide Complete, NaiveSelection, NaiveRun;
    NaiveRunLength(c, ops);
    if ops != [] {
      var before, op := ops[..|ops| - 1], ops[|ops| - 1];
      NaiveRunIsComplete(c, before);
      NaiveAppend(c, before, op);
      assert before + [op] == ops;
      NaiveRunLength(c, before);
      if op.SelectOp? {
        NaiveIsComplete(NaiveRun(c, before).0, c, op.tick);
        HistoryIsAllAdded(c, before);
        NaiveTick(NaiveRun(c, before).0, c, op.tick);
      }
      forall i: nat | i < |ops| && ops[i].SelectOp? && NaiveRun(c, ops).1[i].Some?
        ensures Complete(NaiveRun(c, ops).1[i].value, c, Added(c, ops[..i]))
      {
        assert i < |before| ==> ops[..i] == before[..i] && ops[i] == before[i];
      }
    }
  }

  lemma NaiveRunLength(c: Config, ops: seq<Op>)
    requires ValidConfig(c)
    ensures |NaiveRun(c, ops).1| == |ops|
  {
  }

  lemma NaiveTick(m: Memory, c: Config, t: int)
    requires ValidConfig(c) && Sane(m, c)
    ensures NaiveStep(m, c, SelectOp(t)).1 == Some(NaiveSelection(m, c, t)) && NaiveSelection(m, c, t).tick == t
  {
  }

  /** The naive memory is every well-shaped prediction, in order. */
  lemma {:induction false} HistoryIsAllAdded(c: Config, ops: seq<Op>)
    requires ValidConfig(c)
    ensures NaiveRun(c, ops).0.history == Added(c, ops)
    decreases |ops|
  {
    if ops != [] {
      HistoryIsAllAdded(c, ops[..|ops| - 1]);
    }
  }

  /** Over any operations the points balance, every selection averages its
      contributors, and the counters count; and if selected ticks increase,
      nothing leaks, without drops the selections are the naive ones and miss
      nothing, and a box around all chunks contains every action. */
  lemma {:induction false} EveryRunKeeps(c: Config, ops: seq<Op>, lo: seq<real>, hi: seq<real>)
    requires ValidConfig(c) && |lo| == |hi| == c.actionDim
    ensures Conserved(Fold(c, ops).0, Fold(c, ops).1)
    ensures Means(c, ops, Fold(c, ops).1) && Counted(Fold(c, ops).0, c, ops, Fold(c, ops).1)
    ensures Increasing(ops) && Fold(c, ops).0.stats.dropped == 0 ==>
              Fold(c, ops).1 == NaiveRun(c, ops).1 && AllComplete(c, ops, Fold(c, ops).1)
    ensures Increasing(ops) ==> Leakless(c, ops, Fold(c, ops).1)
    ensures Increasing(ops) && HistoryWithin(NaiveRun(c, ops).0.history, lo, hi) ==> Boxed(Fold(c, ops).1, lo, hi)
  {
    hide Fold, Valid, Conserved, Increasing, Leakless, Boxed, HistoryWithin, NaiveRun, Simulates, Means, Counted, AllComplete;
    FoldIsSession(c, ops, lo, hi);
    RunMeans(c, ops);
    NaiveRunIsComplete(c, ops);
  }

  /** Any interleaving of additions and selections. The box [lo, hi] is any
      componentwise bound one wants to know about. */
  method RunEnsembler(c: Config, ops: seq<Op>, ghost lo: seq<real>, ghost hi: seq<real>)
    returns (trace: Trace, e: AbsoluteTimeTemporalEnsembler)
    requires ValidConfig(c) && |lo| == |hi| == c.actionDim
    ensures e.Valid() && e.config == c
    ensures (e.Snapshot(), trace) == Fold(c, ops)
    ensures Conserved(e.Snapshot(), trace)
    ensures Means(c, ops, trace) && Counted(e.Snapshot(), c, ops, trace)
    ensures Increasing(ops) && e.stats.dropped == 0 ==> trace == NaiveRun(c, ops).1 && AllComplete(c, ops, trace)
    ensures Increasing(ops) ==> Leakless(c, ops, trace)
    ensures Increasing(ops) && HistoryWithin(NaiveRun(c, ops).0.history, lo, hi) ==> Boxed(trace, lo, hi)
  {
    hide Fold, Leakless, Boxed, HistoryWithin, NaiveRun, Valid, Conserved, Apply, Increasing, Means, Counted, AllComplete;
    trace := [];
    e := new AbsoluteTimeTemporalEnsembler(c);
    FoldBegins(c, ops[..0]);
    for i := 0 to |ops|
      invariant fresh(e) && e.Valid() && e.config == c
      invariant (e.Snapshot(), trace) == Fold(c, ops[..i])
    {
      FoldAppend(c, ops[..i], ops[i]);
      assert ops[..i + 1] == ops[..i] + [ops[i]];
      var entry := Process(e, ops[i]);
      trace := trace + [entry];
    }
    assert ops[..|ops|] == ops;
    EveryRunKeeps(c, ops, lo, hi);
  }

  method Process(e: AbsoluteTimeTemporalEnsembler, op: Op) returns (entry: Option<Selection>)
    requires e.Valid()
    modifies e
    ensures e.Valid() && (e.Snapshot(), entry) == Apply(old(e.Snapshot()), e.config, op)
  {
    match op
    case AddOp(p) =>
      var added := e.AddPrediction(p);
      entry := None;
    case SelectOp(t) =>
      var selection := e.Select(t);
      entry := Some(selection);
  }
}
