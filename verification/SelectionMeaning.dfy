// What a selection is, read off the selection itself: whose rows it averages,
// in which order, with which weights.

module SelectionMeaning {
  import opened Results
  import opened Reals
  import opened Predictions
  import opened EnsemblerIndex
  import opened EnsembleWeights
  import opened EnsemblerSpec

  function TotalWeight(s: seq<Contributor>): real
    decreases |s|
  {
    if s == [] then 0.0 else TotalWeight(s[..|s| - 1]) + s[|s| - 1].weight
  }

  /** Component k of the contributors' actions, weighted. */
  function WeightedSum(s: seq<Contributor>, k: nat): real
    requires forall i | 0 <= i < |s| :: k < |s[i].action|
    decreases |s|
  {
    if s == [] then 0.0 else WeightedSum(s[..|s| - 1], k) + s[|s| - 1].weight * s[|s| - 1].action[k]
  }

  /** Positive weights with sum one, each q times the one before. */
  ghost predicate Geometric(s: seq<Contributor>, q: real) {
    && TotalWeight(s) == 1.0
    && (forall i | 0 <= i < |s| :: s[i].weight > 0.0)
    && (forall i: nat | i + 1 < |s| :: s[i + 1].weight == q * s[i].weight)
  }

  /** Oldest query first, then by id. */
  predicate InQueryOrder(s: seq<Contributor>) {
    forall i, j | 0 <= i < j < |s| ::
      var p, q := s[i].entry.prediction, s[j].entry.prediction;
      p.queryTick < q.queryTick || (p.queryTick == q.queryTick && p.id <= q.id)
  }

  /** The contributor's action is its prediction's row for tick t. */
  predicate RowFor(x: Contributor, t: int, c: Config) {
    var p, age := x.entry.prediction, t - x.entry.prediction.queryTick;
    && 0 <= age < |p.chunk| && x.action == p.chunk[age] && |x.action| == c.actionDim
    && x.target == t && x.entry.horizon == age
    && (c.maxAge.Some? ==> age <= c.maxAge.value)
  }

  predicate RowsFor(s: seq<Contributor>, t: int, c: Config) {
    forall i | 0 <= i < |s| :: RowFor(s[i], t, c)
  }

  /** A selection that is not a fallback is the weighted average of its
      contributors, component by component; a fallback has none. */
  ghost predicate Averages(s: Selection, c: Config) {
    if s.fallback then s.contributors == []
    else
      && s.contributors != [] && s.age == None
      && RowsFor(s.contributors, s.tick, c) && InQueryOrder(s.contributors) && Geometric(s.contributors, c.q)
      && s.action.Some? && |s.action.value| == c.actionDim
      && forall k: nat | k < c.actionDim :: s.action.value[k] == WeightedSum(s.contributors, k)
  }

  // ---- candidates ------------------------------------------------------------

  /** Candidates of one tick, ready to be averaged. */
  ghost predicate Ripe(candidates: seq<Entry>, c: Config, t: int) {
    && ValidConfig(c) && AllUsable(c, candidates) && Sorted(candidates)
    && forall i | 0 <= i < |candidates| :: candidates[i].Target() == t && !TooOld(candidates[i], c, t)
  }

  lemma {:induction false} WeightsOfContributors(s: seq<Contributor>, weights: seq<real>)
    requires |s| == |weights| && forall i | 0 <= i < |s| :: s[i].weight == weights[i]
    ensures TotalWeight(s) == Sum(weights)
    decreases |s|
  {
    if s != [] {
      WeightsOfContributors(s[..|s| - 1], weights[..|s| - 1]);
    }
  }

  lemma {:induction false} SumOfColumn(s: seq<Contributor>, values: seq<real>, weights: seq<real>, k: nat)
    requires |s| == |values| == |weights| && forall i | 0 <= i < |s| :: k < |s[i].action|
    requires forall i | 0 <= i < |s| :: s[i].weight == weights[i] && s[i].action[k] == values[i]
    ensures WeightedSum(s, k) == Dot(values, weights)
    decreases |s|
  {
    if s != [] {
      var n := |s| - 1;
      SumOfColumn(s[..n], values[..n], weights[..n], k);
      assert values[n] * weights[n] == weights[n] * values[n];
    }
  }

  lemma ContributorsAreGeometric(candidates: seq<Entry>, c: Config, t: int)
    requires c.q > 0.0 && candidates != [] && AllUsable(c, candidates)
    ensures Geometric(Contributors(candidates, c, t), c.q)
  {
    hide Normalized, Pow, Sum, Powers;
    var n := |candidates|;
    WeightsSumToOne(c.q, n);
    var s, weights := Contributors(candidates, c, t), Weights(c.q, n);
    WeightsOfContributors(s, weights);
    hide Weights;
    forall i: nat | i + 1 < n
      ensures s[i + 1].weight == c.q * s[i].weight
    {
      WeightsAreGeometric(c.q, n, i);
      assert s[i].weight == weights[i] && s[i + 1].weight == weights[i + 1];
    }
  }

  lemma EnsembleIsWeightedSum(candidates: seq<Entry>, c: Config, t: int, k: nat)
    requires c.q > 0.0 && candidates != [] && AllUsable(c, candidates) && k < c.actionDim
    ensures var s := Contributors(candidates, c, t);
            && |s| == |candidates|
            && (forall i | 0 <= i < |s| :: s[i].action == Action(candidates[i]) && |s[i].action| == c.actionDim)
            && Ensemble(candidates, c)[k] == WeightedSum(s, k)
  {
    hide Sum, Powers;
    var n := |candidates|;
    WeightsSumToOne(c.q, n);
    var s, weights, column := Contributors(candidates, c, t), Weights(c.q, n), Column(candidates, c, k);
    SumOfColumn(s, column, weights, k);
    assert Ensemble(candidates, c)[k] == Dot(column, weights) / 1.0;
  }

  /** What is reported for ripe candidates averages their rows. */
  lemma ReportAverages(candidates: seq<Entry>, c: Config, t: int, lastAction: Option<seq<real>>, lastTick: Option<int>)
    requires Ripe(candidates, c, t)
    ensures Averages(Report(candidates, c, t, lastAction, lastTick), c)
    ensures Report(candidates, c, t, lastAction, lastTick).tick == t
  {
    if candidates != [] {
      ContributorsAreGeometric(candidates, c, t);
      forall k: nat | k < c.actionDim
        ensures Ensemble(candidates, c)[k] == WeightedSum(Contributors(candidates, c, t), k)
      {
        EnsembleIsWeightedSum(candidates, c, t, k);
      }
      ContributorsAreRows(candidates, c, t);
    }
    hide Ensemble, Contributors, Geometric, RowFor, InQueryOrder;
  }

  lemma ContributorsAreRows(candidates: seq<Entry>, c: Config, t: int)
    requires Ripe(candidates, c, t) && candidates != []
    ensures var s := Contributors(candidates, c, t); s != [] && RowsFor(s, t, c) && InQueryOrder(s)
    ensures |Ensemble(candidates, c)| == c.actionDim
  {
    var s := Contributors(candidates, c, t);
    forall i | 0 <= i < |s|
      ensures RowFor(s[i], t, c)
    {
      assert candidates[i].Target() == t && !TooOld(candidates[i], c, t);
    }
    forall i, j | 0 <= i < j < |s|
      ensures NotAfter(s[i].entry, s[j].entry)
    {
      assert s[i].entry == candidates[i] && s[j].entry == candidates[j];
    }
  }

  lemma CandidatesAreRipe(bucket: seq<Entry>, c: Config, t: int)
    requires ValidConfig(c) && AllUsable(c, bucket)
    requires forall i | 0 <= i < |bucket| :: bucket[i].Target() == t
    ensures Ripe(Candidates(bucket, c, t), c, t)
  {
    CandidatesAreUsable(bucket, c, t);
    var young := Young(bucket, c, t);
    if young != [] {
      SortIsStable(young, young[0]);
    }
    hide StableSort, Young, TooOld, Usable;
  }

  /** Every selection of a valid ensembler is such an average. */
  lemma SelectionAverages(s: State, c: Config, t: int)
    requires Valid(s, c)
    ensures Averages(Select(s, c, t).1, c) && Select(s, c, t).1.tick == t
  {
    var bucket := Bucket(s.byTick, t);
    CandidatesAreUsable(bucket, c, t);
    CandidatesAreRipe(bucket, c, t);
    ReportAverages(Candidates(bucket, c, t), c, t, s.lastAction, s.lastTick);
    hide Averages, Report, Popped, Candidates, Ripe;
  }
}

module SelectionRuns {
  import opened Results
  import opened Predictions
  import opened EnsemblerIndex
  import opened EnsemblerSpec
  import opened NaiveEnsembler
  import opened EnsemblerRuns
  import opened SelectionMeaning

  type Trace = seq<Option<Selection>>

  // ---- every selection of a run ------------------------------------------------

  /** The last selection of a trace that was not a fallback. */
  function LastUsed(trace: Trace): Option<Selection>
    decreases |trace|
  {
    if trace == [] then None
    else
      var last := trace[|trace| - 1];
      if last.Some? && !last.value.fallback then last else LastUsed(trace[..|trace| - 1])
  }

  /** A fallback repeats the last selection, with its age in ticks, if there is one. */
  predicate Repeats(s: Selection, before: Trace) {
    match LastUsed(before)
    case None => s.action == None && s.age == None
    case Some(last) => s.action == last.action && s.age == Some(s.tick - last.tick)
  }

  /** What trace entry i says about operation i. */
  ghost predicate EntryMeans(c: Config, ops: seq<Op>, trace: Trace, i: nat)
    requires i < |ops| && i < |trace|
  {
    if ops[i].AddOp? then trace[i] == None
    else
      && trace[i].Some? && trace[i].value.tick == ops[i].tick
      && Averages(trace[i].value, c)
      && (trace[i].value.fallback ==> Repeats(trace[i].value, trace[..i]))
  }

  ghost predicate Means(c: Config, ops: seq<Op>, trace: Trace) {
    |trace| == |ops| && forall i: nat | i < |ops| :: EntryMeans(c, ops, trace, i)
  }

  function Selections(trace: Trace, fallback: bool): nat
    decreases |trace|
  {
    if trace == [] then 0
    else
      var last := trace[|trace| - 1];
      Selections(trace[..|trace| - 1], fallback) + if last.Some? && last.value.fallback == fallback then 1 else 0
  }

  /** The predictions of the accepted additions, in order. */
  function Added(c: Config, ops: seq<Op>): seq<Prediction>
    decreases |ops|
  {
    if ops == [] then []
    else
      var before, op := Added(c, ops[..|ops| - 1]), ops[|ops| - 1];
      if op.AddOp? && WellShaped(c, op.prediction) then before + [op.prediction] else before
  }

  /** The counters of a run are the numbers of its operations and outcomes. */
  predicate Counted(s: State, c: Config, ops: seq<Op>, trace: Trace) {
    && s.stats.predictions == |Added(c, ops)|
    && s.stats.added == |Added(c, ops)| * (c.maxHorizon + 1)
    && s.stats.selected == Selections(trace, false) && s.stats.fallbacks == Selections(trace, true)
  }

  predicate RemembersLast(s: State, trace: Trace) {
    match LastUsed(trace)
    case None => s.lastAction == None && s.lastTick == None
    case Some(last) => s.lastAction == last.action && s.lastTick == Some(last.tick)
  }

  lemma TraceAppend(c: Config, ops: seq<Op>, op: Op, trace: Trace, entry: Option<Selection>)
    requires |trace| == |ops|
    ensures (trace + [entry])[..|trace|] == trace
    ensures LastUsed(trace + [entry]) == if entry.Some? && !entry.value.fallback then entry else LastUsed(trace)
    ensures forall f :: Selections(trace + [entry], f)
                     == Selections(trace, f) + if entry.Some? && entry.value.fallback == f then 1 else 0
    ensures |Added(c, ops + [op])| == |Added(c, ops)| + if op.AddOp? && WellShaped(c, op.prediction) then 1 else 0
  {
    assert (trace + [entry])[..|trace|] == trace && (ops + [op])[..|ops|] == ops;
  }

  lemma MeansAppend(c: Config, ops: seq<Op>, op: Op, trace: Trace, entry: Option<Selection>)
    requires Means(c, ops, trace)
    requires if op.AddOp? then entry == None
             else && entry.Some? && entry.value.tick == op.tick && Averages(entry.value, c)
                  && (entry.value.fallback ==> Repeats(entry.value, trace))
    ensures Means(c, ops + [op], trace + [entry])
  {
    hide Averages, Repeats;
    var all, next := ops + [op], trace + [entry];
    forall i: nat | i < |all|
      ensures EntryMeans(c, all, next, i)
    {
      assert next[..i] == trace[..i];
      if i < |ops| {
        assert EntryMeans(c, ops, trace, i);
      } else {
        assert trace[..i] == trace;
      }
    }
  }

  lemma AddMeans(s: State, c: Config, p: Prediction)
    requires Valid(s, c)
    ensures var next := Add(s, c, p);
            && next.lastAction == s.lastAction && next.lastTick == s.lastTick
            && next.stats.predictions == s.stats.predictions + 1 && next.stats.added == s.stats.added + c.maxHorizon + 1
            && next.stats.selected == s.stats.selected && next.stats.fallbacks == s.stats.fallbacks
  {
  }

  lemma SelectMeans(s: State, c: Config, t: int, trace: Trace)
    requires Valid(s, c) && RemembersLast(s, trace)
    ensures var r := Select(s, c, t);
            && (r.1.fallback ==> Repeats(r.1, trace) && r.0.lastAction == s.lastAction && r.0.lastTick == s.lastTick)
            && (!r.1.fallback ==> r.0.lastAction == r.1.action && r.0.lastTick == Some(r.1.tick))
            && r.0.stats.predictions == s.stats.predictions && r.0.stats.added == s.stats.added
            && r.0.stats.selected == s.stats.selected + (if r.1.fallback then 0 else 1)
            && r.0.stats.fallbacks == s.stats.fallbacks + (if r.1.fallback then 1 else 0)
  {
    CandidatesAreUsable(Bucket(s.byTick, t), c, t);
    hide Candidates, Ensemble, Contributors, LastUsed;
  }

  lemma ApplyMeans(s: State, c: Config, ops: seq<Op>, op: Op, trace: Trace)
    requires Valid(s, c) && Means(c, ops, trace) && Counted(s, c, ops, trace) && RemembersLast(s, trace)
    ensures var r := Apply(s, c, op);
            && Means(c, ops + [op], trace + [r.1]) && Counted(r.0, c, ops + [op], trace + [r.1])
            && RemembersLast(r.0, trace + [r.1])
  {
    hide Add, Select, Valid, Averages, Repeats, LastUsed, Selections, Added, WellShaped, Counted, RemembersLast,
         EntryMeans;
    var r := Apply(s, c, op);
    ApplyCounts(s, c, op, trace);
    TraceAppend(c, ops, op, trace, r.1);
    CountsNext(s, r.0, c, ops, op, trace, r.1);
    if op.SelectOp? {
      SelectMeans(s, c, op.tick, trace);
      SelectionAverages(s, c, op.tick);
    }
    MeansAppend(c, ops, op, trace, r.1);
  }

  /** What one operation adds to the counters and to the memory. */
  ghost predicate Counts(s: State, s': State, c: Config, op: Op, entry: Option<Selection>) {
    var add := if op.AddOp? && WellShaped(c, op.prediction) then 1 else 0;
    && s'.stats.predictions == s.stats.predictions + add
    && s'.stats.added == s.stats.added + (if add == 1 then c.maxHorizon + 1 else 0)
    && s'.stats.selected == s.stats.selected + (if entry.Some? && !entry.value.fallback then 1 else 0)
    && s'.stats.fallbacks == s.stats.fallbacks + (if entry.Some? && entry.value.fallback then 1 else 0)
    && (if entry.Some? && !entry.value.fallback
        then s'.lastAction == entry.value.action && s'.lastTick == Some(entry.value.tick)
        else s'.lastAction == s.lastAction && s'.lastTick == s.lastTick)
  }

  lemma ApplyCounts(s: State, c: Config, op: Op, trace: Trace)
    requires Valid(s, c) && RemembersLast(s, trace)
    ensures Counts(s, Apply(s, c, op).0, c, op, Apply(s, c, op).1)
  {
    hide Add, Select, Valid, RemembersLast, WellShaped;
    match op
    case AddOp(p) => if WellShaped(c, p) { AddMeans(s, c, p); }
    case SelectOp(t) => SelectMeans(s, c, t, trace);
  }

  lemma CountsNext(s: State, s': State, c: Config, ops: seq<Op>, op: Op, trace: Trace, entry: Option<Selection>)
    requires |trace| == |ops| && Counted(s, c, ops, trace) && RemembersLast(s, trace) && Counts(s, s', c, op, entry)
    ensures Counted(s', c, ops + [op], trace + [entry]) && RemembersLast(s', trace + [entry])
  {
    hide LastUsed, Selections, Added, WellShaped;
    TraceAppend(c, ops, op, trace, entry);
    OneMoreAdd(|Added(c, ops)|, c.maxHorizon + 1);
  }

  lemma OneMoreAdd(n: nat, k: nat)
    ensures (n + 1) * k == n * k + k
  {
  }

  /** Over any operations: every selection is the average of its contributors'
      rows, every fallback repeats the last selection, and the counters count. */
  lemma {:induction false} RunMeans(c: Config, ops: seq<Op>)
    requires ValidConfig(c)
    ensures Means(c, ops, Fold(c, ops).1) && Counted(Fold(c, ops).0, c, ops, Fold(c, ops).1)
    ensures RemembersLast(Fold(c, ops).0, Fold(c, ops).1)
    decreases |ops|
  {
    hide Apply, Valid, Means, Counted, RemembersLast;
    if ops == [] {
      NothingMeans(c, ops, Fold(c, ops).1);
      FoldBegins(c, ops);
    } else {
      var before, op := ops[..|ops| - 1], ops[|ops| - 1];
      RunMeans(c, before);
      ApplyMeans(Fold(c, before).0, c, before, op, Fold(c, before).1);
      FoldAppend(c, before, op);
      assert before + [op] == ops;
    }
  }

  lemma NothingMeans(c: Config, ops: seq<Op>, trace: Trace)
    requires ops == [] && trace == []
    ensures Means(c, ops, trace) && Counted(FRESH, c, ops, trace) && RemembersLast(FRESH, trace)
  {
    assert 0 * (c.maxHorizon + 1) == 0;
  }

  // ---- nothing relevant is missing ----------------------------------------------

  /** A prediction that speaks about tick t, and is young enough. */
  predicate Eligible(p: Prediction, c: Config, t: int) {
    0 <= t - p.queryTick <= c.maxHorizon && (c.maxAge.Some? ==> t - p.queryTick <= c.maxAge.value)
  }

  function EntriesOf(s: seq<Contributor>): seq<Entry> {
    seq(|s|, i requires 0 <= i < |s| => s[i].entry)
  }

  /** The contributors are exactly the eligible predictions, each as often as
      it was made, and a fallback means that there is none. */
  ghost predicate Complete(s: Selection, c: Config, history: seq<Prediction>) {
    && (forall p | p in history && Eligible(p, c, s.tick) ::
          multiset(EntriesOf(s.contributors))[Entry(p, s.tick - p.queryTick)] == multiset(history)[p])
    && (forall i | 0 <= i < |s.contributors| ::
          s.contributors[i].entry.prediction in history && Eligible(s.contributors[i].entry.prediction, c, s.tick))
    && (s.fallback <==> forall p | p in history :: !Eligible(p, c, s.tick))
  }

  lemma {:induction false} RelevantIsComplete(history: seq<Prediction>, c: Config, t: int, p: Prediction)
    requires Eligible(p, c, t)
    ensures multiset(Relevant(history, c, t))[Entry(p, t - p.queryTick)] == multiset(history)[p]
    decreases |history|
  {
    if history != [] {
      var front, last := history[..|history| - 1], history[|history| - 1];
      RelevantIsComplete(front, c, t, p);
      var tail := if Eligible(last, c, t) then [Entry(last, t - last.queryTick)] else [];
      assert Relevant(history, c, t) == Relevant(front, c, t) + tail;
      hide Relevant, Eligible;
      CountAppend(front, last, p);
      assert history == front + [last];
      CountTail(Relevant(front, c, t), last, p, t, Eligible(last, c, t));
    }
  }

  lemma CountTail(relevant: seq<Entry>, last: Prediction, p: Prediction, t: int, eligible: bool)
    requires eligible ==> last.queryTick <= t
    requires p.queryTick <= t && (last == p ==> eligible)
    ensures multiset(relevant + if eligible then [Entry(last, t - last.queryTick)] else [])[Entry(p, t - p.queryTick)]
         == multiset(relevant)[Entry(p, t - p.queryTick)] + if last == p then 1 else 0
  {
    if eligible {
      CountAppend(relevant, Entry(last, t - last.queryTick), Entry(p, t - p.queryTick));
    } else {
      assert relevant + [] == relevant;
    }
  }

  lemma CountAppend<T>(s: seq<T>, x: T, y: T)
    ensures multiset(s + [x])[y] == multiset(s)[y] + if x == y then 1 else 0
  {
  }

  lemma SortedEntries(relevant: seq<Entry>)
    ensures multiset(StableSort(relevant)) == multiset(relevant)
  {
    if relevant != [] {
      SortIsStable(relevant, relevant[0]);
    }
  }

  /** A permutation of the relevant entries misses nothing. */
  lemma PermutedIsComplete(s: Selection, sorted: seq<Entry>, relevant: seq<Entry>, c: Config, history: seq<Prediction>)
    requires relevant == Relevant(history, c, s.tick) && multiset(sorted) == multiset(relevant)
    requires EntriesOf(s.contributors) == sorted && (s.fallback <==> sorted == [])
    ensures Complete(s, c, history)
  {
    RelevantMembers(history, c, s.tick);
    hide Relevant;
    forall p | p in history && Eligible(p, c, s.tick)
      ensures multiset(sorted)[Entry(p, s.tick - p.queryTick)] == multiset(history)[p] && sorted != []
    {
      RelevantIsComplete(history, c, s.tick, p);
      assert p in multiset(history);
      assert Entry(p, s.tick - p.queryTick) in multiset(sorted);
    }
    forall i | 0 <= i < |sorted|
      ensures sorted[i].prediction in history && Eligible(sorted[i].prediction, c, s.tick)
    {
      assert sorted[i] in multiset(sorted);
      assert sorted[i] in relevant;
    }
    assert |s.contributors| == |sorted|;
    assert forall i | 0 <= i < |sorted| :: s.contributors[i].entry == sorted[i];
    if sorted != [] {
      assert Eligible(sorted[0].prediction, c, s.tick) && sorted[0].prediction in history;
    }
  }

  lemma NaiveIsComplete(m: Memory, c: Config, t: int)
    requires ValidConfig(c) && Sane(m, c)
    ensures Complete(NaiveSelection(m, c, t), c, m.history)
  {
    hide Complete, Relevant, StableSort, Ensemble;
    var relevant := Relevant(m.history, c, t);
    RelevantIsUsable(m, c, t);
    SortedEntries(relevant);
    assert EntriesOf(Contributors(StableSort(relevant), c, t)) == StableSort(relevant);
    PermutedIsComplete(NaiveSelection(m, c, t), StableSort(relevant), relevant, c, m.history);
  }
}
