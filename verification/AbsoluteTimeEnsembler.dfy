// The ensembler object: adding chunks, trimming, expiring and selecting.

module EnsemblerSpec {
  import opened Results
  import opened Predictions
  import opened EnsemblerIndex
  import opened EnsembleWeights

  /** `q` is exp(-coefficient), which is positive for every finite coefficient. */
  datatype Config = Config(actionDim: nat, chunkSize: nat, q: real, maxHorizon: nat, maxAge: Option<nat>, capacity: nat)

  predicate ValidConfig(c: Config) {
    c.actionDim >= 1 && c.chunkSize >= 1 && c.q > 0.0 && c.maxHorizon < c.chunkSize && c.capacity >= 1
  }

  datatype Stats = Stats(predictions: nat, added: nat, dropped: nat, expired: nat, ageExpired: nat,
                         selected: nat, fallbacks: nat)

  datatype State = State(byTick: Buckets, count: nat, lastAction: Option<seq<real>>, lastTick: Option<int>, stats: Stats)

  datatype Contributor = Contributor(entry: Entry, target: int, action: seq<real>, weight: real)

  datatype Selection = Selection(tick: int, action: Option<seq<real>>, contributors: seq<Contributor>,
                                 fallback: bool, age: Option<int>)

  const FRESH: State := State(map[], 0, None, None, Stats(0, 0, 0, 0, 0, 0, 0))

  predicate WellShaped(c: Config, p: Prediction) {
    |p.chunk| == c.chunkSize && forall h | 0 <= h < |p.chunk| :: |p.chunk[h]| == c.actionDim
  }

  /** An entry whose action can be looked up. */
  predicate Usable(c: Config, e: Entry) {
    WellShaped(c, e.prediction) && e.horizon < c.chunkSize
  }

  predicate AllUsable(c: Config, s: seq<Entry>) {
    forall i | 0 <= i < |s| :: Usable(c, s[i])
  }

  /** What the object keeps between calls: the count is the total bucket size. */
  ghost predicate Valid(s: State, c: Config) {
    && ValidConfig(c) && WellFilled(s.byTick)
    && s.count == Size(s.byTick) <= c.capacity
    && (forall t | t in s.byTick :: AllUsable(c, s.byTick[t]))
    && (s.lastAction.Some? <==> s.lastTick.Some?)
    && (s.lastAction.Some? ==> |s.lastAction.value| == c.actionDim)
  }

  /** All horizons of a chunk, then the trim. */
  ghost function Add(s: State, c: Config, p: Prediction): State
    requires WellFilled(s.byTick) && s.count == Size(s.byTick)
  {
    InsertAllFacts(s.byTick, p, c.maxHorizon + 1);
    var all := InsertAll(s.byTick, p, c.maxHorizon + 1);
    TrimSize(all, c.capacity);
    var kept := Trim(all, c.capacity);
    s.(byTick := kept, count := Size(kept),
       stats := s.stats.(predictions := s.stats.predictions + 1, added := s.stats.added + c.maxHorizon + 1,
                         dropped := s.stats.dropped + (Size(all) - Size(kept))))
  }

  predicate TooOld(e: Entry, c: Config, t: int) {
    c.maxAge.Some? && t - e.prediction.queryTick > c.maxAge.value
  }

  /** The entries young enough to be used, in order. */
  function Young(s: seq<Entry>, c: Config, t: int): (r: seq<Entry>)
    ensures |r| <= |s|
    decreases |s|
  {
    if s == [] then []
    else Young(s[..|s| - 1], c, t) + if TooOld(s[|s| - 1], c, t) then [] else [s[|s| - 1]]
  }

  lemma {:induction false} YoungMembers(s: seq<Entry>, c: Config, t: int)
    ensures forall i | 0 <= i < |Young(s, c, t)| :: Young(s, c, t)[i] in s && !TooOld(Young(s, c, t)[i], c, t)
    decreases |s|
  {
    if s != [] {
      YoungMembers(s[..|s| - 1], c, t);
    }
  }

  function Action(e: Entry): seq<real>
    requires e.horizon < |e.prediction.chunk|
  {
    e.prediction.chunk[e.horizon]
  }

  /** One component of all candidates. */
  function Column(candidates: seq<Entry>, c: Config, k: nat): seq<real>
    requires AllUsable(c, candidates) && k < c.actionDim
  {
    seq(|candidates|, i requires 0 <= i < |candidates| => Action(candidates[i])[k])
  }

  function Ensemble(candidates: seq<Entry>, c: Config): seq<real>
    requires c.q > 0.0 && candidates != [] && AllUsable(c, candidates)
  {
    WeightsSumToOne(c.q, |candidates|);
    seq(c.actionDim, k requires 0 <= k < c.actionDim => Average(Column(candidates, c, k), Weights(c.q, |candidates|)))
  }

  function Contributors(candidates: seq<Entry>, c: Config, t: int): seq<Contributor>
    requires c.q > 0.0 && AllUsable(c, candidates)
  {
    if candidates == [] then []
    else
      WeightsSumToOne(c.q, |candidates|);
      seq(|candidates|, i requires 0 <= i < |candidates| =>
        Contributor(candidates[i], t, Action(candidates[i]), Weights(c.q, |candidates|)[i]))
  }

  /** The candidates for a tick: its bucket without what is too old, oldest query first. */
  function Candidates(bucket: seq<Entry>, c: Config, t: int): seq<Entry> {
    StableSort(Young(bucket, c, t))
  }

  lemma CandidatesAreUsable(bucket: seq<Entry>, c: Config, t: int)
    requires AllUsable(c, bucket)
    ensures AllUsable(c, Candidates(bucket, c, t))
    ensures forall i | 0 <= i < |Candidates(bucket, c, t)| ::
      Candidates(bucket, c, t)[i] in bucket && !TooOld(Candidates(bucket, c, t)[i], c, t)
  {
    YoungMembers(bucket, c, t);
    SortKeepsMembers(Young(bucket, c, t));
  }

  /** What a selection reports, given the candidates and the last action. */
  function Report(candidates: seq<Entry>, c: Config, t: int, lastAction: Option<seq<real>>, lastTick: Option<int>): Selection
    requires c.q > 0.0 && AllUsable(c, candidates)
  {
    if candidates != [] then Selection(t, Some(Ensemble(candidates, c)), Contributors(candidates, c, t), false, None)
    else Selection(t, lastAction, [], true, if lastTick.Some? then Some(t - lastTick.value) else None)
  }

  /** The state after expiring, popping and filtering the bucket of t. */
  ghost function Popped(s: State, c: Config, t: int): State {
    var later := From(s.byTick, t);
    FromSize(s.byTick, t);
    var bucket := Bucket(s.byTick, t);
    s.(byTick := later - {t}, count := Size(later - {t}),
       stats := s.stats.(expired := s.stats.expired + (Size(s.byTick) - Size(later)),
                         ageExpired := s.stats.ageExpired + (|bucket| - |Young(bucket, c, t)|)))
  }

  ghost function Select(s: State, c: Config, t: int): (State, Selection)
    requires Valid(s, c)
  {
    CandidatesAreUsable(Bucket(s.byTick, t), c, t);
    var candidates := Candidates(Bucket(s.byTick, t), c, t);
    var popped := Popped(s, c, t);
    var report := Report(candidates, c, t, s.lastAction, s.lastTick);
    (if candidates != [] then
       popped.(lastAction := report.action, lastTick := Some(t),
               stats := popped.stats.(selected := popped.stats.selected + 1))
     else popped.(stats := popped.stats.(fallbacks := popped.stats.fallbacks + 1)),
     report)
  }

  // ---- the invariant and the accounting ------------------------------------

  lemma PoppedFacts(s: State, c: Config, t: int)
    requires Valid(s, c)
    ensures Valid(Popped(s, c, t), c)
    ensures Popped(s, c, t).count + |Bucket(s.byTick, t)| == Size(From(s.byTick, t)) <= s.count
    ensures forall u :: Bucket(Popped(s, c, t).byTick, u) == if u > t then Bucket(s.byTick, u) else []
  {
    FromFacts(s.byTick, t);
    FromSize(s.byTick, t);
    WithoutFacts(From(s.byTick, t), t);
  }

  lemma SelectKeepsValid(s: State, c: Config, t: int)
    requires Valid(s, c)
    ensures Valid(Select(s, c, t).0, c)
  {
    CandidatesAreUsable(Bucket(s.byTick, t), c, t);
    PoppedFacts(s, c, t);
    hide Popped, WellFilled;
  }

  lemma SuffixIsUsable(b: seq<Entry>, d: seq<Entry>, c: Config)
    requires Suffix(b, d) && AllUsable(c, d)
    ensures AllUsable(c, b)
  {
    hide Usable;
    assert forall i | 0 <= i < |b| :: b[i] == d[|d| - |b| + i];
  }

  lemma ConcatIsUsable(x: seq<Entry>, y: seq<Entry>, c: Config)
    requires AllUsable(c, x) && AllUsable(c, y)
    ensures AllUsable(c, x + y)
  {
    hide Usable;
  }

  lemma ContributionIsUsable(c: Config, p: Prediction, t: int)
    requires WellShaped(c, p) && c.maxHorizon < c.chunkSize
    ensures AllUsable(c, Contribution(p, t, c.maxHorizon + 1))
  {
    hide WellShaped;
  }

  lemma AddKeepsUsable(m: Buckets, c: Config, p: Prediction, t: int)
    requires ValidConfig(c) && WellFilled(m) && WellShaped(c, p) && AllUsable(c, Bucket(m, t))
    ensures WellFilled(InsertAll(m, p, c.maxHorizon + 1))
    ensures AllUsable(c, Bucket(Trim(InsertAll(m, p, c.maxHorizon + 1), c.capacity), t))
  {
    hide WellFilled, Trim, InsertAll, Suffix, WellShaped, Usable, AllUsable, Contribution, Bucket;
    ContributionIsUsable(c, p, t);
    ConcatIsUsable(Bucket(m, t), Contribution(p, t, c.maxHorizon + 1), c);
    var all := InsertAll(m, p, c.maxHorizon + 1);
    InsertAllFacts(m, p, c.maxHorizon + 1);
    InsertAllBucket(m, p, c.maxHorizon + 1, t);
    TrimRemovesOldest(all, c.capacity, t, t);
    SuffixIsUsable(Bucket(Trim(all, c.capacity), t), Bucket(all, t), c);
  }

  lemma AddKeepsValid(s: State, c: Config, p: Prediction)
    requires Valid(s, c) && WellShaped(c, p)
    ensures Valid(Add(s, c, p), c)
  {
    InsertAllFacts(s.byTick, p, c.maxHorizon + 1);
    TrimSize(InsertAll(s.byTick, p, c.maxHorizon + 1), c.capacity);
    forall t | t in Add(s, c, p).byTick
      ensures AllUsable(c, Add(s, c, p).byTick[t])
    {
      AddKeepsUsable(s.byTick, c, p, t);
    }
  }

  /** Points removed so far without being used. */
  function Lost(s: Stats): nat {
    s.dropped + s.expired + s.ageExpired
  }

  /** Adding: every new point is buffered or was dropped for capacity. */
  lemma AddAccounts(s: State, c: Config, p: Prediction)
    requires Valid(s, c)
    ensures var next := Add(s, c, p);
            && next.stats.added - Lost(next.stats) - next.count == s.stats.added - Lost(s.stats) - s.count
            && next.stats.added == s.stats.added + c.maxHorizon + 1
  {
    InsertAllFacts(s.byTick, p, c.maxHorizon + 1);
  }

  /** Selecting: every point that leaves the buffer expired, was too old, or contributes. */
  lemma SelectAccounts(s: State, c: Config, t: int)
    requires Valid(s, c)
    ensures var r := Select(s, c, t);
            && r.0.stats.added == s.stats.added && r.0.stats.dropped == s.stats.dropped
            && s.count == r.0.count + (Lost(r.0.stats) - Lost(s.stats)) + |r.1.contributors|
  {
    CandidatesAreUsable(Bucket(s.byTick, t), c, t);
    PoppedFacts(s, c, t);
  }
}

module TemporalEnsembler {
  import opened Results
  import opened Predictions
  import opened EnsemblerIndex
  import opened Spec = EnsemblerSpec

  datatype ValueError = InvalidDimensions | InvalidHorizon | InvalidCapacity | MalformedChunk

  class AbsoluteTimeTemporalEnsembler {
    const config: Config
    var byTick: Buckets
    var entryCount: nat
    var lastAction: Option<seq<real>>
    var lastActionTick: Option<int>
    var stats: Stats

    ghost function Snapshot(): State
      reads this
    {
      State(byTick, entryCount, lastAction, lastActionTick, stats)
    }

    ghost predicate Valid()
      reads this
    {
      Spec.Valid(Snapshot(), config)
    }

    constructor (c: Config)
      requires ValidConfig(c)
      ensures config == c && Snapshot() == FRESH && Valid()
    {
      config := c;
      byTick, entryCount := map[], 0;
      lastAction, lastActionTick := None, None;
      stats := Stats(0, 0, 0, 0, 0, 0, 0);
    }

    /** The checked construction; without a source horizon the whole chunk is used. */
    static method Create(actionDim: int, chunkSize: int, q: real, maxHorizon: Option<int>, maxAge: Option<int>,
                         capacity: int)
      returns (r: Result<AbsoluteTimeTemporalEnsembler, ValueError>)
      requires q > 0.0
      ensures r.Ok? <==> actionDim >= 1 && chunkSize >= 1 && (maxHorizon.Some? ==> 0 <= maxHorizon.value < chunkSize)
                         && (maxAge.Some? ==> maxAge.value >= 0) && capacity >= 1
      ensures r.Ok? ==> fresh(r.value) && r.value.Snapshot() == FRESH && r.value.Valid()
      ensures r.Ok? ==> r.value.config == Config(actionDim, chunkSize, q,
                          if maxHorizon.Some? then maxHorizon.value else chunkSize - 1,
                          if maxAge.Some? then Some(maxAge.value) else None, capacity)
    {
      if actionDim < 1 || chunkSize < 1 {
        return Err(InvalidDimensions);
      }
      if maxHorizon.Some? && !(0 <= maxHorizon.value < chunkSize) {
        return Err(InvalidHorizon);
      }
      if maxAge.Some? && maxAge.value < 0 {
        return Err(InvalidHorizon);
      }
      if capacity < 1 {
        return Err(InvalidCapacity);
      }
      var horizon: nat := if maxHorizon.Some? then maxHorizon.value else chunkSize - 1;
      var age: Option<nat> := if maxAge.Some? then Some(maxAge.value) else None;
      var ensembler := new AbsoluteTimeTemporalEnsembler(Config(actionDim, chunkSize, q, horizon, age, capacity));
      return Ok(ensembler);
    }

    method AddPrediction(p: Prediction) returns (r: Result<nat, ValueError>)
      requires Valid()
      modifies this
      ensures Valid()
      ensures r.Ok? <==> WellShaped(config, p)
      ensures Snapshot() == if r.Ok? then Spec.Add(old(Snapshot()), config, p) else old(Snapshot())
      ensures r.Ok? ==> r.value == config.maxHorizon + 1
    {
      if !WellShaped(config, p) {
        return Err(MalformedChunk);
      }
      AddKeepsValid(Snapshot(), config, p);
      Filled(byTick, entryCount, p, config);
      hide Trim, Spec.Valid, Size, WellFilled, InsertAll, WellShaped;
      var added := InsertChunk(p);
      stats := stats.(predictions := stats.predictions + 1, added := stats.added + added);
      TrimCapacity();
      return Ok(added);
    }

    method InsertChunk(p: Prediction) returns (added: nat)
      modifies this`byTick, this`entryCount
      ensures added == config.maxHorizon + 1
      ensures byTick == InsertAll(old(byTick), p, added) && entryCount == old(entryCount) + added
    {
      added := 0;
      for horizon := 0 to config.maxHorizon + 1
        invariant byTick == InsertAll(old(byTick), p, horizon)
        invariant entryCount == old(entryCount) + horizon && added == horizon
      {
        var target := p.queryTick + horizon;
        byTick := byTick[target := Bucket(byTick, target) + [Entry(p, horizon)]];
        entryCount := entryCount + 1;
        added := added + 1;
      }
    }

    lemma Filled(m: Buckets, count: nat, p: Prediction, c: Config)
      requires WellFilled(m) && count == Size(m)
      ensures WellFilled(InsertAll(m, p, c.maxHorizon + 1))
      ensures Size(InsertAll(m, p, c.maxHorizon + 1)) == count + c.maxHorizon + 1
    {
      InsertAllFacts(m, p, c.maxHorizon + 1);
    }

    method TrimCapacity()
      requires WellFilled(byTick) && entryCount == Size(byTick)
      modifies this`byTick, this`entryCount, this`stats
      ensures byTick == Trim(old(byTick), config.capacity) && entryCount == Size(byTick)
      ensures WellFilled(byTick) && Size(byTick) <= Size(old(byTick))
      ensures stats == old(stats).(dropped := old(stats).dropped + (Size(old(byTick)) - Size(byTick)))
    {
      while entryCount > config.capacity
        invariant WellFilled(byTick) && entryCount == Size(byTick) <= Size(old(byTick))
        invariant Trim(byTick, config.capacity) == Trim(old(byTick), config.capacity)
        invariant stats == old(stats).(dropped := old(stats).dropped + (Size(old(byTick)) - Size(byTick)))
        decreases entryCount
      {
        DropOldestFills(byTick);
        DropOldestSize(byTick);
        var oldest := OldestTick(byTick);
        var entries := byTick[oldest][1..];
        entryCount := entryCount - 1;
        stats := stats.(dropped := stats.dropped + 1);
        byTick := if entries == [] then byTick - {oldest} else byTick[oldest := entries];
      }
    }

    method ExpireBefore(tick: int)
      requires WellFilled(byTick) && entryCount == Size(byTick)
      modifies this`byTick, this`entryCount, this`stats
      ensures byTick == From(old(byTick), tick) && entryCount == Size(byTick) <= Size(old(byTick))
      ensures WellFilled(byTick)
      ensures stats == old(stats).(expired := old(stats).expired + (Size(old(byTick)) - Size(byTick)))
    {
      var expired := set t | t in byTick && t < tick;
      while expired != {}
        invariant WellFilled(byTick) && entryCount == Size(byTick) <= Size(old(byTick))
        invariant expired == set t | t in byTick && t < tick
        invariant From(byTick, tick) == From(old(byTick), tick)
        invariant stats == old(stats).(expired := old(stats).expired + (Size(old(byTick)) - Size(byTick)))
        decreases expired
      {
        var t :| t in expired;
        WithoutFacts(byTick, t);
        FromWithout(byTick, tick, t);
        stats := stats.(expired := stats.expired + |byTick[t]|);
        entryCount := entryCount - |byTick[t]|;
        byTick := byTick - {t};
        expired := expired - {t};
      }
      NothingBefore(byTick, tick, expired);
    }

    static lemma FromWithout(m: Buckets, tick: int, t: int)
      requires t < tick
      ensures From(m - {t}, tick) == From(m, tick)
    {
    }

    static lemma NothingBefore(m: Buckets, tick: int, expired: set<int>)
      requires expired == set t | t in m && t < tick
      ensures expired == {} ==> From(m, tick) == m
    {
      if expired == {} {
        forall t | t in m
          ensures t >= tick
        {
          assert t < tick ==> t in expired;
        }
      }
    }

    /** The entries of the popped bucket that are not too old. */
    method Filter(raw: seq<Entry>, tick: int) returns (candidates: seq<Entry>)
      modifies this`stats
      ensures candidates == Young(raw, config, tick)
      ensures stats == old(stats).(ageExpired := old(stats).ageExpired + (|raw| - |candidates|))
    {
      candidates := [];
      for i := 0 to |raw|
        invariant candidates == Young(raw[..i], config, tick)
        invariant stats == old(stats).(ageExpired := old(stats).ageExpired + (i - |candidates|))
      {
        assert raw[..i + 1][..i] == raw[..i];
        var age := tick - raw[i].prediction.queryTick;
        if config.maxAge.Some? && age > config.maxAge.value {
          stats := stats.(ageExpired := stats.ageExpired + 1);
        } else {
          candidates := candidates + [raw[i]];
        }
      }
      assert raw[..|raw|] == raw;
    }

    method Pop(tick: int) returns (young: seq<Entry>)
      requires Valid()
      modifies this
      ensures Snapshot() == Popped(old(Snapshot()), config, tick)
      ensures young == Young(Bucket(old(byTick), tick), config, tick)
    {
      hide Young;
      ExpireBefore(tick);
      WithoutFacts(byTick, tick);
      var raw := Bucket(byTick, tick);
      assert raw == Bucket(old(byTick), tick);
      byTick := byTick - {tick};
      entryCount := entryCount - |raw|;
      young := Filter(raw, tick);
    }

    method Select(tick: int) returns (selection: Selection)
      requires Valid()
      modifies this
      ensures Valid()
      ensures (Snapshot(), selection) == Spec.Select(old(Snapshot()), config, tick)
    {
      SelectKeepsValid(Snapshot(), config, tick);
      CandidatesAreUsable(Bucket(byTick, tick), config, tick);
      ghost var s := Snapshot();
      hide Spec.Valid, Popped, Ensemble, AllUsable, Young;
      var young := Pop(tick);
      var candidates := StableSort(young);
      if candidates != [] {
        var action := Ensemble(candidates, config);
        lastAction, lastActionTick := Some(action), Some(tick);
        stats := stats.(selected := stats.selected + 1);
        return Selection(tick, Some(action), Contributors(candidates, config, tick), false, None);
      }
      stats := stats.(fallbacks := stats.fallbacks + 1);
      var age := if lastActionTick.Some? then Some(tick - lastActionTick.value) else None;
      return Selection(tick, lastAction, [], true, age);
    }
  }
}
