// The ensembler's index: buckets of entries by target tick, their total size,
// and the three ways entries come and go.

module EnsemblerIndex {
  import opened Predictions

  type Buckets = map<int, seq<Entry>>

  function Bucket(m: Buckets, t: int): seq<Entry> {
    if t in m then m[t] else []
  }

  /** Buckets exist only while they hold something, at their entries' target tick. */
  ghost predicate WellFilled(m: Buckets) {
    && (forall t | t in m :: m[t] != [])
    && (forall t, i | t in m && 0 <= i < |m[t]| :: m[t][i].Target() == t)
  }

  predicate IsLeast(s: set<int>, k: int) {
    k in s && forall t | t in s :: k <= t
  }

  lemma {:induction false} LeastExists(s: set<int>)
    requires s != {}
    ensures exists k :: IsLeast(s, k)
    decreases |s|
  {
    assert (forall x :: x !in s) ==> s == {};
    var x :| x in s;
    var rest := s - {x};
    if rest == {} {
      assert s == {x};
      assert IsLeast(s, x);
    } else {
      LeastExists(rest);
      var k :| IsLeast(rest, k);
      assert forall t | t in s :: t == x || t in rest;
      assert IsLeast(s, if x < k then x else k);
    }
  }

  /** The oldest target tick of the index. */
  function OldestTick(m: Buckets): (k: int)
    requires m != map[]
    ensures k in m && forall t | t in m :: k <= t
  {
    assert m.Keys != {};
    LeastExists(m.Keys);
    var k :| k in m.Keys && IsLeast(m.Keys, k);
    k
  }

  /** The number of entries in all buckets. */
  ghost function Size(m: Buckets): nat
    decreases |m|
  {
    if m == map[] then 0
    else
      var k := OldestTick(m);
      assert |m - {k}| < |m| by { Shrinks(m, k); }
      |m[k]| + Size(m - {k})
  }

  lemma Shrinks(m: Buckets, k: int)
    requires k in m
    ensures |m - {k}| < |m|
  {
    assert (m - {k}).Keys == m.Keys - {k};
    assert |(m - {k}).Keys| == |m - {k}| && |m.Keys| == |m|;
  }

  /** Any bucket can be split off. */
  lemma {:induction false} SizeWithout(m: Buckets, k: int)
    requires k in m
    ensures Size(m) == |m[k]| + Size(m - {k})
    decreases |m|
  {
    var o := OldestTick(m);
    if o != k {
      Shrinks(m, o);
      SizeWithout(m - {o}, k);
      assert (m - {o}) - {k} == (m - {k}) - {o};
      var next := OldestTick(m - {k});
      assert next in m && o in m - {k} && next == o;
    }
  }

  lemma SizeUpdate(m: Buckets, k: int, b: seq<Entry>)
    ensures Size(m[k := b]) == Size(m) - |Bucket(m, k)| + |b|
  {
    SizeWithout(m[k := b], k);
    if k in m {
      SizeWithout(m, k);
      assert m[k := b] - {k} == m - {k};
    } else {
      assert m[k := b] - {k} == m;
    }
  }

  // ---- adding --------------------------------------------------------------

  function Insert(m: Buckets, e: Entry): Buckets {
    m[e.Target() := Bucket(m, e.Target()) + [e]]
  }

  /** Adds the first n horizons of a prediction. */
  function InsertAll(m: Buckets, p: Prediction, n: nat): Buckets
    decreases n
  {
    if n == 0 then m else Insert(InsertAll(m, p, n - 1), Entry(p, n - 1))
  }

  /** What a prediction contributes to one tick. */
  function Contribution(p: Prediction, t: int, n: nat): seq<Entry> {
    if 0 <= t - p.queryTick < n then [Entry(p, t - p.queryTick)] else []
  }

  lemma {:induction false} InsertAllFacts(m: Buckets, p: Prediction, n: nat)
    requires WellFilled(m)
    ensures WellFilled(InsertAll(m, p, n))
    ensures Size(InsertAll(m, p, n)) == Size(m) + n
    decreases n
  {
    if n > 0 {
      InsertAllFacts(m, p, n - 1);
      var before := InsertAll(m, p, n - 1);
      var e := Entry(p, n - 1);
      InsertKeepsFilled(before, e);
      SizeUpdate(before, e.Target(), Bucket(before, e.Target()) + [e]);
    }
  }

  lemma {:induction false} InsertAllBucket(m: Buckets, p: Prediction, n: nat, t: int)
    ensures Bucket(InsertAll(m, p, n), t) == Bucket(m, t) + Contribution(p, t, n)
    decreases n
  {
    if n > 0 {
      InsertAllBucket(m, p, n - 1, t);
    }
  }

  lemma InsertKeepsFilled(m: Buckets, e: Entry)
    requires WellFilled(m)
    ensures WellFilled(Insert(m, e))
  {
  }

  // ---- trimming to capacity ------------------------------------------------

  /** Removes the first entry of the oldest bucket. */
  function DropOldest(m: Buckets): Buckets
    requires m != map[] && WellFilled(m)
  {
    var k := OldestTick(m);
    if |m[k]| == 1 then m - {k} else m[k := m[k][1..]]
  }

  /** b is what is left of d after losing entries from the front. */
  predicate Suffix(b: seq<Entry>, d: seq<Entry>) {
    |b| <= |d| && b == d[|d| - |b|..]
  }

  lemma DropOldestFills(m: Buckets)
    requires m != map[] && WellFilled(m)
    ensures WellFilled(DropOldest(m))
  {
    var k := OldestTick(m);
    if |m[k]| > 1 {
      assert forall i | 0 <= i < |m[k]| - 1 :: m[k][1..][i] == m[k][i + 1];
    }
  }

  lemma DropOldestSize(m: Buckets)
    requires m != map[] && WellFilled(m)
    ensures Size(DropOldest(m)) == Size(m) - 1
  {
    var k := OldestTick(m);
    SizeWithout(m, k);
    SizeUpdate(m, k, m[k][1..]);
  }

  lemma DropOldestBucket(m: Buckets, t: int)
    requires m != map[] && WellFilled(m)
    ensures Suffix(Bucket(DropOldest(m), t), Bucket(m, t))
    ensures Bucket(DropOldest(m), t) != Bucket(m, t) ==> t == OldestTick(m)
    ensures t in DropOldest(m) ==> t in m
  {
  }

  /** Trims until at most `capacity` entries are left. */
  ghost function Trim(m: Buckets, capacity: nat): Buckets
    requires WellFilled(m)
    decreases Size(m)
  {
    if Size(m) <= capacity then m
    else
      DropOldestFills(m);
      DropOldestSize(m);
      Trim(DropOldest(m), capacity)
  }

  lemma SuffixChain(x: seq<Entry>, y: seq<Entry>, z: seq<Entry>)
    requires Suffix(x, y) && Suffix(y, z)
    ensures Suffix(x, z)
  {
    assert forall i | 0 <= i < |x| :: x[i] == z[|z| - |x| + i];
  }

  lemma {:induction false} TrimSize(m: Buckets, capacity: nat)
    requires WellFilled(m)
    ensures WellFilled(Trim(m, capacity))
    ensures Size(Trim(m, capacity)) == if Size(m) > capacity then capacity else Size(m)
    decreases Size(m)
  {
    if Size(m) > capacity {
      DropOldestFills(m);
      DropOldestSize(m);
      TrimSize(DropOldest(m), capacity);
    }
  }

  /** Trimming removes entries from the front of buckets only, and none with a
      tick later than any surviving one. */
  lemma {:induction false} TrimRemovesOldest(m: Buckets, capacity: nat, t: int, u: int)
    requires WellFilled(m)
    ensures Suffix(Bucket(Trim(m, capacity), t), Bucket(m, t))
    ensures u in Trim(m, capacity) ==> u in m
    ensures Bucket(Trim(m, capacity), t) != Bucket(m, t) && u in Trim(m, capacity) ==> t <= u
    decreases Size(m)
  {
    if Size(m) > capacity {
      DropOldestFills(m);
      DropOldestSize(m);
      var next := DropOldest(m);
      TrimRemovesOldest(next, capacity, t, u);
      DropOldestBucket(m, t);
      DropOldestBucket(m, u);
      SuffixChain(Bucket(Trim(next, capacity), t), Bucket(next, t), Bucket(m, t));
    }
  }

  // ---- expiring ------------------------------------------------------------

  /** The buckets from `tick` on. */
  function From(m: Buckets, tick: int): Buckets {
    map t | t in m && t >= tick :: m[t]
  }

  lemma FromFacts(m: Buckets, tick: int)
    requires WellFilled(m)
    ensures WellFilled(From(m, tick))
    ensures forall t :: Bucket(From(m, tick), t) == if t >= tick then Bucket(m, t) else []
  {
  }

  lemma {:induction false} FromSize(m: Buckets, tick: int)
    ensures Size(From(m, tick)) <= Size(m)
    decreases |m|
  {
    if m == map[] || OldestTick(m) >= tick {
      assert From(m, tick) == m;
    } else {
      var o := OldestTick(m);
      Shrinks(m, o);
      FromSize(m - {o}, tick);
      assert From(m - {o}, tick) == From(m, tick);
    }
  }

  lemma WithoutFacts(m: Buckets, tick: int)
    requires WellFilled(m)
    ensures WellFilled(m - {tick})
    ensures forall t :: Bucket(m - {tick}, t) == if t == tick then [] else Bucket(m, t)
    ensures Size(m - {tick}) == Size(m) - |Bucket(m, tick)|
  {
    if tick in m {
      SizeWithout(m, tick);
    } else {
      assert m - {tick} == m;
    }
  }
}
