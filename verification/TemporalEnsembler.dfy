// The absolute-time temporal ensembler: an index from target tick to
// predictions, bounded by capacity, expired by time, averaged by geometric
// weights.

module Predictions {
  /** One query of the policy: a chunk of actions, one per future tick. */
  datatype Prediction = Prediction(id: int, timestamp: int, queryTick: int, chunk: seq<seq<real>>)

  /** A prediction's action for one tick. */
  datatype Entry = Entry(prediction: Prediction, horizon: nat) {
    function Target(): int {
      prediction.queryTick + horizon
    }
  }

  /** The sort key: query tick first, then query id. */
  predicate NotAfter(x: Entry, y: Entry) {
    || x.prediction.queryTick < y.prediction.queryTick
    || (x.prediction.queryTick == y.prediction.queryTick && x.prediction.id <= y.prediction.id)
  }

  predicate SameKey(x: Entry, y: Entry) {
    x.prediction.queryTick == y.prediction.queryTick && x.prediction.id == y.prediction.id
  }

  predicate Sorted(s: seq<Entry>) {
    forall i, j | 0 <= i < j < |s| :: NotAfter(s[i], s[j])
  }

  /** Puts x behind everything that is not after it. */
  function Place(s: seq<Entry>, x: Entry): (r: seq<Entry>)
    ensures |r| == |s| + 1
    decreases |s|
  {
    if s == [] || NotAfter(s[|s| - 1], x) then s + [x] else Place(s[..|s| - 1], x) + [s[|s| - 1]]
  }

  /** The stable sort of the standard library. */
  function StableSort(s: seq<Entry>): (r: seq<Entry>)
    ensures |r| == |s|
    decreases |s|
  {
    if s == [] then [] else Place(StableSort(s[..|s| - 1]), s[|s| - 1])
  }

  /** The elements with the key of x, in order. */
  function WithKey(s: seq<Entry>, x: Entry): seq<Entry>
    decreases |s|
  {
    if s == [] then []
    else WithKey(s[..|s| - 1], x) + if SameKey(s[|s| - 1], x) then [s[|s| - 1]] else []
  }

  lemma WithKeyAppend(s: seq<Entry>, y: Entry, x: Entry)
    ensures WithKey(s + [y], x) == WithKey(s, x) + if SameKey(y, x) then [y] else []
  {
    assert (s + [y])[..|s|] == s;
  }

  lemma {:induction false} PlaceMembers(s: seq<Entry>, x: Entry)
    ensures multiset(Place(s, x)) == multiset(s) + multiset{x}
    decreases |s|
  {
    if s != [] && !NotAfter(s[|s| - 1], x) {
      PlaceMembers(s[..|s| - 1], x);
      assert s == s[..|s| - 1] + [s[|s| - 1]];
    }
  }

  lemma {:induction false} PlaceSorts(s: seq<Entry>, x: Entry)
    requires Sorted(s)
    ensures Sorted(Place(s, x))
    decreases |s|
  {
    if s != [] && !NotAfter(s[|s| - 1], x) {
      var front, last := s[..|s| - 1], s[|s| - 1];
      PlaceSorts(front, x);
      PlaceMembers(front, x);
      var placed := Place(front, x);
      forall i | 0 <= i < |placed|
        ensures NotAfter(placed[i], last)
      {
        assert placed[i] in multiset(placed);
        assert placed[i] == x || placed[i] in front;
      }
    }
  }

  lemma {:induction false} PlaceIsStable(s: seq<Entry>, x: Entry, k: Entry)
    ensures WithKey(Place(s, x), k) == WithKey(s, k) + if SameKey(x, k) then [x] else []
    decreases |s|
  {
    if s == [] || NotAfter(s[|s| - 1], x) {
      WithKeyAppend(s, x, k);
    } else {
      PlaceIsStable(s[..|s| - 1], x, k);
      WithKeyAppend(Place(s[..|s| - 1], x), s[|s| - 1], k);
    }
  }

  /** Sorting reorders, sorts, and keeps the order of equal keys. */
  lemma {:induction false} SortIsStable(s: seq<Entry>, k: Entry)
    ensures Sorted(StableSort(s))
    ensures multiset(StableSort(s)) == multiset(s)
    ensures WithKey(StableSort(s), k) == WithKey(s, k)
    decreases |s|
  {
    if s != [] {
      var front, last := s[..|s| - 1], s[|s| - 1];
      assert s == front + [last];
      SortIsStable(front, k);
      PlaceMembers(StableSort(front), last);
      PlaceSorts(StableSort(front), last);
      PlaceIsStable(StableSort(front), last, k);
    }
  }

  lemma SortKeepsMembers(s: seq<Entry>)
    ensures forall i | 0 <= i < |s| :: StableSort(s)[i] in s
  {
    forall i | 0 <= i < |s|
      ensures StableSort(s)[i] in s
    {
      SortIsStable(s, StableSort(s)[i]);
      assert StableSort(s)[i] in multiset(StableSort(s));
    }
  }

  /** A sequence that is already in query order is left alone. */
  lemma {:induction false} SortedIsFixed(s: seq<Entry>)
    requires Sorted(s)
    ensures StableSort(s) == s
    decreases |s|
  {
    if s != [] {
      SortedIsFixed(s[..|s| - 1]);
    }
  }
}

module EnsembleWeights {
  import opened Reals

  function Sum(s: seq<real>): real
    decreases |s|
  {
    if s == [] then 0.0 else Sum(s[..|s| - 1]) + s[|s| - 1]
  }

  function Times(x: real, y: real): real {
    x * y
  }

  function Dot(values: seq<real>, weights: seq<real>): real
    requires |values| == |weights|
    decreases |values|
  {
    if values == [] then 0.0
    else Dot(values[..|values| - 1], weights[..|values| - 1]) + Times(values[|values| - 1], weights[|values| - 1])
  }

  /** The unnormalized weights 1, q, q^2, ... of n candidates, oldest first. */
  function Powers(q: real, n: nat): seq<real> {
    seq(n, i requires 0 <= i < n => Pow(q, i))
  }

  function Normalized(weight: real, total: real): real
    requires total != 0.0
  {
    weight / total
  }

  function Weights(q: real, n: nat): seq<real>
    requires Sum(Powers(q, n)) != 0.0
  {
    seq(n, i requires 0 <= i < n => Normalized(Pow(q, i), Sum(Powers(q, n))))
  }

  lemma {:induction false} PowPositive(q: real, i: nat)
    requires q > 0.0
    ensures Pow(q, i) > 0.0
    decreases i
  {
    if i > 0 {
      PowPositive(q, i - 1);
      Positive(q, Pow(q, i - 1));
    }
  }

  lemma {:induction false} PowersPositive(q: real, n: nat)
    requires q > 0.0
    ensures n > 0 ==> Sum(Powers(q, n)) > 0.0
    ensures Sum(Powers(q, n)) >= 0.0
    decreases n
  {
    if n > 0 {
      PowersPositive(q, n - 1);
      PowPositive(q, n - 1);
      assert Powers(q, n)[..n - 1] == Powers(q, n - 1);
    }
  }

  lemma {:induction false} SumScaled(s: seq<real>, t: seq<real>, d: real)
    requires d != 0.0 && |s| == |t| && forall i | 0 <= i < |s| :: t[i] == s[i] / d
    ensures Sum(t) == Sum(s) / d
    decreases |s|
  {
    if s != [] {
      SumScaled(s[..|s| - 1], t[..|s| - 1], d);
    }
  }

  /** The weights are positive and sum to one. */
  lemma WeightsSumToOne(q: real, n: nat)
    requires q > 0.0 && n > 0
    ensures Sum(Powers(q, n)) > 0.0
    ensures Sum(Weights(q, n)) == 1.0
    ensures forall i | 0 <= i < n :: Weights(q, n)[i] > 0.0
  {
    PowersPositive(q, n);
    var total := Sum(Powers(q, n));
    SumScaled(Powers(q, n), Weights(q, n), total);
    DivideMultiply(1.0, total);
    forall i | 0 <= i < n
      ensures Weights(q, n)[i] > 0.0
    {
      PowPositive(q, i);
      PositiveQuotient(Pow(q, i), total);
    }
  }

  lemma PositiveQuotient(x: real, d: real)
    requires x > 0.0 && d > 0.0
    ensures x / d > 0.0
  {
    var k := x / d;
    assert k * d == x;
    ProductSign(k, d);
  }

  /** Each weight is q times the one before: a decaying q favours old queries. */
  lemma WeightsAreGeometric(q: real, n: nat, i: nat)
    requires q > 0.0 && i + 1 < n
    ensures Sum(Powers(q, n)) > 0.0
    ensures Weights(q, n)[i + 1] == Times(q, Weights(q, n)[i])
    ensures q < 1.0 ==> Weights(q, n)[i + 1] < Weights(q, n)[i]
  {
    WeightsSumToOne(q, n);
    PowPositive(q, i);
    assert Pow(q, i + 1) == q * Pow(q, i);
    NextWeight(q, Pow(q, i), Pow(q, i + 1), Sum(Powers(q, n)));
    hide Normalized, Times, Pow, Sum;
  }

  lemma NextWeight(q: real, x: real, y: real, total: real)
    requires q > 0.0 && x > 0.0 && total > 0.0 && y == q * x
    ensures Normalized(y, total) == Times(q, Normalized(x, total))
    ensures q < 1.0 ==> Normalized(y, total) < Normalized(x, total)
  {
    var w := x / total;
    assert w * total == x;
    PositiveQuotient(x, total);
    ScaledQuotient(q, w, total, x, y);
    Decays(q, w, q * w);
  }

  lemma ScaledQuotient(q: real, w: real, total: real, x: real, y: real)
    requires total > 0.0 && x == w * total && y == q * x
    ensures y / total == q * w
  {
    Reassociate(q, w, total);
    DivideMultiply(q * w, total);
  }

  lemma Reassociate(x: real, y: real, z: real)
    ensures x * (y * z) == (x * y) * z
  {
  }

  lemma Decays(q: real, w: real, product: real)
    requires w > 0.0 && product == q * w
    ensures q < 1.0 ==> product < w
  {
    if q < 1.0 {
      Positive(1.0 - q, w);
      assert (1.0 - q) * w == w - product;
    }
  }

  ghost predicate Spans(lo: real, hi: real, sum: real, dot: real) {
    Times(lo, sum) <= dot <= Times(hi, sum)
  }

  lemma {:induction false} DotBetween(values: seq<real>, weights: seq<real>, lo: real, hi: real)
    requires |values| == |weights|
    requires forall i | 0 <= i < |values| :: lo <= values[i] <= hi && weights[i] >= 0.0
    ensures Spans(lo, hi, Sum(weights), Dot(values, weights))
    decreases |values|
  {
    if values != [] {
      hide Times, Spans;
      var n := |values| - 1;
      DotBetween(values[..n], weights[..n], lo, hi);
      OneMore(values[n], weights[n], lo, hi, Sum(weights[..n]), Dot(values[..n], weights[..n]));
    }
  }

  lemma OneMore(value: real, weight: real, lo: real, hi: real, sum: real, dot: real)
    requires lo <= value <= hi && weight >= 0.0
    requires Spans(lo, hi, sum, dot)
    ensures Spans(lo, hi, sum + weight, dot + Times(value, weight))
  {
    MulMonotone(lo, value, weight);
    MulMonotone(value, hi, weight);
  }

  /** The library's weighted average. */
  function Average(values: seq<real>, weights: seq<real>): real
    requires |values| == |weights| && Sum(weights) != 0.0
  {
    Dot(values, weights) / Sum(weights)
  }

  /** An ensemble lies in the interval spanned by its contributors. */
  lemma AverageInHull(q: real, values: seq<real>, lo: real, hi: real)
    requires q > 0.0 && values != []
    requires forall i | 0 <= i < |values| :: lo <= values[i] <= hi
    ensures Sum(Powers(q, |values|)) > 0.0 && Sum(Weights(q, |values|)) == 1.0
    ensures lo <= Average(values, Weights(q, |values|)) <= hi
  {
    WeightsSumToOne(q, |values|);
    DotBetween(values, Weights(q, |values|), lo, hi);
  }
}
