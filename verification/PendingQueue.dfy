// The bounded queue between the inference thread and the control loop, under
// every interleaving of the producer's steps with consumer reads.

module PendingQueue {
  /** Where the producer stands: between queries, refused by a full queue with
      prediction p in hand, or about to put p again. */
  datatype Phase = Idle | Refused(p: nat) | Retrying(p: nat)

  /** Queue contents are prediction sequence numbers. `drained` and `lost` are
      what the consumer and the producer have taken out so far. */
  datatype State = State(queue: seq<nat>, phase: Phase, next: nat, drops: nat,
                         drained: seq<nat>, lost: seq<nat>, raised: bool)

  /** One atomic queue operation. */
  datatype Action = Producer | Consumer

  function Start(first: nat): State {
    State([], Idle, first, 0, [], [], false)
  }

  function ProducerStep(s: State, capacity: nat): State {
    match s.phase
    case Idle =>
      if |s.queue| < capacity then s.(queue := s.queue + [s.next], next := s.next + 1)
      else s.(phase := Refused(s.next), next := s.next + 1)
    case Refused(p) =>
      if s.queue == [] then s.(phase := Retrying(p))
      else s.(queue := s.queue[1..], lost := s.lost + [s.queue[0]], phase := Retrying(p))
    case Retrying(p) =>
      if |s.queue| < capacity then s.(queue := s.queue + [p], drops := s.drops + 1, phase := Idle)
      else s.(drops := s.drops + 1, raised := true)
  }

  function ConsumerStep(s: State): State {
    if s.queue == [] then s else s.(queue := s.queue[1..], drained := s.drained + [s.queue[0]])
  }

  function Step(s: State, capacity: nat, a: Action): State {
    match a
    case Producer => if s.raised then s else ProducerStep(s, capacity)
    case Consumer => ConsumerStep(s)
  }

  function Run(s: State, capacity: nat, actions: seq<Action>): State
    decreases |actions|
  {
    if actions == [] then s
    else Step(Run(s, capacity, actions[..|actions| - 1]), capacity, actions[|actions| - 1])
  }

  // ---- what every interleaving keeps ---------------------------------------

  /** The prediction in the producer's hands. */
  function InHand(s: State): seq<nat> {
    match s.phase
    case Idle => []
    case Refused(p) => [p]
    case Retrying(p) => [p]
  }

  predicate StrictlyIncreasing(x: seq<nat>) {
    forall i, j | 0 <= i < j < |x| :: x[i] < x[j]
  }

  predicate AllBelow(x: seq<nat>, bound: nat) {
    forall i | 0 <= i < |x| :: x[i] < bound
  }

  /** The numbers from first up to bound. */
  function Range(first: nat, bound: nat): seq<nat>
    requires first <= bound
  {
    seq(bound - first, i requires 0 <= i < bound - first => first + i)
  }

  /** Where every published number is: read, lost, queued or in hand. */
  function Whereabouts(s: State): multiset<nat> {
    multiset(s.drained) + multiset(s.lost) + multiset(s.queue) + multiset(InHand(s))
  }

  ghost predicate Sound(s: State, first: nat, capacity: nat) {
    && capacity >= 1 && |s.queue| <= capacity && !s.raised
    && (s.phase.Retrying? ==> |s.queue| < capacity)
    && |s.lost| <= s.drops + (if s.phase.Retrying? then 1 else 0)
    && InOrder(s)
    && Conserved(s, first)
  }

  /** Reading order is publication order. */
  ghost predicate InOrder(s: State) {
    StrictlyIncreasing(s.drained + s.queue + InHand(s)) && AllBelow(s.drained + s.queue + InHand(s), s.next)
  }

  /** Every published number is in exactly one place. */
  ghost predicate Conserved(s: State, first: nat) {
    first <= s.next && Whereabouts(s) == multiset(Range(first, s.next))
  }

  lemma RangeGrows(first: nat, bound: nat)
    requires first <= bound
    ensures multiset(Range(first, bound + 1)) == multiset(Range(first, bound)) + multiset{bound}
  {
    assert Range(first, bound + 1) == Range(first, bound) + [bound];
  }

  lemma Split(x: seq<nat>)
    requires x != []
    ensures multiset(x) == multiset{x[0]} + multiset(x[1..])
  {
    assert x == [x[0]] + x[1..];
  }

  /** Where position i of a sequence was before an element left position n. */
  function Shifted(i: nat, n: nat): nat {
    if i < n then i else i + 1
  }

  /** Removing an element keeps a sequence increasing and bounded. */
  lemma Without(a: seq<nat>, x: nat, b: seq<nat>, bound: nat)
    requires StrictlyIncreasing(a + [x] + b) && AllBelow(a + [x] + b, bound)
    ensures StrictlyIncreasing(a + b) && AllBelow(a + b, bound)
  {
    var whole, rest := a + [x] + b, a + b;
    forall i | 0 <= i < |rest|
      ensures rest[i] == whole[Shifted(i, |a|)]
    {
    }
  }

  lemma Extended(a: seq<nat>, x: nat)
    requires StrictlyIncreasing(a) && AllBelow(a, x)
    ensures StrictlyIncreasing(a + [x]) && AllBelow(a + [x], x + 1)
  {
  }

  lemma PublishConserves(s: State, first: nat, capacity: nat)
    requires Conserved(s, first) && s.phase.Idle?
    ensures Conserved(ProducerStep(s, capacity), first)
  {
    RangeGrows(first, s.next);
    PublishAdds(s, capacity);
    hide Range, Whereabouts;
  }

  lemma PublishAdds(s: State, capacity: nat)
    requires s.phase.Idle?
    ensures var next := ProducerStep(s, capacity);
            next.next == s.next + 1 && Whereabouts(next) == Whereabouts(s) + multiset{s.next}
  {
    var next := ProducerStep(s, capacity);
    if |s.queue| < capacity {
      assert multiset(next.queue) == multiset(s.queue) + multiset{s.next};
    }
  }

  lemma DropConserves(s: State, first: nat, capacity: nat)
    requires Conserved(s, first) && s.phase.Refused?
    ensures Conserved(ProducerStep(s, capacity), first)
  {
    hide Range;
    if s.queue != [] {
      Split(s.queue);
    }
  }

  lemma RetryConserves(s: State, first: nat, capacity: nat)
    requires Conserved(s, first) && s.phase.Retrying? && |s.queue| < capacity
    ensures Conserved(ProducerStep(s, capacity), first)
  {
    hide Range;
  }

  lemma ProducerKeepsOrder(s: State, capacity: nat)
    requires InOrder(s)
    requires s.phase.Retrying? ==> |s.queue| < capacity
    ensures InOrder(ProducerStep(s, capacity))
  {
    hide StrictlyIncreasing, AllBelow;
    var next := ProducerStep(s, capacity);
    match s.phase
    case Idle =>
      Extended(s.drained + s.queue + [], s.next);
      assert s.drained + s.queue + [] == s.drained + s.queue;
      assert next.drained + next.queue + InHand(next) == s.drained + s.queue + [s.next];
    case Refused(p) =>
      if s.queue != [] {
        var tail := s.queue[1..] + [p];
        assert s.drained + s.queue + [p] == s.drained + [s.queue[0]] + tail;
        assert s.drained + s.queue[1..] + [p] == s.drained + tail;
        Without(s.drained, s.queue[0], tail, s.next);
      }
    case Retrying(p) =>
      assert next.drained + next.queue + [] == s.drained + s.queue + [p];
  }

  lemma ProducerIsSound(s: State, first: nat, capacity: nat)
    requires Sound(s, first, capacity)
    ensures Sound(ProducerStep(s, capacity), first, capacity)
  {
    hide InOrder, Conserved;
    match s.phase {
      case Idle => PublishConserves(s, first, capacity);
      case Refused(p) => DropConserves(s, first, capacity);
      case Retrying(p) => RetryConserves(s, first, capacity);
    }
    ProducerKeepsOrder(s, capacity);
  }

  lemma ConsumerIsSound(s: State, first: nat, capacity: nat)
    requires Sound(s, first, capacity)
    ensures Sound(ConsumerStep(s), first, capacity)
  {
    if s.queue != [] {
      var next := ConsumerStep(s);
      Split(s.queue);
      hide StrictlyIncreasing, AllBelow;
      assert next.drained + next.queue + InHand(next) == s.drained + s.queue + InHand(s);
    }
  }

  /** However producer steps and consumer reads interleave: the retried put
      never finds the queue full, what has been read and what is queued is in
      publication order, every published number is read, lost, queued or in
      hand exactly once, and no more are lost than `pending_drops` admits. */
  lemma {:induction false} EveryInterleavingIsSound(first: nat, capacity: nat, actions: seq<Action>)
    requires capacity >= 1
    ensures Sound(Run(Start(first), capacity, actions), first, capacity)
    decreases |actions|
  {
    if actions == [] {
      assert Range(first, first) == [];
    } else {
      var before := Run(Start(first), capacity, actions[..|actions| - 1]);
      EveryInterleavingIsSound(first, capacity, actions[..|actions| - 1]);
      match actions[|actions| - 1]
      case Producer => ProducerIsSound(before, first, capacity);
      case Consumer => ConsumerIsSound(before, first, capacity);
    }
  }

  /** Between queries the losses are within the drops, and together with the
      reads and the queue they make up all published numbers. */
  lemma BetweenQueries(first: nat, capacity: nat, actions: seq<Action>)
    requires capacity >= 1 && Run(Start(first), capacity, actions).phase.Idle?
    ensures var s := Run(Start(first), capacity, actions);
            && !s.raised && StrictlyIncreasing(s.drained)
            && |s.lost| <= s.drops
            && |s.drained| + |s.lost| + |s.queue| == s.next - first
  {
    EveryInterleavingIsSound(first, capacity, actions);
    var s := Run(Start(first), capacity, actions);
    assert s.drained + s.queue + InHand(s) == s.drained + s.queue;
    assert forall i | 0 <= i < |s.drained| :: (s.drained + s.queue)[i] == s.drained[i];
    assert |Whereabouts(s)| == |s.drained| + |s.lost| + |s.queue|;
    assert |multiset(Range(first, s.next))| == s.next - first;
  }

  /** How often the producer found the queue full. */
  function RefusedPuts(first: nat, capacity: nat, actions: seq<Action>): nat
    decreases |actions|
  {
    if actions == [] then 0
    else
      var before := Run(Start(first), capacity, actions[..|actions| - 1]);
      RefusedPuts(first, capacity, actions[..|actions| - 1])
        + if actions[|actions| - 1].Producer? && before.phase.Idle? && |before.queue| >= capacity then 1 else 0
  }

  /** `pending_drops` counts exactly the puts a full queue refused, once each
      has been retried. */
  lemma {:induction false} DropsAreRefusals(first: nat, capacity: nat, actions: seq<Action>)
    requires capacity >= 1
    ensures var s := Run(Start(first), capacity, actions);
            s.drops + (if s.phase.Idle? then 0 else 1) == RefusedPuts(first, capacity, actions)
    decreases |actions|
  {
    if actions != [] {
      EveryInterleavingIsSound(first, capacity, actions[..|actions| - 1]);
      DropsAreRefusals(first, capacity, actions[..|actions| - 1]);
    }
  }
}
