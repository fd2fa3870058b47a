// The target socket of the worker: the datagram format and the newest-wins
// drain of everything queued since the last cycle.

module TargetPackets {
  import opened Crc32

  const PACKET_SIZE: nat := 124
  const TARGET_MAGIC: nat := 0x4A54_4754
  const WIRE_VERSION: nat := 1
  const CLOCK_ALLOWANCE: nat := 5_000_000

  datatype Kind = Heartbeat | HoldCurrent | JointPosition | CartesianPose | Stop

  /** A little-endian unsigned integer. */
  function Little(bytes: seq<byte>): nat
    decreases |bytes|
  {
    if bytes == [] then 0 else bytes[0] as nat + 256 * Little(bytes[1..])
  }

  /** The integer fields of a target packet; the payload keeps its encoding. */
  datatype TargetPacket = TargetPacket(
    magic: nat, version: nat, kind: nat, flags: nat, frame: nat, sequence: nat,
    capture: nat, receive: nat, processing: nat, dispatch: nat, payload: seq<byte>)

  function Decode(d: seq<byte>): TargetPacket
    requires |d| == PACKET_SIZE
  {
    TargetPacket(Little(d[0..4]), Little(d[4..6]), Little(d[6..8]), Little(d[8..12]), Little(d[12..16]),
                 Little(d[16..24]), Little(d[24..32]), Little(d[32..40]), Little(d[40..48]), Little(d[48..56]),
                 d[56..120])
  }

  /** A binary64 value is finite unless its eleven exponent bits are all ones. */
  predicate FiniteDouble(d: seq<byte>, at: nat)
    requires at + 8 <= |d|
  {
    !(d[at + 7] & 0x7F == 0x7F && d[at + 6] & 0xF0 == 0xF0)
  }

  predicate FinitePayload(d: seq<byte>)
    requires |d| == PACKET_SIZE
  {
    forall i | 0 <= i < 8 :: FiniteDouble(d, 56 + 8 * i)
  }

  predicate PlausibleTimes(p: TargetPacket, now: nat) {
    var stage := if p.processing != 0 then p.processing else p.receive;
    && p.receive > 0
    && (p.processing == 0 || p.processing >= p.receive)
    && p.dispatch >= stage
    && p.dispatch <= now + CLOCK_ALLOWANCE
  }

  /** Every check of a datagram that does not depend on earlier ones. */
  predicate WellFormed(d: seq<byte>, now: nat) {
    && |d| == PACKET_SIZE
    && Decode(d).magic == TARGET_MAGIC && Decode(d).version == WIRE_VERSION
    && Sealed(d)
    && Decode(d).kind <= 4
    && PlausibleTimes(Decode(d), now)
    && FinitePayload(d)
  }

  /** What the receiving buffer holds: longer datagrams are cut to the packet size. */
  function Received(d: seq<byte>): seq<byte> {
    if |d| > PACKET_SIZE then d[..PACKET_SIZE] else d
  }
}

module TargetSocket {
  import opened Results
  import opened Crc32
  import opened TargetPackets

  /** One receive call that did not report an empty queue. */
  datatype Arrival = Datagram(bytes: seq<byte>) | Failure

  /** A datagram the drain may deliver. */
  predicate Acceptable(a: Arrival, last: Option<nat>, now: nat) {
    && a.Datagram? && |Received(a.bytes)| == PACKET_SIZE
    && WellFormed(Received(a.bytes), now)
    && (last.Some? ==> Decode(Received(a.bytes)).sequence > last.value)
  }

  function Sequence(a: Arrival): nat
    requires a.Datagram? && |Received(a.bytes)| == PACKET_SIZE
  {
    Decode(Received(a.bytes)).sequence
  }

  /** Arrival i is a new maximum among the acceptable ones so far. */
  predicate Record(queue: seq<Arrival>, i: nat, last: Option<nat>, now: nat)
    requires i < |queue|
  {
    && Acceptable(queue[i], last, now)
    && (forall j | 0 <= j < i && Acceptable(queue[j], last, now) :: Sequence(queue[j]) < Sequence(queue[i]))
  }

  /** How many arrivals the drain reads: all, or up to the first failure. */
  function Heard(queue: seq<Arrival>): (n: nat)
    ensures n <= |queue|
    ensures forall i | 0 <= i < n :: queue[i].Datagram?
    ensures n < |queue| ==> queue[n].Failure?
    decreases |queue|
  {
    if queue == [] || queue[0].Failure? then 0 else 1 + Heard(queue[1..])
  }

  /** The arrivals that were no new maximum. */
  ghost function Rejects(queue: seq<Arrival>, n: nat, last: Option<nat>, now: nat): set<nat>
    requires n <= |queue|
  {
    set i: nat | i < n && !Record(queue, i, last, now)
  }

  /** The outcome of one drain, stated over the queue as a whole. */
  ghost predicate NewestWins(queue: seq<Arrival>, last: Option<nat>, now: nat, newest: Option<TargetPacket>, n: nat)
    requires n <= |queue|
  {
    match newest
    case None => forall i | 0 <= i < n :: !Acceptable(queue[i], last, now)
    case Some(p) =>
      && (exists i | 0 <= i < n :: Record(queue, i, last, now) && p == Decode(Received(queue[i].bytes)))
      && (forall i | 0 <= i < n && Acceptable(queue[i], last, now) :: Sequence(queue[i]) <= p.sequence)
      && (last.Some? ==> p.sequence > last.value)
  }

  /** The header, checksum, kind, timestamp and payload checks of one datagram. */
  method Check(d: seq<byte>, now: nat) returns (ok: bool)
    ensures ok <==> WellFormed(d, now)
  {
    if |d| != PACKET_SIZE {
      return false;
    }
    var candidate := Decode(d);
    var header := candidate.magic == TARGET_MAGIC && candidate.version == WIRE_VERSION;
    var crc := Compute(d[..PACKET_SIZE - 4]);
    var checksum := crc == Word(d[PACKET_SIZE - 4..]);
    var kind := candidate.kind <= 4;
    var timestamp := PlausibleTimes(candidate, now);
    var finite := FinitePayload(d);
    ok := header && checksum && kind && timestamp && finite;
  }

  /** Drains the queue. `rejected` and the flags are what the call adds. */
  method DrainNewest(queue: seq<Arrival>, last: Option<nat>, now: nat)
    returns (newest: Option<TargetPacket>, rejected: nat, invalidCommand: bool, transportFailure: bool)
    ensures NewestWins(queue, last, now, newest, Heard(queue))
    ensures rejected == |Rejects(queue, Heard(queue), last, now)|
    ensures invalidCommand <==> exists i | 0 <= i < Heard(queue) :: !WellFormed(Received(queue[i].bytes), now)
    ensures transportFailure <==> Heard(queue) < |queue|
  {
    hide WellFormed, Decode, Received, Record, Rejects, NewestWins;
    newest, rejected, invalidCommand, transportFailure := None, 0, false, false;
    var i := 0;
    NothingHeard(queue, i, last, now, newest);
    while i < |queue|
      invariant 0 <= i <= Heard(queue) <= |queue|
      invariant NewestWins(queue, last, now, newest, i)
      invariant rejected == |Rejects(queue, i, last, now)|
      invariant invalidCommand <==> exists k | 0 <= k < i :: !WellFormed(Received(queue[k].bytes), now)
      invariant !transportFailure
    {
      if queue[i].Failure? {
        transportFailure := true;
        return;
      }
      var bytes := Received(queue[i].bytes);
      var ok := Check(bytes, now);
      if !ok {
        Skipped(queue, i, last, now, newest);
        rejected, invalidCommand := rejected + 1, true;
      } else {
        SizeOf(bytes, now);
        var candidate := Decode(bytes);
        if (last.Some? && candidate.sequence <= last.value)
           || (newest.Some? && candidate.sequence <= newest.value.sequence) {
          Skipped(queue, i, last, now, newest);
          rejected := rejected + 1;
        } else {
          Taken(queue, i, last, now, newest);
          newest := Some(candidate);
        }
      }
      i := i + 1;
    }
  }

  lemma NothingHeard(queue: seq<Arrival>, n: nat, last: Option<nat>, now: nat, newest: Option<TargetPacket>)
    requires n == 0 && newest == None
    ensures NewestWins(queue, last, now, newest, n) && Rejects(queue, n, last, now) == {}
  {
  }

  lemma SizeOf(d: seq<byte>, now: nat)
    requires WellFormed(d, now)
    ensures |d| == PACKET_SIZE
  {
  }

  /** An arrival that is not acceptable, or not above the newest so far, changes nothing. */
  lemma Skipped(queue: seq<Arrival>, i: nat, last: Option<nat>, now: nat, newest: Option<TargetPacket>)
    requires i < |queue| && NewestWins(queue, last, now, newest, i)
    requires Acceptable(queue[i], last, now) ==> newest.Some? && Sequence(queue[i]) <= newest.value.sequence
    ensures NewestWins(queue, last, now, newest, i + 1)
    ensures |Rejects(queue, i + 1, last, now)| == |Rejects(queue, i, last, now)| + 1
  {
    hide WellFormed, Decode, Received;
    BelowNewest(queue, i, last, now, newest);
    NotARecord(queue, i, last, now);
    hide Record, Rejects;
  }

  lemma BelowNewest(queue: seq<Arrival>, i: nat, last: Option<nat>, now: nat, newest: Option<TargetPacket>)
    requires i < |queue| && NewestWins(queue, last, now, newest, i)
    requires Acceptable(queue[i], last, now) ==> newest.Some? && Sequence(queue[i]) <= newest.value.sequence
    ensures !Record(queue, i, last, now)
  {
    hide WellFormed, Decode, Received;
    if Acceptable(queue[i], last, now) {
      var k :| 0 <= k < i && Record(queue, k, last, now) && newest.value == Decode(Received(queue[k].bytes));
      assert Acceptable(queue[k], last, now);
      assert Sequence(queue[k]) == newest.value.sequence;
    }
  }

  lemma Taken(queue: seq<Arrival>, i: nat, last: Option<nat>, now: nat, newest: Option<TargetPacket>)
    requires i < |queue| && NewestWins(queue, last, now, newest, i)
    requires Acceptable(queue[i], last, now)
    requires newest.Some? ==> newest.value.sequence < Sequence(queue[i])
    ensures NewestWins(queue, last, now, Some(Decode(Received(queue[i].bytes))), i + 1)
    ensures Rejects(queue, i + 1, last, now) == Rejects(queue, i, last, now)
  {
    hide WellFormed, Decode, Received;
    assert Record(queue, i, last, now);
    IsARecord(queue, i, last, now);
  }

  lemma NotARecord(queue: seq<Arrival>, i: nat, last: Option<nat>, now: nat)
    requires i < |queue| && !Record(queue, i, last, now)
    ensures |Rejects(queue, i + 1, last, now)| == |Rejects(queue, i, last, now)| + 1
  {
    assert Rejects(queue, i + 1, last, now) == Rejects(queue, i, last, now) + {i};
  }

  lemma IsARecord(queue: seq<Arrival>, i: nat, last: Option<nat>, now: nat)
    requires i < |queue| && Record(queue, i, last, now)
    ensures Rejects(queue, i + 1, last, now) == Rejects(queue, i, last, now)
  {
  }

  /** A datagram damaged inside four consecutive bytes is never delivered: if
      the intact one passes the checksum, the damaged one does not. */
  lemma DamagedIsRejected(intact: seq<byte>, damaged: seq<byte>, at: nat, last: Option<nat>, now: nat, later: nat)
    requires |intact| == |damaged| == PACKET_SIZE
    requires AgreeOutsideWindow(intact, damaged, at) && intact != damaged
    requires WellFormed(intact, now)
    ensures !Acceptable(Datagram(damaged), last, later)
  {
    WindowBreaksSeal(intact, damaged, at);
  }

  /** Neither is one damaged by a burst of up to 32 transmitted bits at any offset. */
  lemma BurstIsRejected(intact: seq<byte>, damaged: seq<byte>, at: nat, last: Option<nat>, now: nat, later: nat)
    requires |intact| == |damaged| == PACKET_SIZE
    requires AgreeOutsideBurst(intact, damaged, at) && intact != damaged
    requires WellFormed(intact, now)
    ensures !Acceptable(Datagram(damaged), last, later)
  {
    hide MessageBits, Decode;
    BurstBreaksSeal(intact, damaged, at);
  }

  // ---- whole runs ----------------------------------------------------------

  /** The packets delivered over successive drains, oldest first. */
  ghost predicate Delivered(queues: seq<seq<Arrival>>, clocks: seq<nat>, last: Option<nat>,
                            packets: seq<Option<TargetPacket>>)
    requires |queues| == |clocks|
    decreases |queues|
  {
    && |packets| == |queues|
    && (queues != [] ==>
         && NewestWins(queues[0], last, clocks[0], packets[0], Heard(queues[0]))
         && Delivered(queues[1..], clocks[1..], LastAfter(last, packets[0]), packets[1..]))
  }

  function LastAfter(last: Option<nat>, packet: Option<TargetPacket>): Option<nat> {
    match packet
    case None => last
    case Some(p) => Some(p.sequence)
  }

  lemma IsLater(queue: seq<Arrival>, last: Option<nat>, now: nat, newest: Option<TargetPacket>)
    requires NewestWins(queue, last, now, newest, Heard(queue))
    ensures newest.Some? && last.Some? ==> newest.value.sequence > last.value
  {
  }

  predicate Later(last: Option<nat>, packet: Option<TargetPacket>) {
    last.Some? && packet.Some? ==> packet.value.sequence > last.value
  }

  predicate Ordered(earlier: Option<TargetPacket>, later: Option<TargetPacket>) {
    earlier.Some? && later.Some? ==> earlier.value.sequence < later.value.sequence
  }

  /** Over any run, delivered sequence numbers strictly increase and exceed
      whatever had been delivered before the run. */
  lemma {:induction false} SequencesIncrease(queues: seq<seq<Arrival>>, clocks: seq<nat>, last: Option<nat>,
                                             packets: seq<Option<TargetPacket>>)
    requires |queues| == |clocks| && Delivered(queues, clocks, last, packets)
    ensures forall i | 0 <= i < |packets| :: Later(last, packets[i])
    ensures forall i, j | 0 <= i < j < |packets| :: Ordered(packets[i], packets[j])
    decreases |queues|
  {
    if queues != [] {
      IsLater(queues[0], last, clocks[0], packets[0]);
      hide NewestWins;
      var rest := packets[1..];
      SequencesIncrease(queues[1..], clocks[1..], LastAfter(last, packets[0]), rest);
      forall j | 0 < j < |packets|
        ensures Ordered(packets[0], packets[j]) && Later(last, packets[j])
      {
        assert Later(LastAfter(last, packets[0]), rest[j - 1]);
      }
      forall i, j | 0 < i < j < |packets|
        ensures Ordered(packets[i], packets[j])
      {
        assert Ordered(rest[i - 1], rest[j - 1]);
      }
    }
  }
}
