// The sender's encoding of a target packet, and the round trip through the
// worker's decoding, its checks and its drain.

module ByteFacts {
  lemma ByteOf(x: nat)
    requires x < 256
    ensures (x as bv8) as nat == x
  {
    assert x % 256 == x;
  }

  lemma SignBit(b: bv8)
    ensures b & 0x7F == 0x7F <==> b as nat % 128 == 127
  {
  }

  lemma HighNibble(b: bv8)
    ensures b & 0xF0 == 0xF0 <==> b as nat / 16 == 15
  {
  }
}

module WireFormat {
  import opened Results
  import opened ByteFacts
  import opened Crc32
  import opened TargetPackets
  import opened TargetSocket

  /** The low n bytes of a value, least significant first. */
  function Bytes(x: nat, n: nat): (b: seq<byte>)
    ensures |b| == n
    decreases n
  {
    if n == 0 then [] else [(x % 256) as byte] + Bytes(x / 256, n - 1)
  }

  function Power256(n: nat): nat {
    if n == 0 then 1 else 256 * Power256(n - 1)
  }

  lemma {:induction false} LittleOfBytes(x: nat, n: nat)
    requires x < Power256(n)
    ensures Little(Bytes(x, n)) == x
    decreases n
  {
    if n > 0 {
      LittleOfBytes(x / 256, n - 1);
      var low := (x % 256) as byte;
      ByteOf(x % 256);
      assert Bytes(x, n) == [low] + Bytes(x / 256, n - 1);
      hide Bytes, Power256;
      LittleCons(low, Bytes(x / 256, n - 1));
    }
  }

  lemma LittleCons(b: byte, rest: seq<byte>)
    ensures Little([b] + rest) == b as nat + 256 * Little(rest)
  {
    assert ([b] + rest)[1..] == rest;
  }

  lemma LittleOne(b: byte)
    ensures Little([b]) == b as nat
  {
  }

  /** The checksum's own four bytes. */
  function Trailer(c: bv32): seq<byte> {
    [(c & 0xFF) as byte, ((c >> 8) & 0xFF) as byte, ((c >> 16) & 0xFF) as byte, (c >> 24) as byte]
  }

  lemma WordOfTrailer(c: bv32)
    ensures Word(Trailer(c)) == c
  {
    var b0, b1, b2, b3 := (c & 0xFF) as byte, ((c >> 8) & 0xFF) as byte, ((c >> 16) & 0xFF) as byte, (c >> 24) as byte;
    FourBytes(c);
    hide Plus, Up8, Widen, Word;
    var none: seq<byte> := [];
    WordCons(b3, none);
    WordCons(b2, [b3]);
    WordCons(b1, [b2, b3]);
    WordCons(b0, [b1, b2, b3]);
    WordOfNothing(none);
    assert [b3] + none == [b3] && [b2] + [b3] == [b2, b3] && [b1] + [b2, b3] == [b1, b2, b3];
    assert [b0] + [b1, b2, b3] == Trailer(c);
  }

  lemma WordCons(b: byte, rest: seq<byte>)
    ensures Word([b] + rest) == Plus(Widen(b), Up8(Word(rest)))
  {
    hide Plus, Up8, Widen;
    assert ([b] + rest)[1..] == rest;
  }

  lemma WordOfNothing(none: seq<byte>)
    requires none == []
    ensures Word(none) == 0
  {
  }

  lemma FourBytes(c: bv32)
    ensures Plus(Widen((c & 0xFF) as byte), Up8(Plus(Widen(((c >> 8) & 0xFF) as byte),
              Up8(Plus(Widen(((c >> 16) & 0xFF) as byte), Up8(Plus(Widen((c >> 24) as byte), Up8(0)))))))) == c
  {
  }

  /** What fits the fields of the wire. */
  predicate Encodable(p: TargetPacket) {
    && p.magic < 0x1_0000_0000 && p.version < 0x1_0000 && p.kind < 0x1_0000
    && p.flags < 0x1_0000_0000 && p.frame < 0x1_0000_0000
    && p.sequence < 0x1_0000_0000_0000_0000 && p.capture < 0x1_0000_0000_0000_0000
    && p.receive < 0x1_0000_0000_0000_0000 && p.processing < 0x1_0000_0000_0000_0000
    && p.dispatch < 0x1_0000_0000_0000_0000
    && |p.payload| == 64
  }

  function Header(p: TargetPacket): (b: seq<byte>)
    ensures |b| == 16
  {
    Bytes(p.magic, 4) + Bytes(p.version, 2) + Bytes(p.kind, 2) + Bytes(p.flags, 4) + Bytes(p.frame, 4)
  }

  function Stamps(p: TargetPacket): (b: seq<byte>)
    ensures |b| == 40
  {
    Bytes(p.sequence, 8) + Bytes(p.capture, 8) + Bytes(p.receive, 8) + Bytes(p.processing, 8) + Bytes(p.dispatch, 8)
  }

  function Body(p: TargetPacket): seq<byte> {
    Header(p) + Stamps(p) + p.payload
  }

  /** Header, numbers and times, payload, and the checksum of all that. */
  function Encode(p: TargetPacket): seq<byte> {
    Body(p) + Trailer(Checksum(Body(p)))
  }

  lemma HeaderSlices(p: TargetPacket)
    ensures var h := Header(p);
            && h[0..4] == Bytes(p.magic, 4) && h[4..6] == Bytes(p.version, 2) && h[6..8] == Bytes(p.kind, 2)
            && h[8..12] == Bytes(p.flags, 4) && h[12..16] == Bytes(p.frame, 4)
  {
    hide Bytes;
  }

  lemma StampSlices(p: TargetPacket)
    ensures var s := Stamps(p);
            && s[0..8] == Bytes(p.sequence, 8) && s[8..16] == Bytes(p.capture, 8) && s[16..24] == Bytes(p.receive, 8)
            && s[24..32] == Bytes(p.processing, 8) && s[32..40] == Bytes(p.dispatch, 8)
  {
    hide Bytes;
  }

  /** A slice inside one of the parts of a datagram. */
  lemma SliceOf(d: seq<byte>, before: seq<byte>, part: seq<byte>, after: seq<byte>, from: nat, until: nat)
    requires d == before + part + after && from <= until <= |part|
    ensures d[|before| + from..|before| + until] == part[from..until]
  {
  }

  lemma Powers()
    ensures Power256(2) == 0x1_0000 && Power256(4) == 0x1_0000_0000 && Power256(8) == 0x1_0000_0000_0000_0000
  {
    assert Power256(3) == 256 * Power256(2);
    assert Power256(5) == 256 * Power256(4);
    assert Power256(6) == 256 * Power256(5);
    assert Power256(7) == 256 * Power256(6);
  }

  lemma EncodedParts(p: TargetPacket)
    requires |p.payload| == 64
    ensures var d := Encode(p);
            && |d| == PACKET_SIZE && d[..PACKET_SIZE - 4] == Body(p) && d[PACKET_SIZE - 4..] == Trailer(Checksum(Body(p)))
            && d[0..16] == Header(p) && d[16..56] == Stamps(p) && d[56..120] == p.payload
  {
    hide Header, Stamps, Checksum;
  }

  /** Decoding an encoded packet gives it back, and its checksum is right. */
  lemma RoundTrip(p: TargetPacket)
    requires Encodable(p)
    ensures |Encode(p)| == PACKET_SIZE && Decode(Encode(p)) == p && Sealed(Encode(p))
  {
    var d := Encode(p);
    EncodedParts(p);
    WordOfTrailer(Checksum(Body(p)));
    hide Encode, Body, Checksum, Word, Trailer, Little, Bytes, Header, Stamps;
    DecodeIsParts(d, p);
  }

  lemma DecodeIsParts(d: seq<byte>, p: TargetPacket)
    requires Encodable(p) && |d| == PACKET_SIZE
    requires d[0..16] == Header(p) && d[16..56] == Stamps(p) && d[56..120] == p.payload
    ensures Decode(d) == p
  {
    hide Little, Bytes, Header, Stamps, Power256;
    HeaderSlices(p);
    StampSlices(p);
    Powers();
    Nested(d, 0, 16, 0, 4);
    Nested(d, 0, 16, 4, 6);
    Nested(d, 0, 16, 6, 8);
    Nested(d, 0, 16, 8, 12);
    Nested(d, 0, 16, 12, 16);
    Nested(d, 16, 56, 0, 8);
    Nested(d, 16, 56, 8, 16);
    Nested(d, 16, 56, 16, 24);
    Nested(d, 16, 56, 24, 32);
    Nested(d, 16, 56, 32, 40);
    LittleOfBytes(p.magic, 4);
    LittleOfBytes(p.version, 2);
    LittleOfBytes(p.kind, 2);
    LittleOfBytes(p.flags, 4);
    LittleOfBytes(p.frame, 4);
    LittleOfBytes(p.sequence, 8);
    LittleOfBytes(p.capture, 8);
    LittleOfBytes(p.receive, 8);
    LittleOfBytes(p.processing, 8);
    LittleOfBytes(p.dispatch, 8);
  }

  lemma Nested(d: seq<byte>, lo: nat, hi: nat, from: nat, until: nat)
    requires lo <= hi <= |d| && from <= until <= hi - lo
    ensures d[lo..hi][from..until] == d[lo + from..lo + until]
  {
    var x, y := d[lo..hi][from..until], d[lo + from..lo + until];
    assert |x| == |y|;
    forall i | 0 <= i < |x|
      ensures x[i] == y[i]
    {
      assert x[i] == d[lo..hi][from + i] == d[lo + (from + i)];
    }
  }

  // ---- what the worker accepts -------------------------------------------------

  /** The biased exponent of the binary64 value in eight bytes. */
  function Exponent(b: seq<byte>): nat
    requires |b| == 8
  {
    Little(b) / 0x10_0000_0000_0000 % 0x800
  }

  /** Eight doubles, none of them infinite or not a number. */
  predicate AllFinite(payload: seq<byte>)
    requires |payload| == 64
  {
    forall i | 0 <= i < 8 :: Exponent(payload[8 * i..8 * i + 8]) != 0x7FF
  }

  lemma {:induction false} LittleBound(b: seq<byte>)
    ensures Little(b) < Power256(|b|)
    decreases |b|
  {
    if b != [] {
      LittleBound(b[1..]);
    }
  }

  lemma {:induction false} LittleSplit(x: seq<byte>, y: seq<byte>)
    ensures Little(x + y) == Little(x) + Power256(|x|) * Little(y)
    decreases |x|
  {
    if x == [] {
      assert x + y == y;
    } else {
      assert x == [x[0]] + x[1..] && x + y == [x[0]] + (x[1..] + y);
      LittleSplit(x[1..], y);
      assert Power256(|x|) == 256 * Power256(|x| - 1);
      hide Little, Power256;
      LittleCons(x[0], x[1..]);
      LittleCons(x[0], x[1..] + y);
      Scales(Power256(|x| - 1), Little(y));
    }
  }

  lemma Scales(p: nat, y: nat)
    ensures 256 * (p * y) == (256 * p) * y
  {
  }

  lemma SixBytes()
    ensures Power256(6) == 0x1_0000_0000_0000
  {
    Powers();
    assert Power256(5) == 256 * Power256(4);
    assert Power256(6) == 256 * Power256(5);
  }

  lemma ExponentIs(b: seq<byte>)
    requires |b| == 8
    ensures Exponent(b) == b[7] as nat % 128 * 16 + b[6] as nat / 16
  {
    var low, high := b[..6], b[6..];
    assert b == low + high;
    LittleSplit(low, high);
    LittleBound(low);
    SixBytes();
    hide Little, Power256;
    var six, seven: nat := b[6] as nat, b[7] as nat;
    assert high == [b[6]] + [b[7]];
    LittleOne(b[7]);
    LittleCons(b[6], [b[7]]);
    ExponentArithmetic(Little(low), six, seven);
  }

  lemma ExponentArithmetic(low: nat, six: nat, seven: nat)
    requires low < 0x1_0000_0000_0000 && six < 256 && seven < 256
    ensures (low + 0x1_0000_0000_0000 * (six + 256 * seven)) / 0x10_0000_0000_0000 % 0x800
         == seven % 128 * 16 + six / 16
  {
    var x := six + 256 * seven;
    assert (low + 0x1_0000_0000_0000 * x) / 0x10_0000_0000_0000 == x / 16;
    assert x / 16 == six / 16 + 16 * seven;
  }

  /** The worker's two masks say that the value is finite. */
  lemma FiniteMeans(d: seq<byte>, at: nat)
    requires at + 8 <= |d|
    ensures FiniteDouble(d, at) <==> Exponent(d[at..at + 8]) != 0x7FF
  {
    var b := d[at..at + 8];
    ExponentIs(b);
    SignBit(b[7]);
    HighNibble(b[6]);
    hide Exponent;
  }

  /** The times a packet may carry: received, then processed if at all, then
      dispatched, and not dispatched in the future. */
  predicate InOrder(p: TargetPacket, now: nat) {
    && 0 < p.receive <= p.dispatch <= now + 5_000_000
    && (p.processing != 0 ==> p.receive <= p.processing <= p.dispatch)
  }

  /** An encoded packet is acceptable exactly for what it says. */
  lemma EncodedIsWellFormed(p: TargetPacket, now: nat)
    requires Encodable(p)
    ensures WellFormed(Encode(p), now)
       <==> p.magic == 0x4A54_4754 && p.version == 1 && p.kind <= 4 && InOrder(p, now) && AllFinite(p.payload)
  {
    var d := Encode(p);
    RoundTrip(p);
    EncodedParts(p);
    hide Encode, Sealed, Decode, FinitePayload, AllFinite, PlausibleTimes, InOrder, Encodable;
    PayloadMeans(d);
    TimesMean(p, now);
  }

  lemma TimesMean(p: TargetPacket, now: nat)
    ensures PlausibleTimes(p, now) <==> InOrder(p, now)
  {
  }

  lemma PayloadMeans(d: seq<byte>)
    requires |d| == PACKET_SIZE
    ensures FinitePayload(d) <==> AllFinite(d[56..120])
  {
    hide Exponent, FiniteDouble;
    var payload := d[56..120];
    forall i | 0 <= i < 8
      ensures FiniteDouble(d, 56 + 8 * i) <==> Exponent(payload[8 * i..8 * i + 8]) != 0x7FF
    {
      FiniteMeans(d, 56 + 8 * i);
      Nested(d, 56, 120, 8 * i, 8 * i + 8);
    }
  }

  /** Sent alone, such a packet is delivered as it was, if it is the newest,
      whatever follows it in the datagram. */
  lemma EncodedIsDelivered(p: TargetPacket, rest: seq<byte>, last: Option<nat>, now: nat, newest: Option<TargetPacket>)
    requires Encodable(p) && WellFormed(Encode(p), now) && (last.Some? ==> p.sequence > last.value)
    requires NewestWins([Datagram(Encode(p) + rest)], last, now, newest, 1)
    ensures newest == Some(p)
  {
    RoundTrip(p);
    hide Encode, WellFormed, Decode, Encodable, Sealed, Received;
    Cut(Encode(p), rest);
    var queue := [Datagram(Encode(p) + rest)];
    assert Acceptable(queue[0], last, now);
  }

  lemma Cut(d: seq<byte>, rest: seq<byte>)
    requires |d| == PACKET_SIZE
    ensures Received(d + rest) == d
  {
  }
}
