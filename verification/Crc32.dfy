// The checksum of the target and status datagrams: the reflected CRC-32 with
// an all-ones register at the start and a complemented result.
//
// Bit-vector facts are stated in small lemmas of their own; everything above
// them treats the named operations as opaque.

module Crc32 {
  type byte = bv8

  const POLYNOMIAL: bv32 := 0xEDB8_8320
  const INITIAL: bv32 := 0xFFFF_FFFF

  /** Addition of registers, bit by bit without carry. */
  function Plus(x: bv32, y: bv32): bv32 {
    x ^ y
  }

  function Widen(b: byte): bv32 {
    b as bv32
  }

  function Half(x: bv32): bv32 {
    x >> 1
  }

  function Double(x: bv32): bv32 {
    x << 1
  }

  function Low(x: bv32): bool {
    x & 1 == 1
  }

  function Top(x: bv32): bool {
    x & 0x8000_0000 != 0
  }

  /** One bit of the reflected register. */
  function BitStep(crc: bv32): bv32 {
    if Low(crc) then Plus(Half(crc), POLYNOMIAL) else Half(crc)
  }

  function BitSteps(crc: bv32, n: nat): bv32
    decreases n
  {
    if n == 0 then crc else BitSteps(BitStep(crc), n - 1)
  }

  function ByteStep(crc: bv32, b: byte): bv32 {
    BitSteps(Plus(crc, Widen(b)), 8)
  }

  function Register(crc: bv32, data: seq<byte>): bv32
    decreases |data|
  {
    if data == [] then crc else Register(ByteStep(crc, data[0]), data[1..])
  }

  function Checksum(data: seq<byte>): bv32 {
    !Register(INITIAL, data)
  }

  lemma MaskOfLowBit(x: bv32)
    ensures 0 - (x & 1) == if x & 1 == 1 then 0xFFFF_FFFF else 0
  {
  }

  lemma MaskedStepOne(x: bv32)
    requires x & 1 == 1
    ensures (x >> 1) ^ (POLYNOMIAL & (0 - (x & 1))) == (x >> 1) ^ POLYNOMIAL
  {
    MaskOfLowBit(x);
  }

  lemma MaskedStepZero(x: bv32)
    requires x & 1 != 1
    ensures (x >> 1) ^ (POLYNOMIAL & (0 - (x & 1))) == x >> 1
  {
    MaskOfLowBit(x);
  }

  lemma BitStepCases(x: bv32)
    ensures x & 1 == 1 ==> BitStep(x) == (x >> 1) ^ POLYNOMIAL
    ensures x & 1 != 1 ==> BitStep(x) == x >> 1
  {
  }

  /** One step in the program's branch-free form. */
  method MaskedStep(x: bv32) returns (r: bv32)
    ensures r == BitStep(x)
  {
    hide BitStep;
    BitStepCases(x);
    r := (x >> 1) ^ (POLYNOMIAL & (0 - (x & 1)));
    if x & 1 == 1 {
      MaskedStepOne(x);
    } else {
      MaskedStepZero(x);
    }
  }

  method Compute(data: seq<byte>) returns (crc: bv32)
    ensures crc == Checksum(data)
  {
    hide BitStep, Plus, Widen;
    crc := INITIAL;
    for i := 0 to |data|
      invariant Register(INITIAL, data) == Register(crc, data[i..])
    {
      ghost var before := crc;
      crc := Plus(crc, Widen(data[i]));
      for bit := 0 to 8
        invariant ByteStep(before, data[i]) == BitSteps(crc, 8 - bit)
      {
        crc := MaskedStep(crc);
      }
      assert data[i..][1..] == data[i + 1..];
    }
    crc := !crc;
  }

  // ---- linearity -----------------------------------------------------------

  lemma ShiftOfXor(x: bv32, y: bv32)
    ensures (x ^ y) >> 1 == (x >> 1) ^ (y >> 1)
    ensures ((x ^ y) & 1 == 1) <==> ((x & 1 == 1) != (y & 1 == 1))
  {
  }

  lemma XorCancels(a: bv32, b: bv32, p: bv32)
    ensures (a ^ b) ^ p == (a ^ p) ^ b
    ensures (a ^ b) ^ p == a ^ (b ^ p)
    ensures a ^ b == (a ^ p) ^ (b ^ p)
  {
  }

  lemma BitStepOfXor(x: bv32, y: bv32)
    ensures BitStep(x ^ y) == BitStep(x) ^ BitStep(y)
  {
    ShiftOfXor(x, y);
    XorCancels(x >> 1, y >> 1, POLYNOMIAL);
    if x & 1 == 1 {
      if y & 1 == 1 {} else {}
    } else {
      if y & 1 == 1 {} else {}
    }
  }

  lemma BitStepIsLinear(x: bv32, y: bv32)
    ensures BitStep(Plus(x, y)) == Plus(BitStep(x), BitStep(y))
  {
    hide BitStep;
    BitStepOfXor(x, y);
  }

  lemma {:induction false} BitStepsAreLinear(x: bv32, y: bv32, n: nat)
    ensures BitSteps(Plus(x, y), n) == Plus(BitSteps(x, n), BitSteps(y, n))
    decreases n
  {
    hide BitStep, Plus;
    if n > 0 {
      BitStepIsLinear(x, y);
      BitStepsAreLinear(BitStep(x), BitStep(y), n - 1);
    }
  }

  lemma BitStepIsInjective(x: bv32)
    ensures BitStep(x) == 0 <==> x == 0
  {
  }

  lemma {:induction false} BitStepsAreInjective(x: bv32, n: nat)
    ensures BitSteps(x, n) == 0 <==> x == 0
    decreases n
  {
    hide BitStep;
    if n > 0 {
      BitStepIsInjective(x);
      BitStepsAreInjective(BitStep(x), n - 1);
    }
  }

  lemma PlusAssociates(x: bv32, y: bv32, z: bv32)
    ensures Plus(Plus(x, y), z) == Plus(x, Plus(y, z))
  {
  }

  lemma PlusSelf(x: bv32)
    ensures Plus(x, x) == 0 && Plus(x, 0) == x && Plus(0, x) == x
  {
  }

  lemma PlusExchange(c: bv32, d: bv32, x: byte, y: byte)
    ensures Plus(Plus(c, d), Widen(XorByte(x, y))) == Plus(Plus(c, Widen(x)), Plus(d, Widen(y)))
  {
  }

  function XorByte(x: byte, y: byte): byte {
    x ^ y
  }

  function Xor(x: seq<byte>, y: seq<byte>): (z: seq<byte>)
    requires |x| == |y|
    ensures |z| == |x| && forall i | 0 <= i < |x| :: z[i] == XorByte(x[i], y[i])
  {
    seq(|x|, i requires 0 <= i < |x| => XorByte(x[i], y[i]))
  }

  /** The register is linear in its state and its data together. */
  lemma {:induction false} RegisterIsLinear(c: bv32, d: bv32, x: seq<byte>, y: seq<byte>)
    requires |x| == |y|
    ensures Register(Plus(c, d), Xor(x, y)) == Plus(Register(c, x), Register(d, y))
    decreases |x|
  {
    hide BitSteps, Plus, Widen, XorByte;
    if x != [] {
      PlusExchange(c, d, x[0], y[0]);
      BitStepsAreLinear(Plus(c, Widen(x[0])), Plus(d, Widen(y[0])), 8);
      assert Xor(x, y)[1..] == Xor(x[1..], y[1..]);
      RegisterIsLinear(ByteStep(c, x[0]), ByteStep(d, y[0]), x[1..], y[1..]);
    }
  }

  // ---- four bytes act as one word ------------------------------------------

  function Up8(x: bv32): bv32 {
    x << 8
  }

  /** Up to four bytes as a little-endian word. */
  function Word(w: seq<byte>): bv32
    decreases |w|
  {
    if w == [] then 0 else Plus(Widen(w[0]), Up8(Word(w[1..])))
  }

  predicate TopClear(z: bv32) {
    z <= 0x7FFF_FFFF
  }

  lemma ShiftedBack(z: bv32)
    requires TopClear(z)
    ensures BitStep(Double(z)) == z
  {
  }

  lemma Doublings(y: bv32)
    requires y <= 0x00FF_FFFF
    ensures Double(Double(Double(Double(Double(Double(Double(Double(y)))))))) == Up8(y)
    ensures TopClear(y) && TopClear(Double(y)) && TopClear(Double(Double(y))) && TopClear(Double(Double(Double(y))))
    ensures TopClear(Double(Double(Double(Double(y))))) && TopClear(Double(Double(Double(Double(Double(y))))))
    ensures TopClear(Double(Double(Double(Double(Double(Double(y)))))))
    ensures TopClear(Double(Double(Double(Double(Double(Double(Double(y))))))))
  {
  }

  lemma ShiftedBackSteps(z: bv32, n: nat)
    requires TopClear(z)
    ensures BitSteps(Double(z), n + 1) == BitSteps(z, n)
  {
    ShiftedBack(z);
    hide BitStep, Double;
  }

  lemma ByteShiftedBack(y: bv32)
    requires y <= 0x00FF_FFFF
    ensures BitSteps(Up8(y), 8) == y
  {
    hide BitStep, Double, TopClear, Up8;
    Doublings(y);
    var y1 := Double(y);
    var y2 := Double(y1);
    var y3 := Double(y2);
    var y4 := Double(y3);
    var y5 := Double(y4);
    var y6 := Double(y5);
    var y7 := Double(y6);
    ShiftedBackSteps(y7, 7);
    ShiftedBackSteps(y6, 6);
    ShiftedBackSteps(y5, 5);
    ShiftedBackSteps(y4, 4);
    ShiftedBackSteps(y3, 3);
    ShiftedBackSteps(y2, 2);
    ShiftedBackSteps(y1, 1);
    ShiftedBackSteps(y, 0);
    assert BitSteps(y, 0) == y;
  }

  /** The word of k bytes is below 2^(8k). */
  predicate Small(x: bv32, k: nat) {
    (k <= 3 ==> x <= 0x00FF_FFFF) && (k <= 2 ==> x <= 0x0000_FFFF) && (k <= 1 ==> x <= 0x0000_00FF) && (k == 0 ==> x == 0)
  }

  lemma NextByteIsSmall(x: bv32, b: byte)
    ensures x <= 0x0000_FFFF ==> Plus(Widen(b), Up8(x)) <= 0x00FF_FFFF
    ensures x <= 0x0000_00FF ==> Plus(Widen(b), Up8(x)) <= 0x0000_FFFF
    ensures x == 0 ==> Plus(Widen(b), Up8(x)) <= 0x0000_00FF
  {
  }

  lemma {:induction false} WordIsSmall(w: seq<byte>)
    requires |w| <= 4
    ensures Small(Word(w), |w|)
    decreases |w|
  {
    hide Plus, Widen, Up8;
    if w != [] {
      WordIsSmall(w[1..]);
      NextByteIsSmall(Word(w[1..]), w[0]);
    }
  }

  predicate IsZero(b: byte) {
    b == 0
  }

  predicate AllZero(w: seq<byte>) {
    forall i | 0 <= i < |w| :: IsZero(w[i])
  }

  lemma AllZeroCons(w: seq<byte>)
    requires w != []
    ensures AllZero(w) <==> IsZero(w[0]) && AllZero(w[1..])
  {
    hide IsZero;
    if IsZero(w[0]) && AllZero(w[1..]) {
      forall i | 0 <= i < |w|
        ensures IsZero(w[i])
      {
        if i > 0 {
          assert IsZero(w[1..][i - 1]);
        }
      }
    }
  }

  lemma SplitWord(x: bv32, b: byte)
    requires x <= 0x00FF_FFFF
    ensures Plus(Widen(b), Up8(x)) == 0 <==> IsZero(b) && x == 0
  {
  }

  lemma {:induction false} WordIsZero(w: seq<byte>)
    requires |w| <= 4
    ensures Word(w) == 0 <==> AllZero(w)
    decreases |w|
  {
    if w != [] {
      WordIsSmall(w[1..]);
      SplitWord(Word(w[1..]), w[0]);
      AllZeroCons(w);
      hide Plus, Widen, Up8, IsZero, AllZero;
      WordIsZero(w[1..]);
    }
  }

  lemma {:induction false} BitStepsCompose(x: bv32, m: nat, n: nat)
    ensures BitSteps(BitSteps(x, m), n) == BitSteps(x, m + n)
    decreases m
  {
    hide BitStep;
    if m > 0 {
      BitStepsCompose(BitStep(x), m - 1, n);
    }
  }

  /** Up to four bytes enter the register as one added word. */
  lemma {:induction false} RegisterOfWord(c: bv32, w: seq<byte>)
    requires |w| <= 4
    ensures Register(c, w) == BitSteps(Plus(c, Word(w)), 8 * |w|)
    decreases |w|
  {
    hide BitStep, Plus, Widen, Up8;
    if w == [] {
      PlusSelf(c);
    } else {
      var rest := w[1..];
      var x := Word(rest);
      WordIsSmall(rest);
      RegisterOfWord(ByteStep(c, w[0]), rest);
      ByteShiftedBack(x);
      BitStepsAreLinear(Plus(c, Widen(w[0])), Up8(x), 8);
      PlusAssociates(c, Widen(w[0]), Up8(x));
      assert Plus(ByteStep(c, w[0]), x) == BitSteps(Plus(c, Word(w)), 8);
      BitStepsCompose(Plus(c, Word(w)), 8, 8 * |rest|);
    }
  }

  // ---- error detection -----------------------------------------------------

  /** The two byte strings agree outside four consecutive positions from `at`. */
  ghost predicate AgreeOutsideWindow(x: seq<byte>, y: seq<byte>, at: nat) {
    && |x| == |y|
    && (forall i | 0 <= i < |x| && !(at <= i < at + 4) :: x[i] == y[i])
  }

  lemma {:induction false} RegisterConcat(c: bv32, x: seq<byte>, y: seq<byte>)
    ensures Register(c, x + y) == Register(Register(c, x), y)
    decreases |x|
  {
    hide ByteStep;
    if x == [] {
      assert x + y == y;
    } else {
      assert (x + y)[1..] == x[1..] + y;
      RegisterConcat(ByteStep(c, x[0]), x[1..], y);
    }
  }

  lemma ZeroByteStep(c: bv32, b: byte)
    requires IsZero(b)
    ensures ByteStep(c, b) == 0 <==> c == 0
  {
    PlusSelf(c);
    assert Widen(b) == 0;
    hide Plus;
    BitStepsAreInjective(c, 8);
  }

  /** Zero data never changes whether the register is zero. */
  lemma {:induction false} RegisterOfZeros(c: bv32, zeros: seq<byte>)
    requires AllZero(zeros)
    ensures Register(c, zeros) == 0 <==> c == 0
    decreases |zeros|
  {
    hide ByteStep, IsZero;
    if zeros != [] {
      ZeroByteStep(c, zeros[0]);
      AllZeroCons(zeros);
      RegisterOfZeros(ByteStep(c, zeros[0]), zeros[1..]);
    }
  }

  lemma WindowAlone(window: seq<byte>)
    requires |window| <= 4 && !AllZero(window)
    ensures Register(0, window) != 0
  {
    hide ByteStep, BitSteps, Plus, Word, AllZero;
    WordIsZero(window);
    RegisterOfWord(0, window);
    PlusSelf(Word(window));
    BitStepsAreInjective(Word(window), 8 * |window|);
  }

  /** A nonzero difference confined to a window never cancels. */
  lemma WindowNeverCancels(before: seq<byte>, window: seq<byte>, after: seq<byte>)
    requires |window| <= 4 && !AllZero(window) && AllZero(before) && AllZero(after)
    ensures Register(0, before + (window + after)) != 0
  {
    hide Register, AllZero;
    RegisterConcat(0, before, window + after);
    RegisterOfZeros(0, before);
    RegisterConcat(0, window, after);
    WindowAlone(window);
    RegisterOfZeros(Register(0, window), after);
  }

  lemma XorOfBytes(x: byte, y: byte)
    ensures IsZero(XorByte(x, y)) <==> x == y
  {
  }

  lemma DifferentRegisters(x: seq<byte>, y: seq<byte>, at: nat)
    requires AgreeOutsideWindow(x, y, at) && x != y
    ensures Register(INITIAL, x) != Register(INITIAL, y)
  {
    hide ByteStep, Plus, IsZero, XorByte;
    RegisterIsLinear(INITIAL, INITIAL, x, y);
    PlusSelf(INITIAL);
    var diff := Xor(x, y);
    DifferenceIsConfined(x, y, at);
    var end := if at + 4 <= |x| then at + 4 else |x|;
    var start := if at <= |x| then at else |x|;
    WindowNeverCancels(diff[..start], diff[start..end], diff[end..]);
    assert diff == diff[..start] + (diff[start..end] + diff[end..]);
    PlusSelf(Register(INITIAL, x));
  }

  lemma DifferenceIsConfined(x: seq<byte>, y: seq<byte>, at: nat)
    requires AgreeOutsideWindow(x, y, at) && x != y
    ensures var diff := Xor(x, y);
            var end := if at + 4 <= |x| then at + 4 else |x|;
            var start := if at <= |x| then at else |x|;
            && start <= end
            && AllZero(diff[..start]) && AllZero(diff[end..]) && !AllZero(diff[start..end])
  {
    hide IsZero, XorByte;
    forall k | 0 <= k < |x|
      ensures IsZero(XorByte(x[k], y[k])) <==> x[k] == y[k]
    {
      XorOfBytes(x[k], y[k]);
    }
    var i :| 0 <= i < |x| && x[i] != y[i];
    var end := if at + 4 <= |x| then at + 4 else |x|;
    assert !IsZero(Xor(x, y)[at..end][i - at]);
  }

  lemma ComplementIsInjective(x: bv32, y: bv32)
    requires !x == !y
    ensures x == y
  {
    assert !!x == x;
    assert !!y == y;
  }

  /** Messages of equal length that differ only inside four consecutive bytes
      never share a checksum. */
  lemma WindowChangesChecksum(x: seq<byte>, y: seq<byte>, at: nat)
    requires AgreeOutsideWindow(x, y, at) && x != y
    ensures Checksum(x) != Checksum(y)
  {
    hide Register;
    DifferentRegisters(x, y, at);
    if Checksum(x) == Checksum(y) {
      ComplementIsInjective(Register(INITIAL, x), Register(INITIAL, y));
    }
  }

  /** A message followed by its little-endian checksum. */
  predicate Sealed(datagram: seq<byte>) {
    && |datagram| >= 4
    && Checksum(datagram[..|datagram| - 4]) == Word(datagram[|datagram| - 4..])
  }

  lemma PlusComplement(x: bv32)
    ensures Plus(x, !x) == 0xFFFF_FFFF
  {
  }

  /** Every sealed datagram leaves the same residue in the register. */
  lemma SealedResidue(datagram: seq<byte>)
    requires Sealed(datagram)
    ensures Register(INITIAL, datagram) == BitSteps(0xFFFF_FFFF, 32)
  {
    hide Register, BitSteps, Plus, Word;
    var body, trailer := datagram[..|datagram| - 4], datagram[|datagram| - 4..];
    assert datagram == body + trailer;
    RegisterConcat(INITIAL, body, trailer);
    RegisterOfWord(Register(INITIAL, body), trailer);
    PlusComplement(Register(INITIAL, body));
  }

  /** A sealed datagram damaged inside any four consecutive bytes, checksum
      bytes included, is not sealed any more. */
  lemma WindowBreaksSeal(x: seq<byte>, y: seq<byte>, at: nat)
    requires AgreeOutsideWindow(x, y, at) && x != y
    requires Sealed(x)
    ensures !Sealed(y)
  {
    SealedResidue(x);
    DifferentRegisters(x, y, at);
    hide Register, BitSteps;
    if Sealed(y) {
      SealedResidue(y);
    }
  }

  // ---- the unreflected definition ------------------------------------------

  /** The generator of IEEE 802.3 clause 3.2.9, most significant bit first. */
  const GENERATOR: bv32 := 0x04C1_1DB7

  /** One message bit of polynomial division by the generator. */
  function DivisionStep(remainder: bv32, bit: bool): bv32 {
    if Top(remainder) != bit then Plus(Double(remainder), GENERATOR) else Double(remainder)
  }

  function Division(remainder: bv32, bits: seq<bool>): bv32
    decreases |bits|
  {
    if bits == [] then remainder else Division(DivisionStep(remainder, bits[0]), bits[1..])
  }

  function Unit(bit: bool): bv32 {
    if bit then 1 else 0
  }

  /** The low `n` bits of a value, least significant first. */
  function LowBits(x: bv32, n: nat): seq<bool>
    decreases n
  {
    if n == 0 then [] else [Low(x)] + LowBits(Half(x), n - 1)
  }

  /** The transmitted bit order: bytes in order, each least significant bit first. */
  function MessageBits(data: seq<byte>): seq<bool>
    decreases |data|
  {
    if data == [] then [] else LowBits(Widen(data[0]), 8) + MessageBits(data[1..])
  }

  /** Bit order reversed, by exchanging ever larger halves. */
  function Reflect(x: bv32): bv32 {
    var a := ((x >> 1) & 0x5555_5555) | ((x & 0x5555_5555) << 1);
    var b := ((a >> 2) & 0x3333_3333) | ((a & 0x3333_3333) << 2);
    var c := ((b >> 4) & 0x0F0F_0F0F) | ((b & 0x0F0F_0F0F) << 4);
    var d := ((c >> 8) & 0x00FF_00FF) | ((c & 0x00FF_00FF) << 8);
    (d >> 16) | (d << 16)
  }

  lemma ReflectOfShift(x: bv32)
    ensures Reflect(x >> 1) == Reflect(x) << 1
  {
  }

  lemma ReflectOfHalf(x: bv32)
    ensures Reflect(Half(x)) == Double(Reflect(x))
  {
    hide Reflect;
    ReflectOfShift(x);
  }

  lemma ReflectOfLow(x: bv32)
    ensures Low(x) == Top(Reflect(x))
  {
  }

  lemma ReflectOfXor(x: bv32)
    ensures Reflect(x ^ POLYNOMIAL) == Reflect(x) ^ GENERATOR
  {
  }

  lemma ReflectOfPolynomial(x: bv32)
    ensures Reflect(Plus(x, POLYNOMIAL)) == Plus(Reflect(x), GENERATOR)
  {
    hide Reflect;
    ReflectOfXor(x);
  }

  lemma AddUnit(x: bv32, bit: bool)
    ensures Half(Plus(x, Unit(bit))) == Half(x)
    ensures Low(Plus(x, Unit(bit))) == (Low(x) != bit)
  {
    if bit {} else {}
  }

  lemma ReflectedStep(x: bv32, bit: bool)
    ensures Reflect(BitStep(Plus(x, Unit(bit)))) == DivisionStep(Reflect(x), bit)
  {
    hide Reflect, Plus, Half, Double, Low, Top, Unit;
    AddUnit(x, bit);
    ReflectOfLow(x);
    ReflectOfHalf(x);
    ReflectOfPolynomial(Half(x));
  }

  lemma {:induction false} DivisionConcat(r: bv32, x: seq<bool>, y: seq<bool>)
    ensures Division(r, x + y) == Division(Division(r, x), y)
    decreases |x|
  {
    hide DivisionStep;
    if x == [] {
      assert x + y == y;
    } else {
      assert (x + y)[1..] == x[1..] + y;
      DivisionConcat(DivisionStep(r, x[0]), x[1..], y);
    }
  }

  lemma HalfAndLow(y: bv32)
    ensures y == Plus(Unit(Low(y)), Double(Half(y))) && TopClear(Half(y))
  {
  }

  /** Only the low bit of an added value matters to one step; the rest moves down. */
  lemma PeelBit(x: bv32, y: bv32)
    ensures BitStep(Plus(x, y)) == Plus(BitStep(Plus(x, Unit(Low(y)))), Half(y))
  {
    hide BitStep, Plus, Unit, Low, Half, Double, TopClear;
    HalfAndLow(y);
    PlusAssociates(x, Unit(Low(y)), Double(Half(y)));
    BitStepIsLinear(Plus(x, Unit(Low(y))), Double(Half(y)));
    ShiftedBack(Half(y));
  }

  /** The value has no bit above the low n. */
  predicate Fits(y: bv32, n: nat)
    decreases n
  {
    if n == 0 then y == 0 else Fits(Half(y), n - 1)
  }

  lemma ByteFits(b: byte)
    ensures Fits(Widen(b), 8)
  {
    EightHalves(b);
    var y := Widen(b);
    hide Half, Widen;
    assert Fits(Half(Half(Half(Half(y)))), 4) by {
      assert Fits(Half(Half(Half(Half(Half(Half(y)))))), 2);
    }
    assert Fits(Half(Half(y)), 6);
  }

  lemma EightHalves(b: byte)
    ensures Half(Half(Half(Half(Half(Half(Half(Half(Widen(b)))))))))  == 0
  {
  }

  /** Feeding a value bit by bit is the same as adding it first. */
  lemma {:induction false} SerialBits(x: bv32, y: bv32, n: nat)
    requires Fits(y, n)
    ensures Reflect(BitSteps(Plus(x, y), n)) == Division(Reflect(x), LowBits(y, n))
    decreases n
  {
    hide Reflect, BitStep, DivisionStep, Plus, Unit, Low, Half;
    if n == 0 {
      PlusSelf(x);
    } else {
      PeelBit(x, y);
      ReflectedStep(x, Low(y));
      SerialBits(BitStep(Plus(x, Unit(Low(y)))), Half(y), n - 1);
      assert LowBits(y, n)[1..] == LowBits(Half(y), n - 1);
    }
  }

  lemma {:induction false} RegisterIsDivision(c: bv32, data: seq<byte>)
    ensures Reflect(Register(c, data)) == Division(Reflect(c), MessageBits(data))
    decreases |data|
  {
    hide Reflect, BitSteps, Plus, Widen, LowBits, Fits;
    if data != [] {
      ByteFits(data[0]);
      SerialBits(c, Widen(data[0]), 8);
      RegisterIsDivision(ByteStep(c, data[0]), data[1..]);
      DivisionConcat(Reflect(c), LowBits(Widen(data[0]), 8), MessageBits(data[1..]));
    }
  }

  lemma ReflectOfComplement(x: bv32)
    ensures Reflect(!x) == !Reflect(x)
  {
  }

  lemma ReflectIsInvolution(x: bv32)
    ensures Reflect(Reflect(x)) == x
  {
  }

  lemma ReflectOfOnes()
    ensures Reflect(INITIAL) == INITIAL
  {
  }

  /** The reflected loop computes the standard's CRC: division of the
      transmitted bits from an all-ones remainder, complemented, bit order reversed. */
  lemma ChecksumIsStandard(data: seq<byte>)
    ensures Checksum(data) == Reflect(!Division(INITIAL, MessageBits(data)))
  {
    hide Reflect, Register, Division;
    var r := Register(INITIAL, data);
    RegisterIsDivision(INITIAL, data);
    ReflectOfOnes();
    ReflectOfComplement(r);
    ReflectIsInvolution(!r);
  }

  // ---- bursts at any bit offset --------------------------------------------

  function XorBits(x: seq<bool>, y: seq<bool>): (z: seq<bool>)
    requires |x| == |y|
    ensures |z| == |x| && forall i | 0 <= i < |x| :: z[i] == (x[i] != y[i])
  {
    seq(|x|, i requires 0 <= i < |x| => x[i] != y[i])
  }

  predicate NoBits(x: seq<bool>) {
    forall i | 0 <= i < |x| :: !x[i]
  }

  lemma DivisionStepIsLinear(r: bv32, s: bv32, b: bool, c: bool)
    ensures DivisionStep(Plus(r, s), b != c) == Plus(DivisionStep(r, b), DivisionStep(s, c))
  {
    hide Plus, Double, Top;
    TopOfXor(r, s);
    DoubleOfXor(r, s);
    PlusRegroups(Double(r), Double(s), GENERATOR);
  }

  lemma TopOfXor(r: bv32, s: bv32)
    ensures Top(Plus(r, s)) == (Top(r) != Top(s))
  {
  }

  lemma DoubleOfXor(r: bv32, s: bv32)
    ensures Double(Plus(r, s)) == Plus(Double(r), Double(s))
  {
  }

  lemma PlusRegroups(x: bv32, y: bv32, g: bv32)
    ensures Plus(Plus(x, y), g) == Plus(Plus(x, g), y)
    ensures Plus(Plus(x, y), g) == Plus(x, Plus(y, g))
    ensures Plus(Plus(x, g), Plus(y, g)) == Plus(x, y)
  {
    hide Plus;
    PlusAssociates(x, y, g);
    PlusAssociates(x, g, y);
    PlusCommutes(g, y);
    PlusAssociates(x, g, Plus(y, g));
    PlusCommutes(g, Plus(y, g));
    PlusAssociates(y, g, g);
    PlusSelf(g);
    PlusSelf(y);
  }

  lemma PlusCommutes(x: bv32, y: bv32)
    ensures Plus(x, y) == Plus(y, x)
  {
  }

  lemma {:induction false} DivisionIsLinear(r: bv32, s: bv32, x: seq<bool>, y: seq<bool>)
    requires |x| == |y|
    ensures Division(Plus(r, s), XorBits(x, y)) == Plus(Division(r, x), Division(s, y))
    decreases |x|
  {
    hide DivisionStep, Plus;
    if x != [] {
      DivisionStepIsLinear(r, s, x[0], y[0]);
      assert XorBits(x, y)[1..] == XorBits(x[1..], y[1..]);
      DivisionIsLinear(DivisionStep(r, x[0]), DivisionStep(s, y[0]), x[1..], y[1..]);
    }
  }

  lemma DivisionStepKeepsZero(r: bv32)
    ensures DivisionStep(r, false) == 0 <==> r == 0
  {
  }

  lemma {:induction false} DivisionOfNothing(r: bv32, bits: seq<bool>)
    requires NoBits(bits)
    ensures Division(r, bits) == 0 <==> r == 0
    decreases |bits|
  {
    hide DivisionStep;
    if bits != [] {
      DivisionStepKeepsZero(r);
      DivisionOfNothing(DivisionStep(r, bits[0]), bits[1..]);
    }
  }

  lemma {:induction false} FitsMore(y: bv32, n: nat, m: nat)
    requires Fits(y, n) && n <= m
    ensures Fits(y, m)
    decreases m
  {
    hide Half;
    HalfOfZero();
    if n > 0 {
      FitsMore(Half(y), n - 1, m - 1);
    } else if m > 0 {
      FitsMore(Half(y), 0, m - 1);
    }
  }

  lemma HalfOfZero()
    ensures Half(0) == 0
  {
  }

  function Halves(y: bv32, k: nat): bv32
    decreases k
  {
    if k == 0 then y else Halves(Half(y), k - 1)
  }

  lemma {:induction false} FitsHalves(y: bv32, n: nat)
    requires Fits(y, n)
    ensures Halves(y, n) == 0
    decreases n
  {
    hide Half;
    if n > 0 {
      FitsHalves(Half(y), n - 1);
    }
  }

  lemma {:induction false} HalvesCompose(y: bv32, m: nat, n: nat)
    ensures Halves(Halves(y, m), n) == Halves(y, m + n)
    decreases m
  {
    hide Half;
    if m > 0 {
      HalvesCompose(Half(y), m - 1, n);
    }
  }

  function Down8(y: bv32): bv32 {
    y >> 8
  }

  lemma FourHalves(y: bv32)
    ensures Halves(y, 4) == Half(Half(Half(Half(y))))
  {
    hide Half;
    assert Halves(Half(Half(y)), 2) == Half(Half(Half(Half(y))));
  }

  lemma EightShifts(y: bv32)
    ensures Half(Half(Half(Half(Half(Half(Half(Half(y)))))))) == Down8(y)
  {
  }

  lemma EightAtOnce(y: bv32)
    ensures Halves(y, 8) == Down8(y)
  {
    hide Half, Halves, Down8;
    FourHalves(y);
    FourHalves(Half(Half(Half(Half(y)))));
    HalvesCompose(y, 4, 4);
    EightShifts(y);
  }

  lemma SevenHalves(y: bv32)
    ensures Halves(y, 7) == Half(Half(Half(Half(Half(Half(Half(y)))))))
  {
    hide Half;
    FourHalves(y);
    var z := Half(Half(Half(Half(y))));
    HalvesCompose(y, 4, 3);
    assert Halves(Half(z), 2) == Half(Half(Half(z)));
  }

  lemma ThirtyOneHalves(y: bv32)
    ensures Halves(y, 31) == 0 ==> TopClear(y)
  {
    hide Half, Halves, Down8, TopClear;
    EightAtOnce(y);
    EightAtOnce(Down8(y));
    EightAtOnce(Down8(Down8(y)));
    HalvesCompose(y, 8, 23);
    HalvesCompose(Down8(y), 8, 15);
    HalvesCompose(Down8(Down8(y)), 8, 7);
    SevenHalves(Down8(Down8(Down8(y))));
    LastHalves(y);
  }

  lemma LastHalves(y: bv32)
    ensures Half(Half(Half(Half(Half(Half(Half(Down8(Down8(Down8(y)))))))))) == 0 ==> TopClear(y)
  {
  }

  lemma FitsIsTopClear(y: bv32, n: nat)
    requires n <= 31 && Fits(y, n)
    ensures TopClear(y)
  {
    hide Half, TopClear;
    FitsMore(y, n, 31);
    FitsHalves(y, 31);
    ThirtyOneHalves(y);
  }

  /** Up to 32 bits, least significant first, as a value. */
  function ValueOf(bits: seq<bool>): bv32
    decreases |bits|
  {
    if bits == [] then 0 else Plus(Unit(bits[0]), Double(ValueOf(bits[1..])))
  }

  lemma ValueStep(v: bv32, bit: bool)
    requires TopClear(v)
    ensures Half(Plus(Unit(bit), Double(v))) == v && Low(Plus(Unit(bit), Double(v))) == bit
  {
    if bit {
      OneStep(v);
    } else {
      ZeroStep(v);
    }
    hide Half, Low, Plus, Double;
  }

  lemma OneStep(v: bv32)
    requires TopClear(v)
    ensures Half(Plus(1, Double(v))) == v && Low(Plus(1, Double(v)))
  {
  }

  lemma ZeroStep(v: bv32)
    requires TopClear(v)
    ensures Half(Plus(0, Double(v))) == v && !Low(Plus(0, Double(v)))
  {
  }

  lemma {:induction false} ValueHasBits(bits: seq<bool>)
    requires |bits| <= 32
    ensures Fits(ValueOf(bits), |bits|) && LowBits(ValueOf(bits), |bits|) == bits
    decreases |bits|
  {
    hide Half, Low, Plus, Unit, Double, TopClear;
    if bits != [] {
      ValueHasBits(bits[1..]);
      FitsIsTopClear(ValueOf(bits[1..]), |bits| - 1);
      ValueStep(ValueOf(bits[1..]), bits[0]);
    }
  }

  lemma {:induction false} ZeroHasNoBits(n: nat)
    ensures NoBits(LowBits(0, n))
    decreases n
  {
    hide Half, Low;
    HalfOfZero();
    LowOfZero();
    if n > 0 {
      ZeroHasNoBits(n - 1);
    }
  }

  lemma LowOfZero()
    ensures !Low(0)
  {
  }

  lemma ReflectIsZero(x: bv32)
    ensures Reflect(x) == 0 <==> x == 0
  {
    ReflectIsInvolution(x);
    ReflectOfNothing();
    hide Reflect;
  }

  lemma ReflectOfNothing()
    ensures Reflect(0) == 0
  {
  }

  /** At most 32 bits, not all zero, leave a remainder. */
  lemma BurstAlone(bits: seq<bool>)
    requires |bits| <= 32 && !NoBits(bits)
    ensures Division(0, bits) != 0
  {
    hide Reflect, BitSteps, Plus, NoBits, Division;
    var v := ValueOf(bits);
    ValueHasBits(bits);
    ZeroHasNoBits(|bits|);
    SerialBits(0, v, |bits|);
    PlusSelf(v);
    BitStepsAreInjective(v, |bits|);
    ReflectIsZero(BitSteps(v, |bits|));
    ReflectIsZero(0);
  }

  /** The transmitted bits agree outside 32 consecutive ones from bit `at`. */
  ghost predicate AgreeOutsideBurst(x: seq<byte>, y: seq<byte>, at: nat) {
    && |x| == |y| && |MessageBits(x)| == |MessageBits(y)|
    && (forall i | 0 <= i < |MessageBits(x)| && !(at <= i < at + 32) :: MessageBits(x)[i] == MessageBits(y)[i])
  }

  lemma BurstNeverCancels(before: seq<bool>, burst: seq<bool>, after: seq<bool>)
    requires |burst| <= 32 && !NoBits(burst) && NoBits(before) && NoBits(after)
    ensures Division(0, before + (burst + after)) != 0
  {
    hide Division, NoBits;
    DivisionConcat(0, before, burst + after);
    DivisionOfNothing(0, before);
    DivisionConcat(0, burst, after);
    BurstAlone(burst);
    DivisionOfNothing(Division(0, burst), after);
  }

  lemma {:induction false} LowBitsInjective(x: bv32, y: bv32, n: nat)
    requires Fits(x, n) && Fits(y, n) && LowBits(x, n) == LowBits(y, n)
    ensures x == y
    decreases n
  {
    hide Half, Low, Plus, Unit, Double;
    if n > 0 {
      assert LowBits(x, n)[1..] == LowBits(Half(x), n - 1);
      assert LowBits(y, n)[1..] == LowBits(Half(y), n - 1);
      LowBitsInjective(Half(x), Half(y), n - 1);
      HalfAndLow(x);
      HalfAndLow(y);
      assert LowBits(x, n)[0] == Low(x) && LowBits(y, n)[0] == Low(y);
    }
  }

  lemma {:induction false} LowBitsLength(x: bv32, n: nat)
    ensures |LowBits(x, n)| == n
    decreases n
  {
    if n > 0 {
      LowBitsLength(Half(x), n - 1);
    }
  }

  lemma WidenIsInjective(x: byte, y: byte)
    requires Widen(x) == Widen(y)
    ensures x == y
  {
  }

  /** Equal transmitted bits are equal bytes. */
  lemma {:induction false} MessageBitsInjective(x: seq<byte>, y: seq<byte>)
    requires |x| == |y|
    ensures |MessageBits(x)| == |MessageBits(y)| == 8 * |x|
    ensures MessageBits(x) == MessageBits(y) ==> x == y
    decreases |x|
  {
    hide Widen, LowBits, Fits;
    if x != [] {
      var a, b := LowBits(Widen(x[0]), 8), LowBits(Widen(y[0]), 8);
      LowBitsLength(Widen(x[0]), 8);
      LowBitsLength(Widen(y[0]), 8);
      MessageBitsInjective(x[1..], y[1..]);
      if MessageBits(x) == MessageBits(y) {
        assert a == MessageBits(x)[..8] && b == MessageBits(y)[..8];
        assert MessageBits(x)[8..] == MessageBits(x[1..]) && MessageBits(y)[8..] == MessageBits(y[1..]);
        ByteFits(x[0]);
        ByteFits(y[0]);
        LowBitsInjective(Widen(x[0]), Widen(y[0]), 8);
        WidenIsInjective(x[0], y[0]);
        assert x == [x[0]] + x[1..] && y == [y[0]] + y[1..];
      }
    }
  }

  lemma BurstDifference(p: seq<bool>, q: seq<bool>, at: nat)
    requires |p| == |q| && p != q
    requires forall i | 0 <= i < |p| && !(at <= i < at + 32) :: p[i] == q[i]
    ensures Division(0, XorBits(p, q)) != 0
  {
    hide Division;
    var diff := XorBits(p, q);
    var end := if at + 32 <= |p| then at + 32 else |p|;
    var start := if at <= |p| then at else |p|;
    var i :| 0 <= i < |p| && p[i] != q[i];
    assert diff[start..end][i - start];
    BurstNeverCancels(diff[..start], diff[start..end], diff[end..]);
    assert diff == diff[..start] + (diff[start..end] + diff[end..]);
  }

  lemma BurstChangesRegister(x: seq<byte>, y: seq<byte>, at: nat)
    requires AgreeOutsideBurst(x, y, at) && x != y
    ensures Register(INITIAL, x) != Register(INITIAL, y)
  {
    hide Division, MessageBits, Register, Reflect, Plus;
    var p, q := MessageBits(x), MessageBits(y);
    MessageBitsInjective(x, y);
    BurstDifference(p, q, at);
    DivisionIsLinear(INITIAL, INITIAL, p, q);
    PlusSelf(INITIAL);
    PlusSelf(Division(INITIAL, p));
    RegisterIsDivision(INITIAL, x);
    RegisterIsDivision(INITIAL, y);
    ReflectOfOnes();
  }

  /** Messages of equal length whose transmitted bits differ only inside 32
      consecutive ones, at any bit offset, never share a checksum. */
  lemma BurstChangesChecksum(x: seq<byte>, y: seq<byte>, at: nat)
    requires AgreeOutsideBurst(x, y, at) && x != y
    ensures Checksum(x) != Checksum(y)
  {
    hide Register;
    BurstChangesRegister(x, y, at);
    if Checksum(x) == Checksum(y) {
      ComplementIsInjective(Register(INITIAL, x), Register(INITIAL, y));
    }
  }

  /** Nor does such a burst leave a sealed datagram sealed, wherever it lies. */
  lemma BurstBreaksSeal(x: seq<byte>, y: seq<byte>, at: nat)
    requires AgreeOutsideBurst(x, y, at) && x != y
    requires Sealed(x)
    ensures !Sealed(y)
  {
    SealedResidue(x);
    BurstChangesRegister(x, y, at);
    hide Register, BitSteps;
    if Sealed(y) {
      SealedResidue(y);
    }
  }
}
