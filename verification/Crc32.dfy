/** The software CRC-32 register of the OTA session, and what it detects. */
module Crc32 {
  import opened Bytes

  /** The reflected polynomial of section 8 of RFC 1952. */
  const POLY: bv32 := 0xEDB8_8320

  datatype Bits = Bits(b7: bool, b6: bool, b5: bool, b4: bool, b3: bool, b2: bool, b1: bool, b0: bool)

  function BitIf(on: bool, mask: bv32): bv32 {
    if on then mask else 0
  }

  function WordOfBits(p: Bits): bv32 {
    BitIf(p.b7, 0x80) | BitIf(p.b6, 0x40) | BitIf(p.b5, 0x20) | BitIf(p.b4, 0x10) |
    BitIf(p.b3, 0x08) | BitIf(p.b2, 0x04) | BitIf(p.b1, 0x02) | BitIf(p.b0, 0x01)
  }

  function BitsOfWord(v: bv32): Bits {
    Bits(v & 0x80 != 0, v & 0x40 != 0, v & 0x20 != 0, v & 0x10 != 0,
         v & 0x08 != 0, v & 0x04 != 0, v & 0x02 != 0, v & 0x01 != 0)
  }

  function Weight(on: bool, w: nat): nat {
    if on then w else 0
  }

  function ByteOfBits(p: Bits): byte {
    Weight(p.b7, 128) + Weight(p.b6, 64) + Weight(p.b5, 32) + Weight(p.b4, 16) +
    Weight(p.b3, 8) + Weight(p.b2, 4) + Weight(p.b1, 2) + Weight(p.b0, 1)
  }

  /** What is left of x once the bit of weight w is taken out. */
  function Less(x: nat, w: nat): nat {
    if x >= w then x - w else x
  }

  function BitsOfByte(b: byte): Bits {
    var r7 := Less(b, 128);
    var r6 := Less(r7, 64);
    var r5 := Less(r6, 32);
    var r4 := Less(r5, 16);
    var r3 := Less(r4, 8);
    var r2 := Less(r3, 4);
    var r1 := Less(r2, 2);
    Bits(b >= 128, r7 >= 64, r6 >= 32, r5 >= 16, r4 >= 8, r3 >= 4, r2 >= 2, r1 >= 1)
  }

  /** The byte widened to a 32-bit word, bit by bit. */
  function Lane(b: byte): bv32 {
    WordOfBits(BitsOfByte(b))
  }

  /** The low byte of a word. */
  function ToByte(v: bv32): byte {
    ByteOfBits(BitsOfWord(v))
  }

  function Xor(a: bv32, b: bv32): bv32 {
    a ^ b
  }

  function Double(y: bv32): bv32 {
    y << 1
  }

  /** One turn of the inner loop. */
  function BitStep(c: bv32): bv32 {
    (c >> 1) ^ (if c & 1 == 1 then POLY else 0)
  }

  function Shift(c: bv32, k: nat): bv32
    decreases k
  {
    if k == 0 then c else Shift(BitStep(c), k - 1)
  }

  function ByteStep(c: bv32, b: byte): bv32 {
    Shift(Xor(c, Lane(b)), 8)
  }

  /** The register after the bytes of s, oldest byte first. */
  function Update(c: bv32, s: seq<byte>): bv32
    decreases |s|
  {
    if s == [] then c else Update(ByteStep(c, s[0]), s[1..])
  }

  method UpdateRegister(crc0: bv32, buf: seq<byte>) returns (crc: bv32)
    ensures crc == Update(crc0, buf)
  {
    hide Xor, Lane, BitStep;
    crc := crc0;
    var p := 0;
    while p < |buf|
      invariant 0 <= p <= |buf|
      invariant Update(crc, buf[p..]) == Update(crc0, buf)
    {
      ghost var before := crc;
      assert buf[p..][1..] == buf[p + 1..];
      crc := Xor(crc, Lane(buf[p]));
      for i := 0 to 8
        invariant Shift(crc, 8 - i) == ByteStep(before, buf[p])
      {
        crc := BitStep(crc);
      }
      p := p + 1;
    }
  }

  /** Feeding two blocks one after the other is feeding their concatenation. */
  lemma {:induction false} UpdateComposes(c: bv32, a: seq<byte>, b: seq<byte>)
    ensures Update(Update(c, a), b) == Update(c, a + b)
    decreases |a|
  {
    hide ByteStep;
    if a == [] {
      assert a + b == b;
    } else {
      UpdateComposes(ByteStep(c, a[0]), a[1..], b);
      assert (a + b)[1..] == a[1..] + b;
    }
  }

  // ---- laws of the word operations, each settled on bit-vectors alone ----

  lemma XorCancels(a: bv32, b: bv32, m: bv32)
    ensures Xor(a, m) == Xor(b, m) <==> a == b
    ensures Xor(m, a) == Xor(m, b) <==> a == b
  {
  }

  lemma XorAssociates(a: bv32, b: bv32, c: bv32)
    ensures Xor(Xor(a, b), c) == Xor(a, Xor(b, c))
  {
  }

  lemma XorCommutes(a: bv32, b: bv32)
    ensures Xor(a, b) == Xor(b, a)
  {
  }

  lemma XorZero(a: bv32)
    ensures Xor(a, 0) == a && Xor(0, a) == a
  {
  }

  function BitStepInverse(r: bv32): bv32 {
    if r & 0x8000_0000 != 0 then ((r ^ POLY) << 1) | 1 else r << 1
  }

  lemma BitStepInvertible(c: bv32)
    ensures BitStepInverse(BitStep(c)) == c
  {
  }

  lemma AbsorbBitRaw(x: bv32, y: bv32)
    requires y < 0x8000_0000
    ensures BitStep(x ^ (y << 1)) == BitStep(x) ^ y
  {
  }

  lemma AbsorbBit(x: bv32, y: bv32)
    requires y < 0x8000_0000
    ensures BitStep(Xor(x, Double(y))) == Xor(BitStep(x), y)
  {
    AbsorbBitRaw(x, y);
    hide BitStep;
  }

  // ---- the register loses nothing ----

  lemma {:induction false} ShiftInjective(a: bv32, b: bv32, k: nat)
    ensures Shift(a, k) == Shift(b, k) <==> a == b
    decreases k
  {
    hide BitStep, BitStepInverse;
    if k > 0 {
      BitStepInvertible(a);
      BitStepInvertible(b);
      ShiftInjective(BitStep(a), BitStep(b), k - 1);
    }
  }

  lemma {:induction false} UpdateInjective(a: bv32, b: bv32, s: seq<byte>)
    ensures Update(a, s) == Update(b, s) <==> a == b
    decreases |s|
  {
    hide Xor, BitStep, Lane;
    if s != [] {
      XorCancels(a, b, Lane(s[0]));
      ShiftInjective(Xor(a, Lane(s[0])), Xor(b, Lane(s[0])), 8);
      UpdateInjective(ByteStep(a, s[0]), ByteStep(b, s[0]), s[1..]);
    }
  }

  // ---- up to four bytes act as one injected word ----

  function Up(y: bv32, k: nat): bv32 {
    if k == 0 then y else Double(Up(y, k - 1))
  }

  predicate Fits(y: bv32, k: nat) {
    k == 0 || (Up(y, k - 1) < 0x8000_0000 && Fits(y, k - 1))
  }

  lemma {:induction false} Absorb(x: bv32, y: bv32, k: nat)
    requires Fits(y, k)
    ensures Shift(Xor(x, Up(y, k)), k) == Xor(Shift(x, k), y)
    decreases k
  {
    hide Xor, BitStep, Double;
    if k > 0 {
      AbsorbBit(x, Up(y, k - 1));
      Absorb(BitStep(x), y, k - 1);
    }
  }

  lemma {:induction false} ShiftComposes(c: bv32, j: nat, k: nat)
    ensures Shift(Shift(c, j), k) == Shift(c, j + k)
    decreases j
  {
    hide BitStep;
    if j > 0 {
      ShiftComposes(BitStep(c), j - 1, k);
    }
  }

  function Up8(y: bv32): bv32 {
    Double(Double(Double(Double(Double(Double(Double(Double(y))))))))
  }

  lemma Up8IsShift(y: bv32)
    ensures Up8(y) == y << 8
  {
  }

  lemma DoubleBounds(y: bv32)
    ensures y < 0x100_0000 ==> Double(y) < 0x200_0000
    ensures y < 0x200_0000 ==> Double(y) < 0x400_0000
    ensures y < 0x400_0000 ==> Double(y) < 0x800_0000
    ensures y < 0x800_0000 ==> Double(y) < 0x1000_0000
    ensures y < 0x1000_0000 ==> Double(y) < 0x2000_0000
    ensures y < 0x2000_0000 ==> Double(y) < 0x4000_0000
    ensures y < 0x4000_0000 ==> Double(y) < 0x8000_0000
  {
  }

  lemma UpEight(y: bv32)
    ensures Up(y, 8) == Up8(y)
    ensures y < 0x100_0000 ==> Fits(y, 8)
  {
    hide Double;
    assert Up(y, 0) == y;
    var u1 := Up(y, 1);
    var u2 := Up(y, 2);
    assert u2 == Double(u1) && u1 == Double(y);
    var u3 := Up(y, 3);
    var u4 := Up(y, 4);
    assert u4 == Double(u3) && u3 == Double(u2);
    var u5 := Up(y, 5);
    var u6 := Up(y, 6);
    assert u6 == Double(u5) && u5 == Double(u4);
    var u7 := Up(y, 7);
    assert u7 == Double(u6) && Up(y, 8) == Double(u7);
    if y < 0x100_0000 {
      DoubleBounds(y);
      DoubleBounds(u1);
      DoubleBounds(u2);
      DoubleBounds(u3);
      DoubleBounds(u4);
      DoubleBounds(u5);
      DoubleBounds(u6);
      assert Fits(y, 0);
      assert Fits(y, 1);
      assert Fits(y, 2);
      assert Fits(y, 3);
      assert Fits(y, 4);
      assert Fits(y, 5);
      assert Fits(y, 6);
      assert Fits(y, 7);
    }
  }

  /** The bytes of w as one word, the first byte in the lowest lane. */
  function Word(w: seq<byte>): bv32 {
    if w == [] then 0 else Xor(Lane(w[0]), Up8(Word(w[1..])))
  }

  lemma WordBitsInvertible(p: Bits)
    ensures WordOfBits(p) < 0x100
    ensures BitsOfWord(WordOfBits(p)) == p
  {
  }

  lemma WordOfLowBits(v: bv32)
    ensures WordOfBits(BitsOfWord(v)) == v & 0xFF
  {
  }

  lemma TakeOut(x: nat, w: nat)
    ensures Weight(x >= w, w) + Less(x, w) == x
    ensures x < 2 * w ==> Less(x, w) < w
  {
  }

  lemma ByteBitsInvertible(b: byte)
    ensures ByteOfBits(BitsOfByte(b)) == b
  {
    hide Weight, Less;
    TakeOut(b, 128);
    var r7 := Less(b, 128);
    TakeOut(r7, 64);
    var r6 := Less(r7, 64);
    TakeOut(r6, 32);
    var r5 := Less(r6, 32);
    TakeOut(r5, 16);
    var r4 := Less(r5, 16);
    TakeOut(r4, 8);
    var r3 := Less(r4, 8);
    TakeOut(r3, 4);
    var r2 := Less(r3, 4);
    TakeOut(r2, 2);
    TakeOut(Less(r2, 2), 1);
  }

  lemma TopBit(on: bool, w: nat, rest: nat)
    requires rest < w
    ensures Weight(on, w) + rest < 2 * w
    ensures Less(Weight(on, w) + rest, w) == rest
    ensures (Weight(on, w) + rest >= w) == on
  {
  }

  lemma ByteOfBitsInvertible(p: Bits)
    ensures BitsOfByte(ByteOfBits(p)) == p
  {
    hide Weight, Less;
    TopBit(p.b0, 1, 0);
    var s1 := Weight(p.b0, 1) + 0;
    TopBit(p.b1, 2, s1);
    var s2 := Weight(p.b1, 2) + s1;
    TopBit(p.b2, 4, s2);
    var s3 := Weight(p.b2, 4) + s2;
    TopBit(p.b3, 8, s3);
    var s4 := Weight(p.b3, 8) + s3;
    TopBit(p.b4, 16, s4);
    var s5 := Weight(p.b4, 16) + s4;
    TopBit(p.b5, 32, s5);
    var s6 := Weight(p.b5, 32) + s5;
    TopBit(p.b6, 64, s6);
    var s7 := Weight(p.b6, 64) + s6;
    TopBit(p.b7, 128, s7);
    assert ByteOfBits(p) == Weight(p.b7, 128) + s7;
  }

  lemma LaneInvertible(b: byte)
    ensures Lane(b) < 0x100
    ensures ToByte(Lane(b)) == b
  {
    hide WordOfBits, BitsOfWord, ByteOfBits, BitsOfByte;
    WordBitsInvertible(BitsOfByte(b));
    ByteBitsInvertible(b);
  }

  lemma LaneOfToByte(v: bv32)
    ensures Lane(ToByte(v)) == v & 0xFF
  {
    hide WordOfBits, BitsOfWord, ByteOfBits, BitsOfByte;
    ByteOfBitsInvertible(BitsOfWord(v));
    WordOfLowBits(v);
  }

  lemma JoinBound(lo: bv32, hi: bv32)
    requires lo < 0x100
    ensures hi < 0x100 ==> lo ^ (hi << 8) < 0x1_0000
    ensures hi < 0x1_0000 ==> lo ^ (hi << 8) < 0x100_0000
    ensures hi == 0 ==> lo ^ (hi << 8) < 0x100
  {
  }

  lemma JoinInjective(lo: bv32, hi: bv32, lo': bv32, hi': bv32)
    requires lo < 0x100 && lo' < 0x100 && hi < 0x100_0000 && hi' < 0x100_0000
    requires Xor(lo, Up8(hi)) == Xor(lo', Up8(hi'))
    ensures lo == lo' && hi == hi'
  {
  }

  lemma {:induction false} WordBound(w: seq<byte>)
    requires |w| <= 3
    ensures |w| == 0 ==> Word(w) == 0
    ensures |w| <= 1 ==> Word(w) < 0x100
    ensures |w| <= 2 ==> Word(w) < 0x1_0000
    ensures Word(w) < 0x100_0000
    decreases |w|
  {
    if w != [] {
      WordBound(w[1..]);
      LaneInvertible(w[0]);
      Up8IsShift(Word(w[1..]));
      JoinBound(Lane(w[0]), Word(w[1..]));
      hide Up8, Lane;
    }
  }

  lemma {:induction false} WordInjective(a: seq<byte>, b: seq<byte>)
    requires |a| == |b| <= 4
    requires Word(a) == Word(b)
    ensures a == b
    decreases |a|
  {
    hide Xor, Up8, Lane;
    if a != [] {
      WordBound(a[1..]);
      WordBound(b[1..]);
      LaneInvertible(a[0]);
      LaneInvertible(b[0]);
      JoinInjective(Lane(a[0]), Word(a[1..]), Lane(b[0]), Word(b[1..]));
      WordInjective(a[1..], b[1..]);
    }
  }

  lemma {:induction false} UpdateIsOneInjection(c: bv32, w: seq<byte>)
    requires |w| <= 4
    ensures Update(c, w) == Shift(Xor(c, Word(w)), 8 * |w|)
    decreases |w|
  {
    hide Xor, Up8, Lane, BitStep;
    if w == [] {
      XorZero(c);
    } else {
      var tail := w[1..];
      UpdateIsOneInjection(ByteStep(c, w[0]), tail);
      WordBound(tail);
      UpEight(Word(tail));
      Absorb(Xor(c, Lane(w[0])), Word(tail), 8);
      XorAssociates(c, Lane(w[0]), Up8(Word(tail)));
      ShiftComposes(Xor(c, Word(w)), 8, 8 * |tail|);
    }
  }

  /**
   * Two equal-length images that agree outside one window of at most four
   * consecutive bytes end in the same register only if they are the same image.
   */
  lemma BurstDetected(c: bv32, a: seq<byte>, b: seq<byte>, at: nat, k: nat)
    requires |a| == |b| && k <= 4 && at + k <= |a|
    requires a[..at] == b[..at] && a[at + k..] == b[at + k..]
    ensures Update(c, a) == Update(c, b) <==> a == b
  {
    hide Xor, Word, Update;
    var wa, wb := a[at..at + k], b[at..at + k];
    var mid := Update(c, a[..at]);
    assert a == a[..at] + (wa + a[at + k..]);
    assert b == b[..at] + (wb + b[at + k..]);
    UpdateComposes(c, a[..at], wa + a[at + k..]);
    UpdateComposes(c, b[..at], wb + b[at + k..]);
    UpdateComposes(mid, wa, a[at + k..]);
    UpdateComposes(mid, wb, b[at + k..]);
    UpdateInjective(Update(mid, wa), Update(mid, wb), a[at + k..]);
    UpdateIsOneInjection(mid, wa);
    UpdateIsOneInjection(mid, wb);
    ShiftInjective(Xor(mid, Word(wa)), Xor(mid, Word(wb)), 8 * k);
    XorCancels(Word(wa), Word(wb), mid);
    if Word(wa) == Word(wb) {
      WordInjective(wa, wb);
    }
  }

  // ---- the host's CRC and the device's register ----

  /** zlib.crc32 of the host: the register with both inversions of RFC 1952, section 8. */
  function HostCrc(d: seq<byte>): bv32 {
    Xor(Update(0xFFFF_FFFF, d), 0xFFFF_FFFF)
  }

  lemma LinearEvenEven(a: bv32, b: bv32)
    requires a & 1 == 0 && b & 1 == 0
    ensures BitStep(a ^ b) == BitStep(a) ^ BitStep(b)
  {
  }

  lemma LinearEvenOdd(a: bv32, b: bv32)
    requires a & 1 == 0 && b & 1 == 1
    ensures BitStep(a ^ b) == BitStep(a) ^ BitStep(b)
  {
  }

  lemma LinearOddOdd(a: bv32, b: bv32)
    requires a & 1 == 1 && b & 1 == 1
    ensures BitStep(a ^ b) == BitStep(a) ^ BitStep(b)
  {
  }

  lemma LowBit(a: bv32)
    ensures a & 1 == 0 || a & 1 == 1
  {
  }

  lemma BitStepLinear(a: bv32, b: bv32)
    ensures BitStep(Xor(a, b)) == Xor(BitStep(a), BitStep(b))
  {
    hide BitStep;
    LowBit(a);
    LowBit(b);
    if a & 1 == 0 {
      if b & 1 == 0 { LinearEvenEven(a, b); } else { LinearEvenOdd(a, b); }
    } else if b & 1 == 0 {
      LinearEvenOdd(b, a);
      XorCommutes(a, b);
      XorCommutes(BitStep(a), BitStep(b));
    } else {
      LinearOddOdd(a, b);
    }
  }

  lemma {:induction false} ShiftLinear(a: bv32, b: bv32, k: nat)
    ensures Shift(Xor(a, b), k) == Xor(Shift(a, k), Shift(b, k))
    decreases k
  {
    hide Xor, BitStep;
    if k > 0 {
      BitStepLinear(a, b);
      ShiftLinear(BitStep(a), BitStep(b), k - 1);
    }
  }

  /** A difference in the start value passes through without meeting the data. */
  lemma {:induction false} StartDifferencePropagates(c: bv32, e: bv32, d: seq<byte>)
    ensures Update(Xor(c, e), d) == Xor(Update(c, d), Shift(e, 8 * |d|))
    decreases |d|
  {
    hide Xor, BitStep, Lane;
    if d != [] {
      var b := Lane(d[0]);
      XorAssociates(c, e, b);
      XorCommutes(e, b);
      XorAssociates(c, b, e);
      ShiftLinear(Xor(c, b), e, 8);
      StartDifferencePropagates(ByteStep(c, d[0]), Shift(e, 8), d[1..]);
      ShiftComposes(e, 8, 8 * |d[1..]|);
    }
  }

  /**
   * The device's register ends at the host's CRC for exactly the image lengths
   * that bring the all-ones register back to itself; the data does not matter.
   */
  lemma HostCrcAgreesByLengthOnly(d: seq<byte>)
    ensures HostCrc(d) == Update(0, d) <==> Shift(0xFFFF_FFFF, 8 * |d|) == 0xFFFF_FFFF
  {
    hide Xor, Update, Shift;
    var ones: bv32 := 0xFFFF_FFFF;
    var u, s := Update(0, d), Shift(ones, 8 * |d|);
    XorZero(ones);
    StartDifferencePropagates(0, ones, d);
    XorAssociates(u, s, ones);
    XorZero(u);
    XorCancels(Xor(s, ones), 0, u);
    XorSelf(ones);
    XorCancels(s, ones, ones);
  }

  /** What the session accepts: no check asked for, or the register of the whole image. */
  predicate ChecksumFits(wanted: bv32, image: seq<byte>) {
    wanted == 0 || Update(0, image) == wanted
  }

  /**
   * The host's own checksum, zlib's, fits the device's software checksum exactly
   * when it happens to be zero or the image has one of the lengths for which
   * the missing inversions cancel.
   */
  lemma HostChecksumFits(image: seq<byte>)
    ensures ChecksumFits(HostCrc(image), image) <==>
            HostCrc(image) == 0 || Shift(0xFFFF_FFFF, 8 * |image|) == 0xFFFF_FFFF
  {
    hide HostCrc, Shift, Update;
    HostCrcAgreesByLengthOnly(image);
  }

  // ---- the standard's polynomial and check value ----

  /** The exponents of the CRC-32 polynomial, e.g. x^26 for bit 31 - 26: section 8 of RFC 1952. */
  lemma PolynomialExponents()
    ensures POLY == (1 << 5) | (1 << 8) | (1 << 9) | (1 << 15) | (1 << 19) | (1 << 20) | (1 << 21) |
                    (1 << 23) | (1 << 24) | (1 << 26) | (1 << 27) | (1 << 29) | (1 << 30) | (1 << 31)
  {
  }

  function FourSteps(c: bv32): bv32 {
    BitStep(BitStep(BitStep(BitStep(c))))
  }

  lemma EightSteps(c: bv32)
    ensures Shift(c, 8) == FourSteps(FourSteps(c))
  {
    hide BitStep;
    var c2 := BitStep(BitStep(c));
    var c4 := BitStep(BitStep(c2));
    var c6 := BitStep(BitStep(c4));
    assert Shift(c, 8) == Shift(c2, 6) && Shift(c2, 6) == Shift(c4, 4) && Shift(c4, 4) == Shift(c6, 2);
    assert Shift(c6, 2) == BitStep(BitStep(c6));
  }

  lemma Digit1()
    ensures ByteStep(0xFFFF_FFFF, 49) == 0x7C23_1048
  {
    assert Lane(49) == 0x31 && Xor(0xFFFF_FFFF, 0x31) == 0xFFFF_FFCE;
    assert FourSteps(0xFFFF_FFCE) == 0xAFF5_1D84;
    assert FourSteps(0xAFF5_1D84) == 0x7C23_1048;
    hide FourSteps, Lane;
    EightSteps(0xFFFF_FFCE);
  }

  lemma Digit2()
    ensures ByteStep(0x7C23_1048, 50) == 0xB0AC_BB32
  {
    assert Lane(50) == 0x32 && Xor(0x7C23_1048, 0x32) == 0x7C23_107A;
    assert FourSteps(0x7C23_107A) == 0xD114_92EF;
    assert FourSteps(0xD114_92EF) == 0xB0AC_BB32;
    hide FourSteps, Lane;
    EightSteps(0x7C23_107A);
  }

  lemma Digit3()
    ensures ByteStep(0xB0AC_BB32, 51) == 0x77B7_9C2D
  {
    assert Lane(51) == 0x33 && Xor(0xB0AC_BB32, 0x33) == 0xB0AC_BB01;
    assert FourSteps(0xB0AC_BB01) == 0x16BD_DBD4;
    assert FourSteps(0x16BD_DBD4) == 0x77B7_9C2D;
    hide FourSteps, Lane;
    EightSteps(0xB0AC_BB01);
  }

  lemma Digit4()
    ensures ByteStep(0x77B7_9C2D, 52) == 0x641C_1F5C
  {
    assert Lane(52) == 0x34 && Xor(0x77B7_9C2D, 0x34) == 0x77B7_9C19;
    assert FourSteps(0x77B7_9C19) == 0xF774_EA85;
    assert FourSteps(0xF774_EA85) == 0x641C_1F5C;
    hide FourSteps, Lane;
    EightSteps(0x77B7_9C19);
  }

  lemma Digit5()
    ensures ByteStep(0x641C_1F5C, 53) == 0x340A_C5E3
  {
    assert Lane(53) == 0x35 && Xor(0x641C_1F5C, 0x35) == 0x641C_1F69;
    assert FourSteps(0x641C_1F69) == 0xF64E_52B2;
    assert FourSteps(0xF64E_52B2) == 0x340A_C5E3;
    hide FourSteps, Lane;
    EightSteps(0x641C_1F69);
  }

  lemma Digit6()
    ensures ByteStep(0x340A_C5E3, 54) == 0xF68D_2C9E
  {
    assert Lane(54) == 0x36 && Xor(0x340A_C5E3, 0x36) == 0x340A_C5D5;
    assert FourSteps(0x340A_C5D5) == 0x682B_FDA9;
    assert FourSteps(0x682B_FDA9) == 0xF68D_2C9E;
    hide FourSteps, Lane;
    EightSteps(0x340A_C5D5);
  }

  lemma Digit7()
    ensures ByteStep(0xF68D_2C9E, 55) == 0xAFFC_9660
  {
    assert Lane(55) == 0x37 && Xor(0xF68D_2C9E, 0x37) == 0xF68D_2CA9;
    assert FourSteps(0xF68D_2CA9) == 0xFF67_418E;
    assert FourSteps(0xFF67_418E) == 0xAFFC_9660;
    hide FourSteps, Lane;
    EightSteps(0xF68D_2CA9);
  }

  lemma Digit8()
    ensures ByteStep(0xAFFC_9660, 56) == 0x651F_2550
  {
    assert Lane(56) == 0x38 && Xor(0xAFFC_9660, 0x38) == 0xAFFC_9658;
    assert FourSteps(0xAFFC_9658) == 0xE747_4A45;
    assert FourSteps(0xE747_4A45) == 0x651F_2550;
    hide FourSteps, Lane;
    EightSteps(0xAFFC_9658);
  }

  lemma Digit9()
    ensures ByteStep(0x651F_2550, 57) == 0x340B_C6D9
  {
    assert Lane(57) == 0x39 && Xor(0x651F_2550, 0x39) == 0x651F_2569;
    assert FourSteps(0x651F_2569) == 0xF65E_6112;
    assert FourSteps(0xF65E_6112) == 0x340B_C6D9;
    hide FourSteps, Lane;
    EightSteps(0x651F_2569);
  }

  lemma UpdateFirst(c: bv32, b: byte, rest: seq<byte>)
    ensures Update(c, [b] + rest) == Update(ByteStep(c, b), rest)
  {
    assert ([b] + rest)[1..] == rest;
  }

  lemma LastDigits()
    ensures Update(0x340A_C5E3, [54, 55, 56, 57]) == 0x340B_C6D9
  {
    hide ByteStep;
    Digit6();
    UpdateFirst(0x340A_C5E3, 54, [55, 56, 57]);
    assert [54] + [55, 56, 57] == [54, 55, 56, 57];
    Digit7();
    UpdateFirst(0xF68D_2C9E, 55, [56, 57]);
    assert [55] + [56, 57] == [55, 56, 57];
    Digit8();
    UpdateFirst(0xAFFC_9660, 56, [57]);
    assert [56] + [57] == [56, 57];
    Digit9();
    UpdateFirst(0x651F_2550, 57, []);
    assert [57] + [] == [57];
  }

  /** The usual check value: the checksum of the text "123456789". */
  lemma CheckValue()
    ensures HostCrc([49, 50, 51, 52, 53, 54, 55, 56, 57]) == 0xCBF4_3926
  {
    hide ByteStep, Update;
    Digit1();
    UpdateFirst(0xFFFF_FFFF, 49, [50, 51, 52, 53, 54, 55, 56, 57]);
    assert [49] + [50, 51, 52, 53, 54, 55, 56, 57] == [49, 50, 51, 52, 53, 54, 55, 56, 57];
    Digit2();
    UpdateFirst(0x7C23_1048, 50, [51, 52, 53, 54, 55, 56, 57]);
    assert [50] + [51, 52, 53, 54, 55, 56, 57] == [50, 51, 52, 53, 54, 55, 56, 57];
    Digit3();
    UpdateFirst(0xB0AC_BB32, 51, [52, 53, 54, 55, 56, 57]);
    assert [51] + [52, 53, 54, 55, 56, 57] == [51, 52, 53, 54, 55, 56, 57];
    Digit4();
    UpdateFirst(0x77B7_9C2D, 52, [53, 54, 55, 56, 57]);
    assert [52] + [53, 54, 55, 56, 57] == [52, 53, 54, 55, 56, 57];
    Digit5();
    UpdateFirst(0x641C_1F5C, 53, [54, 55, 56, 57]);
    assert [53] + [54, 55, 56, 57] == [53, 54, 55, 56, 57];
    LastDigits();
    assert Xor(0x340B_C6D9, 0xFFFF_FFFF) == 0xCBF4_3926;
  }

  lemma XorSelf(a: bv32)
    ensures Xor(a, a) == 0
  {
  }

  /** One byte is a length that never does. */
  lemma HostCrcDiffersOnOneByte(b: byte)
    ensures HostCrc([b]) != Update(0, [b])
  {
    HostCrcAgreesByLengthOnly([b]);
    var r0: bv32 := 0xFFFF_FFFF;
    var r2 := Shift(BitStep(BitStep(r0)), 0);
    assert Shift(r0, 8) == Shift(r2, 6);
    var r4 := BitStep(BitStep(r2));
    assert Shift(r2, 6) == Shift(r4, 4);
    var r6 := BitStep(BitStep(r4));
    assert Shift(r4, 4) == Shift(r6, 2);
    assert Shift(r6, 2) == BitStep(BitStep(r6));
  }

  // ---- the TCP trailer: the same register as four little-endian bytes ----

  /** struct.pack("<I", crc) on the host. */
  function PackCrc(v: bv32): seq<byte> {
    [ToByte(v), ToByte(v >> 8), ToByte(v >> 16), ToByte(v >> 24)]
  }

  /** The device's reading of the trailer. */
  function RdCrc(p: seq<byte>): bv32
    requires |p| == 4
  {
    Lane(p[0]) | (Lane(p[1]) << 8) | (Lane(p[2]) << 16) | (Lane(p[3]) << 24)
  }

  lemma LanesRejoin(v: bv32)
    ensures (v & 0xFF) | (((v >> 8) & 0xFF) << 8) | (((v >> 16) & 0xFF) << 16) | (((v >> 24) & 0xFF) << 24) == v
  {
  }

  lemma CrcTrailerRoundTrip(v: bv32)
    ensures RdCrc(PackCrc(v)) == v
  {
    hide ToByte, Lane;
    LaneOfToByte(v);
    LaneOfToByte(v >> 8);
    LaneOfToByte(v >> 16);
    LaneOfToByte(v >> 24);
    LanesRejoin(v);
  }
}
