/** The hash on concrete inputs, against the values published with the FNV-1 algorithm; and what
    the exclusive or does bit by bit. */
module FnvConstants {
  import opened Fnv

  /** Two numbers that agree with others after a shift by one bit. */
  lemma XorShifted(t: nat, low: nat, b: nat)
    requires Xor(t + low / 2, b / 2) == t + Xor(low / 2, b / 2)
    ensures Xor(2 * t + low, b) == 2 * t + Xor(low, b)
  {
    HalfStep(2 * t + low, b);
    HalfStep(low, b);
  }

  lemma HalfStep(a: nat, b: nat)
    ensures Xor(a, b) == 2 * Xor(a / 2, b / 2) + if a % 2 == b % 2 then 0 else 1
  {
    if a == 0 && b > 0 {
      assert Xor(0, b / 2) == b / 2;
    } else if b == 0 && a > 0 {
      assert Xor(a / 2, 0) == a / 2;
    }
  }

  /** A number with n zero bits appended. */
  function Shift(q: nat, n: nat): nat {
    if n == 0 then q else 2 * Shift(q, n - 1)
  }

  lemma {:induction false} XorLowBits(q: nat, low: nat, b: nat, n: nat)
    requires low < Pow2(n) && b < Pow2(n)
    ensures Xor(Shift(q, n) + low, b) == Shift(q, n) + Xor(low, b)
  {
    if n > 0 {
      XorLowBits(q, low / 2, b / 2, n - 1);
      XorShifted(Shift(q, n - 1), low, b);
    }
  }

  lemma ShiftByFour(q: nat, n: nat)
    ensures Shift(q, n + 4) == 16 * Shift(q, n)
  {
    assert Shift(q, n + 4) == 2 * Shift(q, n + 3) == 4 * Shift(q, n + 2) == 8 * Shift(q, n + 1);
  }

  lemma ShiftByEight(q: nat)
    ensures Shift(q, 8) == 256 * q
  {
    ShiftByFour(q, 0);
    ShiftByFour(q, 4);
  }

  /** Whether two numbers differ in the bit of a given weight. */
  function Differ(a: nat, b: nat, weight: nat): nat
    requires weight > 0
  {
    if a / weight % 2 == b / weight % 2 then 0 else weight
  }

  /** The exclusive or of two bytes, bit by bit. */
  function XorBits(a: Byte, b: Byte): nat {
    Differ(a, b, 1) + Differ(a, b, 2) + Differ(a, b, 4) + Differ(a, b, 8)
    + Differ(a, b, 16) + Differ(a, b, 32) + Differ(a, b, 64) + Differ(a, b, 128)
  }

  lemma TwoBits(a: nat, b: nat)
    ensures Xor(a, b) == 4 * Xor(a / 4, b / 4) + Differ(a, b, 1) + Differ(a, b, 2)
  {
    HalfStep(a, b);
    HalfStep(a / 2, b / 2);
    assert a / 2 / 2 == a / 4 && b / 2 / 2 == b / 4;
  }

  lemma FourBits(a: nat, b: nat)
    ensures Xor(a, b) ==
      16 * Xor(a / 16, b / 16) + Differ(a, b, 1) + Differ(a, b, 2) + Differ(a, b, 4) + Differ(a, b, 8)
  {
    TwoBits(a, b);
    TwoBits(a / 4, b / 4);
    assert a / 4 / 4 == a / 16 && b / 4 / 4 == b / 16;
    assert a / 4 / 2 == a / 8 && b / 4 / 2 == b / 8;
  }

  lemma DifferAbove(a: nat, b: nat)
    ensures Differ(a, b, 16) == 16 * Differ(a / 16, b / 16, 1) && Differ(a, b, 32) == 16 * Differ(a / 16, b / 16, 2)
    ensures Differ(a, b, 64) == 16 * Differ(a / 16, b / 16, 4) && Differ(a, b, 128) == 16 * Differ(a / 16, b / 16, 8)
  {
    assert a / 16 / 2 == a / 32 && b / 16 / 2 == b / 32;
    assert a / 16 / 4 == a / 64 && b / 16 / 4 == b / 64;
    assert a / 16 / 8 == a / 128 && b / 16 / 8 == b / 128;
  }

  lemma HighestBits(a: Byte, b: Byte)
    ensures Xor(a / 16 / 16, b / 16 / 16) == 0
  {
    assert a / 16 / 16 == 0 && b / 16 / 16 == 0;
  }

  lemma XorIsBits(a: Byte, b: Byte)
    ensures Xor(a, b) == XorBits(a, b)
  {
    FourBits(a, b);
    FourBits(a / 16, b / 16);
    HighestBits(a, b);
    DifferAbove(a, b);
  }

  /** Only the lowest byte changes. */
  lemma FoldByteIs(h: Word, b: Byte, q: nat, low: Byte)
    requires Times(h, PRIME) == 256 * q + low
    ensures FoldByte(h, b) == 256 * q + XorBits(low, b)
  {
    EightMore(0);
    ShiftByEight(q);
    XorLowBits(q, low, b, 8);
    XorIsBits(low, b);
  }

  /** The 64-bit FNV-1 hashes of the empty text and of the text "a". */
  lemma PublishedHashes(a: seq<Byte>)
    requires |a| == 1 && a[0] == 0x61
    ensures Fold(OFFSET_BASIS, []) == 0xcbf2_9ce4_8422_2325
    ensures Fold(OFFSET_BASIS, a) == 0xaf63_bd4c_8601_b7be
  {
    FoldByteIs(OFFSET_BASIS, 0x61, 0xaf63bd4c8601b7, 0xdf);
    assert a[1..] == [];
  }
}
