/** FnvHashAdd of src/percetto.cc: a 64-bit FNV hash that multiplies before it xors. */
module Fnv {
  const TWO_TO_64: nat := 0x1_0000_0000_0000_0000

  /** An unsigned 64-bit integer. */
  type Word = n: nat | n < TWO_TO_64

  const OFFSET_BASIS: Word := 14695981039346656037
  const PRIME: Word := 1099511628211
  /** The inverse of the prime modulo 2^64. */
  const INVERSE: Word := 14886173955864302971

  /** Unsigned multiplication wraps around. */
  function Times(h: Word, factor: Word): Word {
    h * factor % TWO_TO_64
  }

  type Byte = n: nat | n < 256

  function Pow2(n: nat): nat {
    if n == 0 then 1 else 2 * Pow2(n - 1)
  }

  /** Bitwise exclusive or, from the lowest bit up. */
  function Xor(a: nat, b: nat): nat
    decreases a + b
  {
    if a == 0 then b
    else if b == 0 then a
    else 2 * Xor(a / 2, b / 2) + if a % 2 == b % 2 then 0 else 1
  }

  /** h ^ b stays within 64 bits. */
  function XorByte(h: Word, b: Byte): Word {
    SixtyFour();
    XorBound(h, b, 64);
    Xor(h, b)
  }

  function FoldByte(hash: Word, b: Byte): Word {
    XorByte(Times(hash, PRIME), b)
  }

  function UnfoldByte(hash: Word, b: Byte): Word {
    Times(XorByte(hash, b), INVERSE)
  }

  /** The hash state after some more bytes. */
  function Fold(hash: Word, data: seq<Byte>): Word
    decreases data
  {
    if data == [] then hash else Fold(FoldByte(hash, data[0]), data[1..])
  }

  /** The state from which the bytes lead to a given hash. */
  function Unfold(hash: Word, data: seq<Byte>): Word
    decreases data
  {
    if data == [] then hash else UnfoldByte(Unfold(hash, data[1..]), data[0])
  }

  /** The loop of FnvHashAdd over a buffer of bytes. */
  method FnvHashAdd(hash: Word, data: array<Byte>) returns (result: Word)
    ensures result == Fold(hash, data[..])
  {
    result := hash;
    var i := 0;
    while i < data.Length
      invariant 0 <= i <= data.Length
      invariant Fold(result, data[i..]) == Fold(hash, data[..])
    {
      result := Times(result, PRIME);
      result := XorByte(result, data[i]);
      i := i + 1;
    }
  }

  /** GetProcessUuid: the pid, then the inode of the pid namespace when it could be read. */
  method GetProcessUuid(pid: array<Byte>, inode: array<Byte>, statOk: bool) returns (uuid: Word)
    ensures uuid == Fold(OFFSET_BASIS, if statOk then pid[..] + inode[..] else pid[..])
  {
    uuid := FnvHashAdd(OFFSET_BASIS, pid);
    if statOk {
      FoldInPieces(OFFSET_BASIS, pid[..], inode[..]);
      uuid := FnvHashAdd(uuid, inode);
    }
  }

  // ---------------------------------------------------------------- pieces

  /** Hashing in pieces is hashing the concatenation. */
  lemma {:induction false} FoldInPieces(hash: Word, a: seq<Byte>, b: seq<Byte>)
    ensures Fold(hash, a + b) == Fold(Fold(hash, a), b)
    decreases a
  {
    if a == [] {
      assert a + b == b;
    } else {
      FoldInPieces(FoldByte(hash, a[0]), a[1..], b);
      assert (a + b)[1..] == a[1..] + b;
    }
  }

  // ---------------------------------------------------------------- bijection

  lemma TimesTimes(h: Word, p: Word, q: Word)
    requires p * q % TWO_TO_64 == 1
    ensures Times(Times(h, p), q) == h
  {
    var hp, m := h * p, TWO_TO_64;
    var d, e := hp / m, p * q / m;
    assert Times(h, p) == hp - d * m;
    assert (hp - d * m) * q == h * (p * q) - (d * q) * m;
    assert p * q == e * m + 1;
    assert h * (p * q) == (h * e) * m + h;
    assert Times(h, p) * q == (h * e - d * q) * m + h;
    Remainder(h * e - d * q, h);
  }

  lemma Remainder(k: int, h: Word)
    ensures (k * TWO_TO_64 + h) % TWO_TO_64 == h
  {
  }

  /** The prime is odd, so multiplying by it loses nothing. */
  lemma PrimeInvertible(h: Word)
    ensures Times(Times(h, PRIME), INVERSE) == h
    ensures Times(Times(h, INVERSE), PRIME) == h
  {
    TimesTimes(h, PRIME, INVERSE);
    TimesTimes(h, INVERSE, PRIME);
  }

  lemma EightMore(n: nat)
    ensures Pow2(n + 8) == 256 * Pow2(n)
  {
    assert Pow2(n + 4) == 2 * Pow2(n + 3) == 4 * Pow2(n + 2) == 8 * Pow2(n + 1);
    assert Pow2(n + 8) == 2 * Pow2(n + 7) == 4 * Pow2(n + 6) == 8 * Pow2(n + 5);
  }

  lemma SixtyFour()
    ensures Pow2(64) == TWO_TO_64
  {
    EightMore(0);
    EightMore(8);
    EightMore(16);
    EightMore(24);
    EightMore(32);
    EightMore(40);
    EightMore(48);
    EightMore(56);
  }

  lemma {:induction false} XorBound(a: nat, b: nat, n: nat)
    requires a < Pow2(n) && b < Pow2(n)
    ensures Xor(a, b) < Pow2(n)
    decreases n
  {
    if a != 0 && b != 0 {
      XorBound(a / 2, b / 2, n - 1);
    }
  }

  lemma {:induction false} XorCommutes(a: nat, b: nat)
    ensures Xor(a, b) == Xor(b, a)
    decreases a + b
  {
    if a != 0 && b != 0 {
      XorCommutes(a / 2, b / 2);
    }
  }

  lemma {:induction false} XorTwice(a: nat, b: nat)
    ensures Xor(Xor(a, b), b) == a
    decreases a + b
  {
    if a == 0 {
      XorSelf(b);
    } else if b != 0 {
      XorTwice(a / 2, b / 2);
      var c := Xor(a, b);
      assert c / 2 == Xor(a / 2, b / 2) && c % 2 == if a % 2 == b % 2 then 0 else 1;
      if c == 0 {
        XorZero(a, b);
      } else {
        assert Xor(c, b) == 2 * Xor(c / 2, b / 2) + if c % 2 == b % 2 then 0 else 1;
      }
    }
  }

  lemma {:induction false} XorSelf(b: nat)
    ensures Xor(b, b) == 0
    decreases b
  {
    if b != 0 {
      XorSelf(b / 2);
    }
  }

  lemma {:induction false} XorZero(a: nat, b: nat)
    requires Xor(a, b) == 0
    ensures a == b
    decreases a + b
  {
    if a != 0 && b != 0 {
      XorZero(a / 2, b / 2);
    }
  }

  lemma XorInjective(m: nat, b: nat, b': nat)
    requires Xor(m, b) == Xor(m, b')
    ensures b == b'
  {
    XorCommutes(m, b);
    XorCommutes(m, b');
    XorTwice(b, m);
    XorTwice(b', m);
  }

  lemma ByteBijection(h: Word, b: Byte)
    ensures UnfoldByte(FoldByte(h, b), b) == h
    ensures FoldByte(UnfoldByte(h, b), b) == h
  {
    XorTwice(Times(h, PRIME), b);
    PrimeInvertible(h);
    PrimeInvertible(XorByte(h, b));
    XorTwice(h, b);
  }

  /** Every byte string acts as a bijection on the 64-bit states. */
  lemma {:induction false} FoldBijection(h: Word, data: seq<Byte>)
    ensures Unfold(Fold(h, data), data) == h
    ensures Fold(Unfold(h, data), data) == h
    decreases data
  {
    if data != [] {
      FoldBijection(FoldByte(h, data[0]), data[1..]);
      FoldBijection(h, data[1..]);
      ByteBijection(h, data[0]);
      ByteBijection(Unfold(h, data[1..]), data[0]);
    }
  }

  // ---------------------------------------------------------------- collisions

  lemma BytesDiffer(h: Word, b: Byte, b': Byte)
    requires FoldByte(h, b) == FoldByte(h, b')
    ensures b == b'
  {
    XorInjective(Times(h, PRIME), b, b');
  }

  /** From different states, the same bytes lead to different hashes. */
  lemma SameBytesKeepApart(h: Word, h': Word, data: seq<Byte>)
    ensures Fold(h, data) == Fold(h', data) <==> h == h'
  {
    FoldBijection(h, data);
    FoldBijection(h', data);
  }

  /** Inputs that differ in exactly one byte never collide, whatever surrounds it. */
  lemma OneByteNeverCollides(hash: Word, before: seq<Byte>, b: Byte, b': Byte, after: seq<Byte>)
    ensures Fold(hash, before + [b] + after) == Fold(hash, before + [b'] + after) <==> b == b'
  {
    var h := Fold(hash, before);
    FoldInPieces(hash, before + [b], after);
    FoldInPieces(hash, before + [b'], after);
    FoldInPieces(hash, before, [b]);
    FoldInPieces(hash, before, [b']);
    assert Fold(h, [b]) == FoldByte(h, b) && Fold(h, [b']) == FoldByte(h, b');
    if Fold(hash, before + [b] + after) == Fold(hash, before + [b'] + after) {
      SameBytesKeepApart(FoldByte(h, b), FoldByte(h, b'), after);
      BytesDiffer(h, b, b');
    }
  }

  /** A collision between inputs with a common ending is one between what precedes it. */
  lemma CollisionsComeFromPrefixes(hash: Word, a: seq<Byte>, b: seq<Byte>, ending: seq<Byte>)
    ensures Fold(hash, a + ending) == Fold(hash, b + ending) <==> Fold(hash, a) == Fold(hash, b)
  {
    FoldInPieces(hash, a, ending);
    FoldInPieces(hash, b, ending);
    if Fold(hash, a + ending) == Fold(hash, b + ending) {
      SameBytesKeepApart(Fold(hash, a), Fold(hash, b), ending);
    }
  }
}
