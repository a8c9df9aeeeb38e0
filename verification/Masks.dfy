/** Session masks and tag words as machine words. The other modules treat them as the sets of
    their bits; here is why they may: the operations that the sources apply to the words do to
    those sets what the models do. */
module Masks {
  import opened Common

  predicate HasBit(w: bv64, k: bv5) {
    (w >> (k as bv64)) & 1 == 1
  }

  /** 1ul << k. */
  function One(k: bv5): bv64 {
    1 << (k as bv64)
  }

  /** The conversion to the uint32_t that sums and event masks are kept in. */
  function Truncate(w: bv64): bv64 {
    w & 0xFFFF_FFFF
  }

  function High(w: bv64): bv64 {
    w >> 32
  }

  /** An instance index or the position of a bit in half a word. */
  function Index(k: nat): bv5
    requires k < 32
  {
    k as bv5
  }

  predicate Has(w: bv64, k: nat) {
    k < 32 && HasBit(w, Index(k))
  }

  /** The sessions in a mask. */
  function Bits(w: bv64): set<nat> {
    set k: nat | k < MAX_SESSIONS && Has(w, k)
  }

  /** All 64 bits of a word. */
  function AllBits(w: bv64): set<nat> {
    set k: nat | k < 64 && if k < 32 then Has(w, k) else Has(High(w), k - 32)
  }

  // ---------------------------------------------------------------- indices

  lemma IndexRoundTrip(k: nat)
    requires k < 32
    ensures Index(k) as nat == k
  {
  }

  lemma SameIndex(j: nat, k: nat)
    requires j < 32 && k < 32
    ensures Index(j) == Index(k) <==> j == k
  {
    IndexRoundTrip(j);
    IndexRoundTrip(k);
  }

  lemma IndexOnto(b: bv5) returns (k: nat)
    ensures k < 32 && Index(k) == b
  {
    k := b as nat;
  }

  // ---------------------------------------------------------------- single bits

  lemma OrBit(w: bv64, k: bv5, b: bv5)
    ensures HasBit(w | One(k), b) <==> HasBit(w, b) || b == k
  {
  }

  lemma AndNotBit(w: bv64, k: bv5, b: bv5)
    ensures HasBit(w & !One(k), b) <==> HasBit(w, b) && b != k
  {
  }

  lemma UnionBit(w: bv64, v: bv64, b: bv5)
    ensures HasBit(w | v, b) <==> HasBit(w, b) || HasBit(v, b)
  {
  }

  lemma TruncatedBit(w: bv64, b: bv5)
    ensures HasBit(Truncate(w), b) <==> HasBit(w, b)
  {
  }

  lemma BitOfTruncated(w: bv64, b: bv5)
    ensures HasBit(w, b) ==> Truncate(w) != 0
  {
  }

  lemma NoBitsIsZero(w: bv64)
    requires forall b: bv5 :: !HasBit(w, b)
    ensures Truncate(w) == 0
  {
    assert !HasBit(w, 0) && !HasBit(w, 1) && !HasBit(w, 2) && !HasBit(w, 3);
    assert !HasBit(w, 4) && !HasBit(w, 5) && !HasBit(w, 6) && !HasBit(w, 7);
    assert !HasBit(w, 8) && !HasBit(w, 9) && !HasBit(w, 10) && !HasBit(w, 11);
    assert !HasBit(w, 12) && !HasBit(w, 13) && !HasBit(w, 14) && !HasBit(w, 15);
    assert !HasBit(w, 16) && !HasBit(w, 17) && !HasBit(w, 18) && !HasBit(w, 19);
    assert !HasBit(w, 20) && !HasBit(w, 21) && !HasBit(w, 22) && !HasBit(w, 23);
    assert !HasBit(w, 24) && !HasBit(w, 25) && !HasBit(w, 26) && !HasBit(w, 27);
    assert !HasBit(w, 28) && !HasBit(w, 29) && !HasBit(w, 30) && !HasBit(w, 31);
  }

  // ---------------------------------------------------------------- masks

  lemma OrAdds(w: bv64, w': bv64, i: bv5, k: nat)
    requires k < MAX_SESSIONS && i == Index(k) && w' == w | One(i)
    ensures Bits(w') == Bits(w) + {k}
  {
    forall b: nat | b < MAX_SESSIONS ensures Has(w', b) <==> Has(w, b) || b == k {
      OrBit(w, i, Index(b));
      SameIndex(b, k);
    }
  }

  /** fetch_or in OnSetup adds an index to the set. */
  lemma FetchOr(w: bv64, k: nat)
    requires k < MAX_SESSIONS
    ensures Bits(w | One(Index(k))) == Bits(w) + {k}
  {
    OrAdds(w, w | One(Index(k)), Index(k), k);
  }

  lemma AndRemoves(w: bv64, w': bv64, i: bv5, k: nat)
    requires k < MAX_SESSIONS && i == Index(k) && w' == w & !One(i)
    ensures Bits(w') == Bits(w) - {k}
  {
    forall b: nat | b < MAX_SESSIONS ensures Has(w', b) <==> Has(w, b) && b != k {
      AndNotBit(w, i, Index(b));
      SameIndex(b, k);
    }
  }

  /** fetch_and in OnStop removes it. */
  lemma FetchAnd(w: bv64, k: nat)
    requires k < MAX_SESSIONS
    ensures Bits(w & !One(Index(k))) == Bits(w) - {k}
  {
    AndRemoves(w, w & !One(Index(k)), Index(k), k);
  }

  lemma OrUnites(w: bv64, v: bv64, or: bv64, sum: bv64)
    requires or == w | v && sum == Truncate(or)
    ensures Bits(sum) == Bits(w) + Bits(v)
  {
    forall b: nat | b < MAX_SESSIONS ensures Has(sum, b) <==> Has(w, b) || Has(v, b) {
      UnionBit(w, v, Index(b));
      TruncatedBit(or, Index(b));
    }
  }

  /** Adding a child's word to a sum is the union of the sets, and 32 bits are enough for it. */
  lemma OrIsUnion(w: bv64, v: bv64)
    ensures Bits(Truncate(w | v)) == Bits(w) + Bits(v)
  {
    OrUnites(w, v, w | v, Truncate(w | v));
  }

  /** A mask passes the test of the trace macros exactly when it has a session. */
  lemma NonZeroHasSession(w: bv64)
    ensures Truncate(w) != 0 <==> Bits(w) != {}
  {
    if k: nat :| k in Bits(w) {
      BitOfTruncated(w, Index(k));
    } else {
      forall b: bv5 ensures !HasBit(w, b) {
        var k := IndexOnto(b);
        assert k !in Bits(w);
      }
      NoBitsIsZero(w);
    }
  }

  // ---------------------------------------------------------------- tag words

  const VALID_MASK: bv64 := ((1 << 27) - 1) | (1 << 27)

  function Valid(w: bv64): bv64 {
    w & VALID_MASK
  }

  lemma TestBit(w: bv64, b: bv5)
    ensures w & One(b) != 0 <==> HasBit(w, b)
  {
  }

  lemma ValidBit(w: bv64, b: bv5)
    ensures HasBit(Valid(w), b) <==> b < 28 && HasBit(w, b)
  {
  }

  lemma ValidIsShort(w: bv64)
    ensures Truncate(Valid(w)) == Valid(w)
  {
  }

  lemma BelowValid(k: nat)
    requires k < 32
    ensures Index(k) < 28 <==> k < 28
  {
  }

  lemma TestHas(w: bv64, i: bv5, masked: bv64, k: nat)
    requires k < 32 && i == Index(k) && masked == w & One(i)
    ensures masked != 0 <==> Has(w, k)
  {
    TestBit(w, i);
  }

  /** The test for one static category. */
  lemma TagTest(w: bv64, k: nat)
    requires k < 32
    ensures w & One(Index(k)) != 0 <==> k in AllBits(w)
  {
    TestHas(w, Index(k), w & One(Index(k)), k);
  }

  /** The test for any of the valid tags. */
  lemma ValidTags(w: bv64)
    ensures Valid(w) != 0 <==> exists k: nat :: k in AllBits(w) && k < 28
  {
    ValidIsShort(w);
    NonZeroHasSession(Valid(w));
    forall k: nat | k < 32 ensures k in Bits(Valid(w)) <==> k in AllBits(w) && k < 28 {
      ValidBit(w, Index(k));
      BelowValid(k);
    }
    if k: nat :| k in AllBits(w) && k < 28 {
      assert k in Bits(Valid(w));
    }
  }

  lemma DifferingBit(w: bv64, v: bv64, b: bv5)
    ensures HasBit(w ^ v, b) <==> HasBit(w, b) != HasBit(v, b)
  {
  }

  lemma DifferingHalves(w: bv64, v: bv64)
    ensures High(w ^ v) == High(w) ^ High(v)
    ensures Truncate(w ^ v) == 0 && Truncate(High(w ^ v)) == 0 ==> w == v
  {
  }

  lemma EqualLow(w: bv64, v: bv64, x: bv64)
    requires x == w ^ v && forall b: bv5 :: HasBit(w, b) == HasBit(v, b)
    ensures Truncate(x) == 0
  {
    forall b: bv5 ensures !HasBit(x, b) {
      DifferingBit(w, v, b);
    }
    NoBitsIsZero(x);
  }

  lemma SameHalf(w: bv64, v: bv64)
    requires forall k: nat :: k < 32 ==> Has(w, k) == Has(v, k)
    ensures Truncate(w ^ v) == 0
  {
    forall b: bv5 ensures HasBit(w, b) == HasBit(v, b) {
      var k := IndexOnto(b);
      assert Has(w, k) == Has(v, k);
    }
    EqualLow(w, v, w ^ v);
  }

  lemma SameHalves(w: bv64, v: bv64, high: bv64, high': bv64)
    requires AllBits(w) == AllBits(v) && high == High(w) && high' == High(v)
    ensures forall k: nat :: k < 32 ==> Has(w, k) == Has(v, k)
    ensures forall k: nat :: k < 32 ==> Has(high, k) == Has(high', k)
  {
    forall k: nat | k < 32 ensures Has(w, k) == Has(v, k) && Has(high, k) == Has(high', k) {
      assert k in AllBits(w) <==> k in AllBits(v);
      assert k + 32 in AllBits(w) <==> k + 32 in AllBits(v);
    }
  }

  /** Comparing tag words compares their sets of tags. */
  lemma EqualWords(w: bv64, v: bv64)
    ensures w == v <==> AllBits(w) == AllBits(v)
  {
    if AllBits(w) == AllBits(v) {
      SameHalves(w, v, High(w), High(v));
      SameHalf(w, v);
      SameHalf(High(w), High(v));
      DifferingHalves(w, v);
    }
  }
}
