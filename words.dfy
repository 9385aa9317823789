/** Bit-level facts about the 64-bit address and wildcard words of a fault range. The
    per-bit loop of the simulator examines bit 0 of four words and shifts them right by one;
    these lemmas connect that walk to the single-word conflict formula. */
module Words {

  /** Bit positions where both words are concrete and the address bits differ. */
  function ConflictWord(addr0: bv64, mask0: bv64, addr1: bv64, mask1: bv64): bv64
  {
    (addr0 ^ addr1) & !(mask0 | mask1)
  }

  /** The simulator's three-operation test: OR the masks, complement the XOR of the
      addresses, and see whether the complement of their OR is zero. */
  predicate WordsIntersect(addr0: bv64, mask0: bv64, addr1: bv64, mask1: bv64)
  {
    var combinedMask := mask0 | mask1;
    var equalAddr := !(addr0 ^ addr1);
    !(combinedMask | equalAddr) == 0
  }

  /** The three-operation test is zero exactly when the conflict word is. */
  lemma WordsIntersectIff(addr0: bv64, mask0: bv64, addr1: bv64, mask1: bv64)
    ensures WordsIntersect(addr0, mask0, addr1, mask1)
        <==> ConflictWord(addr0, mask0, addr1, mask1) == 0
  {
    DeMorgan(addr0, mask0, addr1, mask1);
  }

  lemma DeMorgan(addr0: bv64, mask0: bv64, addr1: bv64, mask1: bv64)
    ensures (!((mask0 | mask1) | !(addr0 ^ addr1)) == 0)
        <==> ((addr0 ^ addr1) & !(mask0 | mask1) == 0)
  {
  }

  /** The test the per-bit loop applies to the lowest bit of its four shifted words. */
  predicate LowBitCompatible(addr0: bv64, mask0: bv64, addr1: bv64, mask1: bv64)
  {
    (mask0 & 1 == 1) || (mask1 & 1 == 1) || (addr0 & 1 == addr1 & 1)
  }

  /** One right shift of the loop. */
  function Half(x: bv64): bv64
  {
    x >> 1
  }

  /** The lowest `n` bits of `c` are clear, examined one shift at a time. */
  predicate ClearBits(c: bv64, n: nat)
  {
    n == 0 || (ClearUnder(c, 1) && ClearBits(Half(c), n - 1))
  }

  /** No bit of `c` under `m` is set. */
  predicate ClearUnder(c: bv64, m: bv64)
  {
    c & m == 0
  }

  /** `c` shifted right by one, `n` times. */
  function ShiftedBy(c: bv64, n: nat): bv64
  {
    if n == 0 then c else ShiftedBy(Half(c), n - 1)
  }

  /** Shifting all four words right by one shifts their conflict word. */
  lemma ConflictHalf(addr0: bv64, mask0: bv64, addr1: bv64, mask1: bv64)
    ensures ConflictWord(Half(addr0), Half(mask0), Half(addr1), Half(mask1))
         == Half(ConflictWord(addr0, mask0, addr1, mask1))
  {
  }

  /** Bit 0 of the conflict word is clear exactly when the loop's lowest-bit test passes. */
  lemma ConflictLowBit(addr0: bv64, mask0: bv64, addr1: bv64, mask1: bv64)
    ensures LowBitCompatible(addr0, mask0, addr1, mask1)
        <==> ClearUnder(ConflictWord(addr0, mask0, addr1, mask1), 1)
  {
  }

  /** Examining a + b positions is examining a, then b more of the shifted word. */
  lemma {:induction false} ClearBitsSplit(c: bv64, a: nat, b: nat)
    ensures ClearBits(c, a + b) <==> ClearBits(c, a) && ClearBits(ShiftedBy(c, a), b)
    ensures ShiftedBy(c, a + b) == ShiftedBy(ShiftedBy(c, a), b)
  {
    if a > 0 {
      ClearBitsSplit(Half(c), a - 1, b);
    }
  }

  // The widths 1, 2, 4, ..., 64, each from the previous one.

  lemma Clear1(c: bv64)
    ensures ClearBits(c, 1) <==> ClearUnder(c, 1)
    ensures ShiftedBy(c, 1) == c >> 1
  {
    assert ClearBits(Half(c), 0);
  }

  lemma Clear2(c: bv64)
    ensures ClearBits(c, 2) <==> ClearUnder(c, 0x3)
    ensures ShiftedBy(c, 2) == c >> 2
  {
    ClearBitsSplit(c, 1, 1);
    Clear1(c);
    Clear1(c >> 1);
    Halves2(c);
  }

  lemma Halves2(c: bv64)
    ensures (ClearUnder(c, 0x1) && ClearUnder(c >> 1, 0x1)) <==> ClearUnder(c, 0x3)
    ensures (c >> 1) >> 1 == c >> 2
  {
  }

  lemma Clear4(c: bv64)
    ensures ClearBits(c, 4) <==> ClearUnder(c, 0xF)
    ensures ShiftedBy(c, 4) == c >> 4
  {
    ClearBitsSplit(c, 2, 2);
    Clear2(c);
    Clear2(c >> 2);
    Halves4(c);
  }

  lemma Halves4(c: bv64)
    ensures (ClearUnder(c, 0x3) && ClearUnder(c >> 2, 0x3)) <==> ClearUnder(c, 0xF)
    ensures (c >> 2) >> 2 == c >> 4
  {
  }

  lemma Clear8(c: bv64)
    ensures ClearBits(c, 8) <==> ClearUnder(c, 0xFF)
    ensures ShiftedBy(c, 8) == c >> 8
  {
    ClearBitsSplit(c, 4, 4);
    Clear4(c);
    Clear4(c >> 4);
    Halves8(c);
  }

  lemma Halves8(c: bv64)
    ensures (ClearUnder(c, 0xF) && ClearUnder(c >> 4, 0xF)) <==> ClearUnder(c, 0xFF)
    ensures (c >> 4) >> 4 == c >> 8
  {
  }

  lemma Clear16(c: bv64)
    ensures ClearBits(c, 16) <==> ClearUnder(c, 0xFFFF)
    ensures ShiftedBy(c, 16) == c >> 16
  {
    ClearBitsSplit(c, 8, 8);
    Clear8(c);
    Clear8(c >> 8);
    Halves16(c);
  }

  lemma Halves16(c: bv64)
    ensures (ClearUnder(c, 0xFF) && ClearUnder(c >> 8, 0xFF)) <==> ClearUnder(c, 0xFFFF)
    ensures (c >> 8) >> 8 == c >> 16
  {
  }

  lemma Clear32(c: bv64)
    ensures ClearBits(c, 32) <==> ClearUnder(c, 0xFFFF_FFFF)
    ensures ShiftedBy(c, 32) == c >> 32
  {
    ClearBitsSplit(c, 16, 16);
    Clear16(c);
    Clear16(c >> 16);
    Halves32(c);
  }

  lemma Halves32(c: bv64)
    ensures (ClearUnder(c, 0xFFFF) && ClearUnder(c >> 16, 0xFFFF)) <==> ClearUnder(c, 0xFFFF_FFFF)
    ensures (c >> 16) >> 16 == c >> 32
  {
  }

  /** Examining all 64 positions finds nothing iff the word is zero. */
  lemma Clear64(c: bv64)
    ensures ClearBits(c, 64) <==> c == 0
  {
    ClearBitsSplit(c, 32, 32);
    Clear32(c);
    Clear32(c >> 32);
    Halves64(c);
  }

  lemma Halves64(c: bv64)
    ensures (ClearUnder(c, 0xFFFF_FFFF) && ClearUnder(c >> 32, 0xFFFF_FFFF)) <==> c == 0
  {
  }

  /** A 64-bit word read as a number and stored back is the same word. */
  lemma WordRoundTrip(b: bv64)
    ensures (b as nat) as bv64 == b
  {
  }

  lemma WordBound(b: bv64)
    ensures b as nat < 0x1_0000_0000_0000_0000
  {
  }

  /** A copy with more wildcard bits and the same address meets the original, on either
      side. */
  lemma WidenedLeft(addr: bv64, mask: bv64, bits: bv64)
    ensures ConflictWord(addr, mask | bits, addr, mask) == 0
  {
  }

  lemma WidenedRight(addr: bv64, mask: bv64, bits: bv64)
    ensures ConflictWord(addr, mask, addr, mask | bits) == 0
  {
  }

  /** The conflict word does not depend on the order of the two ranges. */
  lemma ConflictSymmetric(addr0: bv64, mask0: bv64, addr1: bv64, mask1: bv64)
    ensures ConflictWord(addr0, mask0, addr1, mask1) == ConflictWord(addr1, mask1, addr0, mask0)
  {
  }

  /** A range has no conflict with itself. */
  lemma ConflictSelf(addr: bv64, mask: bv64)
    ensures ConflictWord(addr, mask, addr, mask) == 0
  {
  }

  /** Two concrete words conflict unless they are equal. */
  lemma ConflictConcrete(addr0: bv64, addr1: bv64)
    ensures ConflictWord(addr0, 0, addr1, 0) == 0 <==> addr0 == addr1
  {
  }

  /** A word that is wild everywhere conflicts with nothing. */
  lemma ConflictAllWild(addr0: bv64, addr1: bv64, mask1: bv64)
    ensures ConflictWord(addr0, 0xFFFF_FFFF_FFFF_FFFF, addr1, mask1) == 0
  {
  }

  /** More wildcard bits on one side keep a conflict-free pair conflict-free. */
  lemma ConflictWider(addr0: bv64, mask0: bv64, addr1: bv64, mask1: bv64, same: bv64, wider: bv64)
    requires ConflictWord(addr0, mask0, addr1, mask1) == 0 && same == addr0 && wider & mask0 == mask0
    ensures ConflictWord(same, wider, addr1, mask1) == 0
  {
  }
}
