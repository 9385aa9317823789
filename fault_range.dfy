/** A faulty region of one device: a 64-bit address plus a wildcard mask whose set bits
    stand for "any value" (FaultRange.cpp). */
module FaultRanges {
  import opened Geometry
  import opened Words
  import opened Layout

  datatype FaultRange = FaultRange(
    fAddr: u64,              // address of the faulty region
    fWildMask: u64,          // bit positions that take every value
    transient: bool,
    tsv: bool,               // caused by a through-silicon-via fault
    touched: nat,
    transientRemove: bool,   // scrubbing may erase this range if it is transient
    maxFaults: nat,          // number of concrete bits the range covers
    timestamp: nat)          // event time in seconds (event-driven engine)

  /** A freshly constructed range. */
  function NewRange(): (r: FaultRange)
    ensures !r.transient && !r.tsv && r.fAddr == 0 && r.fWildMask == 0
    ensures r.touched == 0 && r.transientRemove && r.maxFaults == 0 && r.timestamp == 0
  {
    FaultRange(0, 0, false, false, 0, true, 0, 0)
  }

  /** The address and the mask as 64-bit words. */
  function Addr(r: FaultRange): bv64 { r.fAddr as bv64 }
  /** The value of a 64-bit word. */
  function WordValue(b: bv64): u64
  {
    var n: nat := b as nat;
    WordBound(b);
    n
  }
  function Mask(r: FaultRange): bv64 { r.fWildMask as bv64 }

  function Conflicts(a: FaultRange, b: FaultRange): bv64
  {
    ConflictWord(Addr(a), Mask(a), Addr(b), Mask(b))
  }

  /** The word formula used by the simulator to test two ranges for intersection:
      the ranges share an address iff no bit is concrete on both sides with different values. */
  function Intersects(a: FaultRange, b: FaultRange): (r: bool)
    ensures r <==> Conflicts(a, b) == 0
  {
    WordsIntersectIff(Addr(a), Mask(a), Addr(b), Mask(b));
    WordsIntersect(Addr(a), Mask(a), Addr(b), Mask(b))
  }

  /** The per-bit reference loop: walk the 64 positions from the least significant one
      and stop at the first position that is concrete on both sides and differs. It
      agrees with the word formula on every pair of ranges. */
  method IntersectsSlow(a: FaultRange, b: FaultRange) returns (r: bool)
    ensures r == Intersects(a, b)
  {
    var addr0, mask0, addr1, mask1 := Addr(a), Mask(a), Addr(b), Mask(b);
    ghost var c := Conflicts(a, b);
    var pos := 0;
    while pos < 64
      invariant pos <= 64
      invariant c == ConflictWord(addr0, mask0, addr1, mask1)
      invariant ClearBits(Conflicts(a, b), 64) == ClearBits(c, 64 - pos)
    {
      ConflictLowBit(addr0, mask0, addr1, mask1);
      if !((mask0 & 1 == 1) || (mask1 & 1 == 1) || (addr0 & 1 == addr1 & 1)) {
        Clear64(Conflicts(a, b));
        return false;
      }
      ConflictHalf(addr0, mask0, addr1, mask1);
      addr0, mask0, addr1, mask1 := addr0 >> 1, mask0 >> 1, addr1 >> 1, mask1 >> 1;
      c := Half(c);
      pos := pos + 1;
    }
    Clear64(Conflicts(a, b));
    return true;
  }

  /** Intersection does not depend on the order of its arguments. */
  lemma IntersectsSymmetric(a: FaultRange, b: FaultRange)
    ensures Intersects(a, b) == Intersects(b, a)
  {
    ConflictSymmetric(Addr(a), Mask(a), Addr(b), Mask(b));
  }

  /** Every range intersects itself. */
  lemma IntersectsSelf(a: FaultRange)
    ensures Intersects(a, a)
  {
    ConflictSelf(Addr(a), Mask(a));
  }

  /** Two fully concrete ranges intersect iff they are the same address. */
  lemma IntersectsConcrete(a: FaultRange, b: FaultRange)
    requires a.fWildMask == 0 && b.fWildMask == 0
    ensures Intersects(a, b) <==> Addr(a) == Addr(b)
  {
    assert Mask(a) == 0 && Mask(b) == 0;
    ConflictConcrete(Addr(a), Addr(b));
  }

  /** A range that is wild in every bit intersects everything, on either side. */
  lemma IntersectsAllWild(a: FaultRange, b: FaultRange)
    requires Mask(a) == 0xFFFF_FFFF_FFFF_FFFF
    ensures Intersects(a, b) && Intersects(b, a)
  {
    ConflictAllWild(Addr(a), Addr(b), Mask(b));
    IntersectsSymmetric(a, b);
  }

  /** The words of a range whose field was stored from a word. */
  lemma AddrOf(r: FaultRange, b: bv64)
    requires r.fAddr == WordValue(b)
    ensures Addr(r) == b
  {
    WordRoundTrip(b);
  }

  lemma MaskOf(r: FaultRange, b: bv64)
    requires r.fWildMask == WordValue(b)
    ensures Mask(r) == b
  {
    WordRoundTrip(b);
  }

  /** Ranges that agree on a field agree on its word. */
  lemma SameAddr(r: FaultRange, r': FaultRange)
    requires r'.fAddr == r.fAddr
    ensures Addr(r') == Addr(r)
  {
  }

  lemma SameMask(r: FaultRange, r': FaultRange)
    requires r'.fWildMask == r.fWildMask
    ensures Mask(r') == Mask(r)
  {
  }

  /** The range with extra wildcard bits, as the repair schemes build their query copies:
      only the mask changes, and the copy still meets the range it came from. */
  function Widen(r: FaultRange, bits: bv64): (w: FaultRange)
    ensures w.(fWildMask := r.fWildMask) == r
  {
    r.(fWildMask := WordValue(Mask(r) | bits))
  }

  /** The copy's mask is the original mask with the extra bits set. */
  lemma WidenMask(r: FaultRange, bits: bv64)
    ensures Mask(Widen(r, bits)) == Mask(r) | bits
  {
    WordRoundTrip(Mask(r) | bits);
  }

  /** Widening keeps the `transient_remove` flag as it is. */
  lemma WidenFlag(r: FaultRange, bits: bv64)
    ensures Widen(r.(transientRemove := false), bits) == Widen(r, bits).(transientRemove := false)
  {
    SameMask(r, r.(transientRemove := false));
  }

  /** The widened copy still meets the range it came from, on either side. */
  lemma WidenIntersects(r: FaultRange, bits: bv64)
    ensures Intersects(Widen(r, bits), r) && Intersects(r, Widen(r, bits))
  {
    WidenMask(r, bits);
    SameAddr(r, Widen(r, bits));
    WidenedLeft(Addr(r), Mask(r), bits);
    WidenedRight(Addr(r), Mask(r), bits);
  }

  /** Setting more wildcard bits on one side keeps an existing intersection. */
  lemma WideningKeepsIntersection(a: FaultRange, wider: FaultRange, b: FaultRange)
    requires Intersects(a, b)
    requires wider.fAddr == a.fAddr && Mask(wider) & Mask(a) == Mask(a)
    ensures Intersects(wider, b) && Intersects(b, wider)
  {
    WidenedSide(a, wider, b);
    IntersectsSymmetric(wider, b);
  }

  lemma WidenedSide(a: FaultRange, wider: FaultRange, b: FaultRange)
    requires Intersects(a, b)
    requires wider.fAddr == a.fAddr && Mask(wider) & Mask(a) == Mask(a)
    ensures Intersects(wider, b)
  {
    ConflictsWider(a, wider, b);
  }

  lemma ConflictsWider(a: FaultRange, wider: FaultRange, b: FaultRange)
    requires Conflicts(a, b) == 0
    requires wider.fAddr == a.fAddr && Mask(wider) & Mask(a) == Mask(a)
    ensures Conflicts(wider, b) == 0
  {
    SameAddr(a, wider);
    ConflictWider(Addr(a), Mask(a), Addr(b), Mask(b), Addr(wider), Mask(wider));
  }

  /** The decoding of the address and the mask into their rank, bank, row, column and bit
      fields, as the text form of a range shows them: each field is masked off with
      `(1 << width) - 1` on an `int` and the word is shifted right by its width, from the
      least significant field upward. */
  method Describe(r: FaultRange, g: Geometry) returns (addr: Fields, mask: Fields)
    requires g.Valid()
    requires g.LogBits() <= 30 && g.LogCols() <= 30 && g.LogRows() <= 30
    requires g.LogBanks() <= 30 && g.LogRanks() <= 30
    ensures addr == Unpack(g, r.fAddr) && mask == Unpack(g, r.fWildMask)
  {
    addr := DecodeWord(r.fAddr, g);
    mask := DecodeWord(r.fWildMask, g);
  }

  method DecodeWord(x: nat, g: Geometry) returns (f: Fields)
    requires g.Valid()
    ensures f == Unpack(g, x)
  {
    var w := x;
    var bit, col, row, bank, rank;
    bit, w := TakeField(w, g.LogBits());
    col, w := TakeField(w, g.LogCols());
    row, w := TakeField(w, g.LogRows());
    bank, w := TakeField(w, g.LogBanks());
    rank, w := TakeField(w, g.LogRanks());
    f := Fields(rank, bank, row, col, bit);
  }

  /** `field = w & ((1 << width) - 1); w >>= width`. */
  method TakeField(w: nat, width: nat) returns (field: nat, rest: nat)
    ensures field == Low(w, width) && rest == High(w, width)
  {
    field := BitAnd(w, Pow2(width) - 1);
    rest := High(w, width);
    BitAndLowMask(w, width);
  }
}
