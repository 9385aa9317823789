/** Arithmetic on the natural-number values of `uint64_t` words: the shifts, ORs and ANDs with
    which a device lays out and reads back its rank|bank|row|col|bit address fields. */
module Layout {
  import opened Geometry

  /** Bitwise OR of two naturals, taken from the lowest bit upward. */
  function BitOr(a: nat, b: nat): nat
    decreases a + b
  {
    if a == 0 then b
    else if b == 0 then a
    else 2 * BitOr(a / 2, b / 2) + (if a % 2 == 1 || b % 2 == 1 then 1 else 0)
  }

  /** Bitwise AND of two naturals, taken from the lowest bit upward. */
  function BitAnd(a: nat, b: nat): nat
    decreases a + b
  {
    if a == 0 || b == 0 then 0
    else 2 * BitAnd(a / 2, b / 2) + (if a % 2 == 1 && b % 2 == 1 then 1 else 0)
  }

  /** `x <<= k` on a `uint64_t`: bits pushed past bit 63 are lost. */
  function ShiftLeft(x: nat, k: nat): u64
  {
    Append(x, k, 0) % Word
  }

  /** One layout step of the device: shift the word left by `w` and OR `v` into the freed bits. */
  function Step(acc: nat, w: nat, v: nat): nat
  {
    BitOr(ShiftLeft(acc, w), v)
  }

  /** The five address fields of a device, most significant first. */
  datatype Fields = Fields(rank: nat, bank: nat, row: nat, col: nat, bit: nat)

  /** Every field fits into its width in the geometry `g`. */
  predicate FitsWidths(g: Geometry, f: Fields)
    requires g.Valid()
  {
    && f.rank < Pow2(g.LogRanks())
    && f.bank < Pow2(g.LogBanks())
    && f.row < Pow2(g.LogRows())
    && f.col < Pow2(g.LogCols())
    && f.bit < Pow2(g.LogBits())
  }

  /** `acc` shifted up by `w` bits with `v` in the freed bits. */
  function Append(acc: nat, w: nat, v: nat): nat
  {
    acc * Pow2(w) + v
  }

  /** The lowest `w` bits of `x`. */
  function Low(x: nat, w: nat): nat
  {
    x % Pow2(w)
  }

  /** `x` without its lowest `w` bits. */
  function High(x: nat, w: nat): nat
  {
    QuotientNat(x, Pow2(w));
    x / Pow2(w)
  }

  lemma QuotientNat(x: nat, p: nat)
    requires p >= 1
    ensures x / p >= 0
  {
  }

  /** The address the fields denote when laid out rank|bank|row|col|bit, rank on top. */
  function Pack(g: Geometry, f: Fields): nat
    requires g.Valid()
  {
    Append(Append(Append(Append(f.rank, g.LogBanks(), f.bank), g.LogRows(), f.row),
      g.LogCols(), f.col), g.LogBits(), f.bit)
  }

  /** The fields read back from the lowest bit upward: bit, col, row, bank, rank. */
  function Unpack(g: Geometry, x: nat): Fields
    requires g.Valid()
  {
    var x1 := High(x, g.LogBits());
    var x2 := High(x1, g.LogCols());
    var x3 := High(x2, g.LogRows());
    var x4 := High(x3, g.LogBanks());
    Fields(Low(x4, g.LogRanks()), Low(x3, g.LogBanks()), Low(x2, g.LogRows()),
      Low(x1, g.LogCols()), Low(x, g.LogBits()))
  }

  // ---------------------------------------------------------------- division facts

  /** Division by `p` undoes `a * p + v` for a remainder `v` below `p`. */
  lemma DivModUnique(a: nat, v: nat, p: nat)
    requires v < p
    ensures (a * p + v) / p == a
    ensures (a * p + v) % p == v
  {
    var x := a * p + v;
    var q, r := x / p, x % p;
    assert x == q * p + r;
    if q < a {
      MulAtLeast(a - q, p);
      assert false;
    } else if q > a {
      MulAtLeast(q - a, p);
      assert false;
    }
  }

  lemma MulAtLeast(k: nat, p: nat)
    requires k >= 1
    ensures k * p >= p
  {
  }

  /** Reducing a multiple of `p` modulo `p * q` keeps it a multiple of `p`. */
  lemma ModOfMultiple(a: nat, p: nat, q: nat)
    requires p >= 1 && q >= 1
    ensures (a * p) % (p * q) == p * (a % q)
  {
    var d, m := a / q, a % q;
    assert a * p == d * (p * q) + p * m by {
      assert a == d * q + m;
    }
    assert p * m < p * q by {
      MulStrict(m, q, p);
    }
    DivModUnique(d, p * m, p * q);
  }

  lemma MulStrict(m: nat, q: nat, p: nat)
    requires m < q && p >= 1
    ensures p * m < p * q
  {
  }

  /** (x / 2) modulo p, doubled and with x's low bit back, is x modulo 2p. */
  lemma ModDouble(x: nat, p: nat)
    requires p >= 1
    ensures x % (2 * p) == 2 * ((x / 2) % p) + x % 2
  {
    var h := x / 2;
    var q, r := h / p, h % p;
    assert x == q * (2 * p) + (2 * r + x % 2) by {
      assert h == q * p + r;
    }
    DivModUnique(q, 2 * r + x % 2, 2 * p);
  }

  // ---------------------------------------------------------------- OR, AND and shifts

  /** A left shift by `k` leaves the lowest `k` bits clear, even when high bits are lost. */
  lemma ShiftLeftAligned(x: nat, k: nat)
    requires k <= 64
    ensures Low(ShiftLeft(x, k), k) == 0
  {
    Pow2Of64();
    Pow2Add(k, 64 - k);
    ModOfMultiple(x, Pow2(k), Pow2(64 - k));
    AppendSplit(x % Pow2(64 - k), k, 0);
  }

  /** ORing a value into the zero bits below `w` is appending it. */
  lemma {:induction false} BitOrAppend(a: nat, w: nat, v: nat)
    requires v < Pow2(w)
    ensures BitOr(Append(a, w, 0), v) == Append(a, w, v)
  {
    if w > 0 && a > 0 && v > 0 {
      var x := Append(a, w, 0);
      assert x == 2 * Append(a, w - 1, 0);
      assert x % 2 == 0 && x / 2 == Append(a, w - 1, 0);
      MulAtLeast(a, Pow2(w));
      BitOrAppend(a, w - 1, v / 2);
    }
  }

  /** A word whose lowest `w` bits are clear is its high part shifted back up. */
  lemma LowZero(x: nat, w: nat)
    requires Low(x, w) == 0
    ensures x == Append(High(x, w), w, 0)
  {
  }

  /** OR never sets a bit at or above the width of both operands. */
  lemma {:induction false} BitOrBound(a: nat, b: nat, n: nat)
    requires a < Pow2(n) && b < Pow2(n)
    ensures BitOr(a, b) < Pow2(n)
  {
    if a != 0 && b != 0 {
      BitOrBound(a / 2, b / 2, n - 1);
    }
  }

  lemma BitOrZero(a: nat)
    ensures BitOr(a, 0) == a
  {
  }

  /** ANDing with 2^k - 1 keeps the lowest k bits. */
  lemma {:induction false} BitAndLowMask(x: nat, k: nat)
    ensures BitAnd(x, Pow2(k) - 1) == Low(x, k)
  {
    if k > 0 && x > 0 {
      var m := Pow2(k) - 1;
      LowMaskHalf(k);
      BitAndOdd(x, m);
      BitAndLowMask(x / 2, k - 1);
      LowHalf(x, k);
    }
  }

  /** One step of AND with an odd mask keeps the lowest bit of `x`. */
  lemma BitAndOdd(x: nat, m: nat)
    requires x > 0 && m % 2 == 1
    ensures BitAnd(x, m) == 2 * BitAnd(x / 2, m / 2) + x % 2
  {
  }

  /** `2^k - 1` is odd and its half is `2^(k-1) - 1`. */
  lemma LowMaskHalf(k: nat)
    requires k > 0
    ensures (Pow2(k) - 1) / 2 == Pow2(k - 1) - 1 && (Pow2(k) - 1) % 2 == 1
  {
  }

  /** The lowest k bits are the lowest k - 1 bits of the half, doubled, plus the lowest bit. */
  lemma LowHalf(x: nat, k: nat)
    requires k >= 1
    ensures Low(x, k) == 2 * Low(x / 2, k - 1) + x % 2
  {
    ModDouble(x, Pow2(k - 1));
  }

  /** AND never exceeds its second operand. */
  lemma {:induction false} BitAndAtMost(a: nat, b: nat)
    ensures BitAnd(a, b) <= b
  {
    if a != 0 && b != 0 {
      BitAndAtMost(a / 2, b / 2);
    }
  }

  /** A left shift that keeps every bit is an append of zero bits. */
  lemma ShiftLeftExact(x: nat, k: nat, n: nat)
    requires x < Pow2(n) && n + k <= 64
    ensures ShiftLeft(x, k) == Append(x, k, 0) < Pow2(n + k)
  {
    AppendBound(x, n, k, 0);
    Pow2Monotone(n + k, 64);
    Pow2Of64();
    DivModUnique(0, Append(x, k, 0), Word);
  }

  /** A layout step on fields that fit their widths is exact: the word grows by `w` bits. */
  lemma StepExact(acc: nat, n: nat, w: nat, v: nat)
    requires acc < Pow2(n) && v < Pow2(w) && n + w <= 64
    ensures Step(acc, w, v) == Append(acc, w, v) < Pow2(n + w)
  {
    ShiftLeftExact(acc, w, n);
    BitOrAppend(acc, w, v);
    AppendBound(acc, n, w, v);
  }

  lemma MulMonotone(a: nat, b: nat, p: nat)
    requires a <= b
    ensures a * p <= b * p
  {
  }

  /** The last step of a layout leaves the ORed value in the lowest `w` bits, whatever came before. */
  lemma StepLowBits(acc: nat, w: nat, v: nat)
    requires v < Pow2(w) && w <= 64
    ensures Low(Step(acc, w, v), w) == v
  {
    var s := ShiftLeft(acc, w);
    ShiftLeftAligned(acc, w);
    LowZero(s, w);
    BitOrAppend(High(s, w), w, v);
    AppendSplit(High(s, w), w, v);
  }

  /** Every step result stays a 64-bit word when the ORed value does. */
  lemma StepIsWord(acc: nat, w: nat, v: nat)
    requires v < Word
    ensures Step(acc, w, v) < Word
  {
    Pow2Of64();
    BitOrBound(ShiftLeft(acc, w), v, 64);
  }

  // ---------------------------------------------------------------- field round trip

  /** Splitting off the lowest `w` bits undoes an append. */
  lemma AppendSplit(acc: nat, w: nat, v: nat)
    requires v < Pow2(w)
    ensures High(Append(acc, w, v), w) == acc
    ensures Low(Append(acc, w, v), w) == v
  {
    DivModUnique(acc, v, Pow2(w));
  }

  /** Appending `q` bits and then `p` bits is appending `q + p` bits at once. */
  lemma AppendAppend(c: nat, q: nat, v: nat, p: nat, r: nat)
    ensures Append(Append(c, q, v), p, r) == Append(c, q + p, Append(v, p, r))
  {
    Pow2Add(q, p);
    calc {
      Append(Append(c, q, v), p, r);
      (c * Pow2(q) + v) * Pow2(p) + r;
      c * (Pow2(q) * Pow2(p)) + (v * Pow2(p) + r);
      Append(c, q + p, Append(v, p, r));
    }
  }

  /** Shifting right by `p` and then by `q` is shifting right by `p + q`. */
  lemma HighHigh(x: nat, p: nat, q: nat)
    ensures High(High(x, p), q) == High(x, p + q)
  {
    var a, r := High(x, p), Low(x, p);
    var c, v := High(a, q), Low(a, q);
    Split(x, p);
    Split(a, q);
    AppendAppend(c, q, v, p, r);
    AppendBound(v, q, p, r);
    AppendSplit(c, q + p, Append(v, p, r));
  }

  /** A word is its high part shifted back up with its low part in the freed bits. */
  lemma Split(x: nat, w: nat)
    ensures x == Append(High(x, w), w, Low(x, w)) && Low(x, w) < Pow2(w)
  {
  }

  /** An `n + k`-bit value shifted right by `k` has at most `n` bits. */
  lemma HighBound(x: nat, k: nat, n: nat)
    requires x < Pow2(n + k)
    ensures High(x, k) < Pow2(n)
  {
    Pow2Add(n, k);
    if High(x, k) >= Pow2(n) {
      MulMonotone(Pow2(n), High(x, k), Pow2(k));
      assert false;
    }
  }

  /** Appending `w` bits to an `n`-bit value gives an `n + w`-bit value. */
  lemma AppendBound(acc: nat, n: nat, w: nat, v: nat)
    requires acc < Pow2(n) && v < Pow2(w)
    ensures Append(acc, w, v) < Pow2(n + w)
  {
    Pow2Add(n, w);
    MulMonotone(acc + 1, Pow2(n), Pow2(w));
  }

  /** Reading the fields back from their packed address yields them again. */
  lemma UnpackPack(g: Geometry, f: Fields)
    requires g.Valid() && FitsWidths(g, f)
    ensures Unpack(g, Pack(g, f)) == f
  {
    var x3 := Append(f.rank, g.LogBanks(), f.bank);
    var x2 := Append(x3, g.LogRows(), f.row);
    var x1 := Append(x2, g.LogCols(), f.col);
    AppendSplit(x1, g.LogBits(), f.bit);
    AppendSplit(x2, g.LogCols(), f.col);
    AppendSplit(x3, g.LogRows(), f.row);
    AppendSplit(f.rank, g.LogBanks(), f.bank);
    DivModUnique(0, f.rank, Pow2(g.LogRanks()));
  }

  /** The packed address fits into the device's address width. */
  lemma PackBound(g: Geometry, f: Fields)
    requires g.Valid() && FitsWidths(g, f)
    ensures Pack(g, f) < Pow2(g.AddressBits())
  {
    var x3 := Append(f.rank, g.LogBanks(), f.bank);
    var x2 := Append(x3, g.LogRows(), f.row);
    var x1 := Append(x2, g.LogCols(), f.col);
    AppendBound(f.rank, g.LogRanks(), g.LogBanks(), f.bank);
    AppendBound(x3, g.LogRanks() + g.LogBanks(), g.LogRows(), f.row);
    AppendBound(x2, g.LogRanks() + g.LogBanks() + g.LogRows(), g.LogCols(), f.col);
    AppendBound(x1, g.LogRanks() + g.LogBanks() + g.LogRows() + g.LogCols(), g.LogBits(), f.bit);
  }
}
