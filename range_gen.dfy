/** How a device builds the address, wildcard mask and bit count of a new fault range from a
    fault class and the random draws (DRAMDomain.cpp, genRandomRange and generateRanges). */
module RangeGen {
  import opened Geometry
  import opened Layout
  import opened Options
  import opened FaultRanges

  /** For each address field, true when the fault fixes it to one drawn value, false when
      the fault covers every value of the field. */
  datatype Pattern = Pattern(rank: bool, bank: bool, row: bool, col: bool, bit: bool)

  /** Number of fault classes: 1BIT, 1WORD, 1COL, 1ROW, 1BANK, NBANK, NRANK. */
  const DramMax: nat := 7

  /** The fixed/wild pattern of each fault class. */
  function ClassPattern(faultClass: nat): Pattern
    requires faultClass < DramMax
  {
    if faultClass == 0 then Pattern(true, true, true, true, true)          // 1BIT
    else if faultClass == 1 then Pattern(true, true, true, true, false)    // 1WORD
    else if faultClass == 2 then Pattern(true, true, false, true, false)   // 1COL
    else if faultClass == 3 then Pattern(true, true, true, false, false)   // 1ROW
    else if faultClass == 4 then Pattern(true, true, false, false, false)  // 1BANK
    else if faultClass == 5 then Pattern(true, false, false, false, false) // NBANK
    else Pattern(false, false, false, false, false)                        // NRANK
  }

  /** The pattern of a through-silicon-via fault: rank, bank and row wild; column and bit
      are replaced by one given position in the row. */
  const TsvPattern: Pattern := Pattern(false, false, false, true, true)

  /** Address bits a field contributes: the draw reduced modulo the field size when fixed. */
  function Draw(fixed: bool, draw: nat, size: nat): nat
    requires size >= 1
  {
    if fixed then draw % size else 0
  }

  /** Mask bits a field contributes: `size - 1` when the field is wild. */
  function Wild(fixed: bool, size: nat): nat
    requires size >= 1
  {
    if fixed then 0 else size - 1
  }

  /** `max_faults *= size` on a `uint64_t` when the field is wild. */
  function Scale(maxFaults: u64, fixed: bool, size: nat): u64
  {
    if fixed then maxFaults else (maxFaults * size) % Word
  }

  /** Number of values a field covers. */
  function Count(fixed: bool, size: nat): nat
  {
    if fixed then 1 else size
  }

  /** The draws of the address fields, as 32-bit random integers. */
  predicate DrawsValid(d: Fields)
  {
    d.rank < MaxDeviceSize && d.bank < MaxDeviceSize && d.row < MaxDeviceSize
    && d.col < MaxDeviceSize && d.bit < MaxDeviceSize
  }

  /** The address after the rank, bank and row fields. */
  function UpperAddr(g: Geometry, p: Pattern, d: Fields): u64
    requires g.Valid()
  {
    var a := Draw(p.rank, d.rank, g.ranks);
    StepsAreWords(g);
    Step(Step(a, g.LogBanks(), Draw(p.bank, d.bank, g.banks)),
      g.LogRows(), Draw(p.row, d.row, g.rows))
  }

  /** The mask after the rank, bank and row fields. */
  function UpperMask(g: Geometry, p: Pattern): u64
    requires g.Valid()
  {
    var m := Wild(p.rank, g.ranks);
    StepsAreWords(g);
    Step(Step(m, g.LogBanks(), Wild(p.bank, g.banks)), g.LogRows(), Wild(p.row, g.rows))
  }

  /** Every intermediate value of the layout stays a 64-bit word. */
  lemma StepsAreWords(g: Geometry)
    requires g.Valid()
    ensures forall acc: nat, w: nat, v: nat {:trigger Step(acc, w, v)} ::
      v < MaxDeviceSize ==> Step(acc, w, v) < Word
  {
    forall acc: nat, w: nat, v: nat | v < MaxDeviceSize
      ensures Step(acc, w, v) < Word
    {
      StepIsWord(acc, w, v);
    }
  }

  /** `fAddr` as genRandomRange builds it; `rowbit` is the position given for a TSV fault. */
  function GenAddr(g: Geometry, p: Pattern, d: Fields, rowbit: Option<u64>): u64
    requires g.Valid()
  {
    var a := UpperAddr(g, p, d);
    match rowbit
    case None =>
      StepsAreWords(g);
      Step(Step(a, g.LogCols(), Draw(p.col, d.col, g.cols)), g.LogBits(), Draw(p.bit, d.bit, g.bitwidth))
    case Some(rb) =>
      StepIsWord(a, g.LogCols() + g.LogBits(), rb);
      Step(a, g.LogCols() + g.LogBits(), rb)
  }

  /** `fWildMask` as genRandomRange builds it. */
  function GenMask(g: Geometry, p: Pattern, rowbit: Option<u64>): u64
    requires g.Valid()
  {
    var m := UpperMask(g, p);
    match rowbit
    case None =>
      StepsAreWords(g);
      Step(Step(m, g.LogCols(), Wild(p.col, g.cols)), g.LogBits(), Wild(p.bit, g.bitwidth))
    case Some(_) => ShiftLeft(m, g.LogCols() + g.LogBits())
  }

  /** `max_faults` as genRandomRange builds it. */
  function GenMaxFaults(g: Geometry, p: Pattern, rowbit: Option<u64>): u64
  {
    var m := Scale(Scale(Scale(1, p.rank, g.ranks), p.bank, g.banks), p.row, g.rows);
    if rowbit.Some? then m else Scale(Scale(m, p.col, g.cols), p.bit, g.bitwidth)
  }

  /** The whole range genRandomRange returns. */
  function GenRange(g: Geometry, p: Pattern, transient: bool, rowbit: Option<u64>, tsv: bool, d: Fields): FaultRange
    requires g.Valid()
  {
    NewRange().(fAddr := GenAddr(g, p, d, rowbit), fWildMask := GenMask(g, p, rowbit),
      transient := transient, tsv := tsv, maxFaults := GenMaxFaults(g, p, rowbit))
  }

  /** The address fields a range denotes. */
  function AddrFields(g: Geometry, p: Pattern, d: Fields): Fields
    requires g.Valid()
  {
    Fields(Draw(p.rank, d.rank, g.ranks), Draw(p.bank, d.bank, g.banks), Draw(p.row, d.row, g.rows),
      Draw(p.col, d.col, g.cols), Draw(p.bit, d.bit, g.bitwidth))
  }

  /** The mask fields a range denotes. */
  function MaskFields(g: Geometry, p: Pattern): Fields
    requires g.Valid()
  {
    Fields(Wild(p.rank, g.ranks), Wild(p.bank, g.banks), Wild(p.row, g.rows),
      Wild(p.col, g.cols), Wild(p.bit, g.bitwidth))
  }

  // ---------------------------------------------------------------- properties

  /** The five layout steps over fields that fit their widths build the packed address. */
  lemma LayoutExact(g: Geometry, f: Fields)
    requires g.Fits64() && FitsWidths(g, f)
    ensures Step(Step(Step(Step(f.rank, g.LogBanks(), f.bank), g.LogRows(), f.row),
      g.LogCols(), f.col), g.LogBits(), f.bit) == Pack(g, f)
  {
    var r, b, w, c := g.LogRanks(), g.LogBanks(), g.LogRows(), g.LogCols();
    StepExact(f.rank, r, b, f.bank);
    var a2 := Append(f.rank, b, f.bank);
    StepExact(a2, r + b, w, f.row);
    var a3 := Append(a2, w, f.row);
    StepExact(a3, r + b + w, c, f.col);
    var a4 := Append(a3, c, f.col);
    StepExact(a4, r + b + w + c, g.LogBits(), f.bit);
  }

  /** A drawn or wild field value is below its field size. */
  lemma FieldsFit(g: Geometry, p: Pattern, d: Fields)
    requires g.PowerOfTwo()
    ensures FitsWidths(g, AddrFields(g, p, d)) && FitsWidths(g, MaskFields(g, p))
  {
  }

  /** With power-of-two sizes and an address that fits 64 bits, a non-TSV range lays out
      rank|bank|row|col|bit from the most significant end: reading the fields back gives, per
      field, the draw modulo the size and a zero mask when the field is fixed, and a zero
      address with an all-ones mask of the field's width when it is wild. */
  lemma GenLayout(g: Geometry, p: Pattern, d: Fields)
    requires g.PowerOfTwo() && g.Fits64()
    ensures Unpack(g, GenAddr(g, p, d, None)) == AddrFields(g, p, d)
    ensures Unpack(g, GenMask(g, p, None)) == MaskFields(g, p)
    ensures GenAddr(g, p, d, None) < Pow2(g.AddressBits())
    ensures GenMask(g, p, None) < Pow2(g.AddressBits())
    ensures var m := MaskFields(g, p);
      && m.rank == (if p.rank then 0 else Pow2(g.LogRanks()) - 1)
      && m.bank == (if p.bank then 0 else Pow2(g.LogBanks()) - 1)
      && m.row == (if p.row then 0 else Pow2(g.LogRows()) - 1)
      && m.col == (if p.col then 0 else Pow2(g.LogCols()) - 1)
      && m.bit == (if p.bit then 0 else Pow2(g.LogBits()) - 1)
  {
    FieldsFit(g, p, d);
    var a, m := AddrFields(g, p, d), MaskFields(g, p);
    LayoutExact(g, a);
    LayoutExact(g, m);
    UnpackPack(g, a);
    UnpackPack(g, m);
    PackBound(g, a);
    PackBound(g, m);
  }

  /** For a TSV fault the column and bit fields are one field holding the given position:
      the low `logCols + logBits` address bits are that position and the mask is zero there. */
  lemma GenTsvLowBits(g: Geometry, p: Pattern, d: Fields, rowbit: u64)
    requires g.Valid()
    requires rowbit < Pow2(g.LogCols() + g.LogBits())
    ensures Low(GenAddr(g, p, d, Some(rowbit)), g.LogCols() + g.LogBits()) == rowbit
    ensures Low(GenMask(g, p, Some(rowbit)), g.LogCols() + g.LogBits()) == 0
  {
    var w := g.LogCols() + g.LogBits();
    LogsBelow32(g);
    Pow2Monotone(w, 64);
    Pow2Of64();
    StepLowBits(UpperAddr(g, p, d), w, rowbit);
    ShiftLeftAligned(UpperMask(g, p), w);
  }

  /** Number of bits a range covers: the product of the sizes of its wild fields (the
      column and bit fields do not count for a TSV range). */
  function Coverage(g: Geometry, p: Pattern, rowbit: Option<u64>): nat
  {
    var upper := Count(p.rank, g.ranks) * Count(p.bank, g.banks) * Count(p.row, g.rows);
    if rowbit.Some? then upper else upper * Count(p.col, g.cols) * Count(p.bit, g.bitwidth)
  }

  /** Number of bits the whole device holds. */
  function DeviceBits(g: Geometry): nat
  {
    g.ranks * g.banks * g.rows * g.cols * g.bitwidth
  }

  lemma ScaleExact(m: u64, fixed: bool, size: nat)
    requires m * Count(fixed, size) < Word
    ensures Scale(m, fixed, size) == m * Count(fixed, size)
  {
  }

  lemma MulLe(a: nat, b: nat, c: nat, d: nat)
    requires a <= b && c <= d
    ensures a * c <= b * d
  {
    MulMonotone(a, b, c);
    MulMonotone(c, d, b);
  }

  /** `max_faults` is the number of bits the range covers, whenever that number fits 64 bits. */
  lemma GenMaxFaultsExact(g: Geometry, p: Pattern, rowbit: Option<u64>)
    requires g.Valid()
    requires Coverage(g, p, rowbit) < Word
    ensures GenMaxFaults(g, p, rowbit) == Coverage(g, p, rowbit)
  {
    var c1, c2, c3 := Count(p.rank, g.ranks), Count(p.bank, g.banks), Count(p.row, g.rows);
    var p3 := c1 * c2 * c3;
    UpperBound(c1, c2, c3, p3);
    var m3 := Scale(Scale(Scale(1, p.rank, g.ranks), p.bank, g.banks), p.row, g.rows);
    if rowbit.None? {
      LowerExact(g, p, p3);
      UpperExact(g, p, p3);
    } else {
      UpperExact(g, p, p3);
    }
  }

  lemma LowerExact(g: Geometry, p: Pattern, p3: nat)
    requires g.Valid()
    requires p3 * Count(p.col, g.cols) * Count(p.bit, g.bitwidth) < Word
    ensures p3 < Word
    ensures Scale(Scale(p3, p.col, g.cols), p.bit, g.bitwidth)
      == p3 * Count(p.col, g.cols) * Count(p.bit, g.bitwidth)
  {
    var c4, c5 := Count(p.col, g.cols), Count(p.bit, g.bitwidth);
    MulAtLeast(c5, p3 * c4);
    MulAtLeast(c4, p3);
    ScaleExact(p3, p.col, g.cols);
    ScaleExact(p3 * c4, p.bit, g.bitwidth);
  }

  lemma UpperBound(c1: nat, c2: nat, c3: nat, p3: nat)
    requires c1 >= 1 && c2 >= 1 && c3 >= 1 && p3 == c1 * c2 * c3
    ensures c1 <= c1 * c2 <= p3
  {
    MulAtLeast(c3, c1 * c2);
    MulAtLeast(c2, c1);
  }

  lemma UpperExact(g: Geometry, p: Pattern, p3: nat)
    requires g.Valid()
    requires p3 == Count(p.rank, g.ranks) * Count(p.bank, g.banks) * Count(p.row, g.rows) < Word
    ensures Scale(Scale(Scale(1, p.rank, g.ranks), p.bank, g.banks), p.row, g.rows) == p3
  {
    var c1, c2, c3 := Count(p.rank, g.ranks), Count(p.bank, g.banks), Count(p.row, g.rows);
    UpperBound(c1, c2, c3, p3);
    ScaleExact(1, p.rank, g.ranks);
    ScaleExact(c1, p.bank, g.banks);
    ScaleExact(c1 * c2, p.row, g.rows);
  }

  /** A range never covers more bits than its device holds. */
  lemma CoverageAtMostDevice(g: Geometry, p: Pattern)
    requires g.Valid()
    ensures Coverage(g, p, None) <= DeviceBits(g)
  {
    var c1, c2, c3 := Count(p.rank, g.ranks), Count(p.bank, g.banks), Count(p.row, g.rows);
    var c4, c5 := Count(p.col, g.cols), Count(p.bit, g.bitwidth);
    MulLe(c1, g.ranks, c2, g.banks);
    MulLe(c1 * c2, g.ranks * g.banks, c3, g.rows);
    MulLe(c1 * c2 * c3, g.ranks * g.banks * g.rows, c4, g.cols);
    MulLe(c1 * c2 * c3 * c4, g.ranks * g.banks * g.rows * g.cols, c5, g.bitwidth);
  }

  /** The number of bits each fault class covers, for a device whose size fits 64 bits:
      one bit, one word, one column (a bit of every row), one row (every column), one bank,
      every bank of a rank, the whole device. */
  lemma ClassMaxFaults(g: Geometry, faultClass: nat)
    requires g.Valid() && faultClass < DramMax && DeviceBits(g) < Word
    ensures var m := GenMaxFaults(g, ClassPattern(faultClass), None);
      && (faultClass == 0 ==> m == 1)
      && (faultClass == 1 ==> m == g.bitwidth)
      && (faultClass == 2 ==> m == g.rows * g.bitwidth)
      && (faultClass == 3 ==> m == g.cols * g.bitwidth)
      && (faultClass == 4 ==> m == g.rows * g.cols * g.bitwidth)
      && (faultClass == 5 ==> m == g.banks * g.rows * g.cols * g.bitwidth)
      && (faultClass == 6 ==> m == DeviceBits(g))
  {
    CoverageAtMostDevice(g, ClassPattern(faultClass));
    GenMaxFaultsExact(g, ClassPattern(faultClass), None);
  }
}
