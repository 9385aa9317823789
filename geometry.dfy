/** Shape of one DRAM device (rank|bank|row|col|bit) and the power-of-two helpers the
    address layout needs. */
module Geometry {

  /** 2^k as a natural number. */
  function Pow2(k: nat): (r: nat)
    ensures r >= 1
  {
    if k == 0 then 1 else 2 * Pow2(k - 1)
  }

  /** Integer part of log2(n), which is what storing the C library's `log2` of a
      device size in an unsigned field yields. */
  function Log2(n: nat): (k: nat)
    requires n >= 1
    ensures Pow2(k) <= n < 2 * Pow2(k)
  {
    if n == 1 then 0 else 1 + Log2(n / 2)
  }

  const MaxDeviceSize: nat := 0x1_0000_0000

  /** 2^64: one more than the largest `uint64_t`. */
  const Word: nat := 0x1_0000_0000_0000_0000

  /** The values of a `uint64_t`. */
  type u64 = x: nat | x < Word

  /** Geometry of one device; the log fields are derived from the sizes. */
  datatype Geometry = Geometry(bitwidth: nat, ranks: nat, banks: nat, rows: nat, cols: nat)
  {
    /** Every size is a positive 32-bit value. */
    predicate Valid()
    {
      && 1 <= bitwidth < MaxDeviceSize
      && 1 <= ranks < MaxDeviceSize
      && 1 <= banks < MaxDeviceSize
      && 1 <= rows < MaxDeviceSize
      && 1 <= cols < MaxDeviceSize
    }

    function LogBits(): nat requires Valid() { Log2(bitwidth) }
    function LogRanks(): nat requires Valid() { Log2(ranks) }
    function LogBanks(): nat requires Valid() { Log2(banks) }
    function LogRows(): nat requires Valid() { Log2(rows) }
    function LogCols(): nat requires Valid() { Log2(cols) }

    /** Number of address bits below the bank field (row, col and bit). */
    function BankShift(): nat requires Valid() { LogRows() + LogCols() + LogBits() }

    /** Total width of the rank|bank|row|col|bit address. */
    function AddressBits(): nat requires Valid()
    {
      LogRanks() + LogBanks() + LogRows() + LogCols() + LogBits()
    }

    /** The whole address fits into one 64-bit word. */
    predicate Fits64() { Valid() && AddressBits() <= 64 }

    /** Every size is exactly a power of two. */
    predicate PowerOfTwo()
    {
      && Valid()
      && bitwidth == Pow2(LogBits())
      && ranks == Pow2(LogRanks())
      && banks == Pow2(LogBanks())
      && rows == Pow2(LogRows())
      && cols == Pow2(LogCols())
    }
  }

  /** Log2 of a power of two is its exponent. */
  lemma {:induction false} Log2OfPow2(k: nat)
    ensures Log2(Pow2(k)) == k
  {
    if k > 0 {
      Log2OfPow2(k - 1);
      assert Pow2(k) / 2 == Pow2(k - 1);
    }
  }

  lemma {:induction false} Pow2Add(a: nat, b: nat)
    ensures Pow2(a + b) == Pow2(a) * Pow2(b)
  {
    if a > 0 {
      Pow2Add(a - 1, b);
    }
  }

  lemma {:induction false} Pow2Monotone(a: nat, b: nat)
    requires a <= b
    ensures Pow2(a) <= Pow2(b)
  {
    if a < b {
      Pow2Monotone(a, b - 1);
    }
  }

  lemma Pow2Of8()
    ensures Pow2(8) == 0x100
  {
  }

  lemma Pow2Of32()
    ensures Pow2(32) == MaxDeviceSize
  {
    Pow2Of8();
    Pow2Add(8, 8);
    Pow2Add(16, 16);
  }

  lemma Pow2Of64()
    ensures Pow2(64) == Word
  {
    Pow2Of32();
    Pow2Add(32, 32);
  }

  /** A value below 2^w has fewer than w significant bits. */
  lemma Log2Below(n: nat, w: nat)
    requires 1 <= n < Pow2(w)
    ensures Log2(n) < w
  {
    if Log2(n) >= w {
      Pow2Monotone(w, Log2(n));
      assert false;
    }
  }

  /** Every field of a valid geometry is at most 31 bits wide. */
  lemma LogsBelow32(g: Geometry)
    requires g.Valid()
    ensures g.LogBits() < 32 && g.LogRanks() < 32 && g.LogBanks() < 32
    ensures g.LogRows() < 32 && g.LogCols() < 32
  {
    Pow2Of32();
    Log2Below(g.bitwidth, 32);
    Log2Below(g.ranks, 32);
    Log2Below(g.banks, 32);
    Log2Below(g.rows, 32);
    Log2Below(g.cols, 32);
  }
}
