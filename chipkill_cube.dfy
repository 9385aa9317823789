/** ChipKill across the dies of a memory cube, horizontal-channel variant. The organizing
    range's copy gets the wildcard mask 0x3F, and its bank field is rewritten to every bank
    number in turn; for each bank and each die a counter selects which search runs. Two of
    the counters never change (`counter1` and `bank_number1` stay 0), so of the six search
    blocks only the first two can fire: a plain first-match search while the pair counter is
    below 2, and a bank-filtered one when it is exactly 4. Every counted match bumps the
    matched range's `touched`, which this scheme never reads; flags are never cleared and the
    scan never returns early. */
module ChipKillCube {
  import opened Geometry
  import opened Layout
  import opened FaultRanges
  import opened Options
  import opened Schemes

  /** The settings the scheme keeps: its thresholds and the geometry of the group's first
      device (`logBits`, `logCols`, `logRows` and `banks`, all `uint32_t`). */
  datatype Config = Config(nCorrect: nat, nDetect: nat, logBits: nat, logCols: nat, logRows: nat, banks: nat)
  {
    /** Number of address bits below the bank field. */
    function Shift(): nat { logBits + logRows + logCols }
  }

  // ---------------------------------------------------------------- the query address

  /** One rewrite of the query address for bank `ii` (the word is shifted right past three
      bank bits, shifted back by three, `ii` added, shifted back up, and the low bits
      `(1 << shift) - 1` ORed in again), all on `uint64_t`. */
  function Relocated(shift: nat, a: u64, ii: nat): (r: u64)
    requires shift < 31
  {
    var lower := BitAnd(a, Pow2(shift) - 1);
    var banked := (ShiftLeft(High(a, 3 + shift), 3) + ii) % Word;
    BitAndAtMost(a, Pow2(shift) - 1);
    Pow2Monotone(shift, 64);
    Pow2Of64();
    BitOrBound(ShiftLeft(banked, shift), lower, 64);
    BitOr(ShiftLeft(banked, shift), lower)
  }

  /** The query address after the rewrites for banks `0 .. k - 1`: each rewrite starts from
      the previous one's result. */
  function Rewritten(shift: nat, a: u64, k: nat): u64
    requires shift < 31
  {
    if k == 0 then a else Relocated(shift, Rewritten(shift, a, k - 1), k - 1)
  }

  /** The copy searched for at bank `ii`: mask 0x3F, address rewritten up to bank `ii`. */
  function Query(c: Config, r: FaultRange, ii: nat): (q: FaultRange)
    requires c.Shift() < 31
    ensures q.fWildMask == 63 && q.(fAddr := r.fAddr, fWildMask := r.fWildMask) == r
  {
    r.(fWildMask := 63, fAddr := Rewritten(c.Shift(), r.fAddr, ii + 1))
  }

  /** The bank field slot: the bits above the field shifted up three places with the
      bank number below them, which still fits the 64-bit word. */
  lemma BankedForm(shift: nat, h: nat, ii: nat)
    requires shift < 31 && ii < 8 && h < Pow2(61 - shift)
    ensures (ShiftLeft(h, 3) + ii) % Word == Append(h, 3, ii) < Pow2(64 - shift)
  {
    var v := Append(h, 3, ii);
    ShiftLeftExact(h, 3, 61 - shift);
    assert v == ShiftLeft(h, 3) + ii;
    AppendBound(h, 61 - shift, 3, ii);
    Pow2Monotone(64 - shift, 64);
    Pow2Of64();
    DivModUnique(0, v, Word);
  }

  /** The rewrite as fields: bits above the bank field, the bank number, bits below. */
  lemma RelocatedForm(shift: nat, a: u64, ii: nat)
    requires shift < 31 && ii < 8
    ensures Relocated(shift, a, ii) == Append(Append(High(a, 3 + shift), 3, ii), shift, Low(a, shift))
  {
    var h := High(a, 3 + shift);
    Pow2Of64();
    HighBound(a, 3 + shift, 61 - shift);
    BankedForm(shift, h, ii);
    var banked := Append(h, 3, ii);
    ShiftLeftExact(banked, shift, 64 - shift);
    BitAndLowMask(a, shift);
    BitOrAppend(banked, shift, Low(a, shift));
  }

  /** For a bank number that fits three bits the rewrite keeps the bits below the bank
      field and above the three bank bits, and puts the bank number in between. */
  lemma RelocatedFields(shift: nat, a: u64, ii: nat)
    requires shift < 31 && ii < 8
    ensures Low(Relocated(shift, a, ii), shift) == Low(a, shift)
    ensures High(Relocated(shift, a, ii), shift + 3) == High(a, shift + 3)
    ensures Low(High(Relocated(shift, a, ii), shift), 3) == ii
  {
    var h := High(a, 3 + shift);
    var r := Relocated(shift, a, ii);
    RelocatedForm(shift, a, ii);
    AppendSplit(Append(h, 3, ii), shift, Low(a, shift));
    AppendSplit(h, 3, ii);
    HighHigh(r, shift, 3);
  }

  /** The rewrite reads only the bits below the bank field and above the three bank bits. */
  lemma RelocatedReads(shift: nat, a: u64, b: u64, ii: nat)
    requires shift < 31
    requires Low(a, shift) == Low(b, shift) && High(a, 3 + shift) == High(b, 3 + shift)
    ensures Relocated(shift, a, ii) == Relocated(shift, b, ii)
  {
    BitAndLowMask(a, shift);
    BitAndLowMask(b, shift);
  }

  /** For the first eight banks the chained rewrites give the same address as one rewrite of
      the original: the query at bank `ii` is the organizing address with bank field `ii`. */
  lemma {:induction false} RewrittenDirect(shift: nat, a: u64, k: nat)
    requires shift < 31 && 1 <= k <= 8
    ensures Rewritten(shift, a, k) == Relocated(shift, a, k - 1)
  {
    if k > 1 {
      RewrittenDirect(shift, a, k - 1);
      var prev := Rewritten(shift, a, k - 1);
      RelocatedFields(shift, a, k - 2);
      RelocatedReads(shift, prev, a, k - 1);
    }
  }

  // ---------------------------------------------------------------- bank numbers

  /** `banks - 1` on a `uint32_t`. */
  function BankBits(banks: nat): nat
  {
    (banks + MaxDeviceSize - 1) % MaxDeviceSize
  }

  /** `getbank_number`: -1 when every bank bit of the mask is wild, otherwise the bank bits
      of the address. The shifted words are read as `int64_t`; ANDing with a non-negative
      32-bit mask gives the same bits as on the unsigned word. */
  function BankNumber(c: Config, r: FaultRange): (n: int)
    ensures -1 <= n < MaxDeviceSize
  {
    var bank := BitAnd(High(r.fAddr, c.Shift()), BankBits(c.banks));
    var bankMask := BitAnd(High(r.fWildMask, c.Shift()), BankBits(c.banks));
    BitAndAtMost(High(r.fAddr, c.Shift()), BankBits(c.banks));
    if bankMask == BankBits(c.banks) then -1 else bank
  }

  /** For a power-of-two device whose fields are those of the scheme, the bank number is
      the bank field of the address, or -1 exactly when the mask's bank field is all wild. */
  lemma BankNumberIsField(c: Config, g: Geometry, r: FaultRange)
    requires g.PowerOfTwo()
    requires c.logBits == g.LogBits() && c.logCols == g.LogCols() && c.logRows == g.LogRows()
    requires c.banks == g.banks
    ensures BankNumber(c, r) == -1 <==> Unpack(g, r.fWildMask).bank == g.banks - 1
    ensures BankNumber(c, r) != -1 ==> BankNumber(c, r) == Unpack(g, r.fAddr).bank
  {
    LogsBelow32(g);
    assert BankBits(c.banks) == Pow2(g.LogBanks()) - 1;
    FieldBelowBank(g, r.fAddr);
    FieldBelowBank(g, r.fWildMask);
    BitAndLowMask(High(r.fAddr, c.Shift()), g.LogBanks());
    BitAndLowMask(High(r.fWildMask, c.Shift()), g.LogBanks());
  }

  /** The bank field is the low bits of the word shifted past the row, column and bit fields. */
  lemma FieldBelowBank(g: Geometry, x: nat)
    requires g.Valid()
    ensures Unpack(g, x).bank == Low(High(x, g.LogRows() + g.LogCols() + g.LogBits()), g.LogBanks())
  {
    HighHigh(x, g.LogBits(), g.LogCols());
    HighHigh(x, g.LogBits() + g.LogCols(), g.LogRows());
    assert g.LogBits() + g.LogCols() + g.LogRows() == g.LogRows() + g.LogCols() + g.LogBits();
  }

  /** The bank test of the second search block for an organizing bank number `bn1` and a
      compared range's bank number `bn2` (`>> 1` on a signed value floors). */
  predicate PairAccepts(bn1: int, bn2: int)
  {
    if bn1 != -1 && bn2 != -1 then bn2 == bn1 / 2
    else if bn1 == -1 && bn2 < 4 && bn2 > -1 then true
    else bn2 == -1
  }

  /** With `bank_number1` at 0 the second block accepts bank 0 and wholly wild banks. */
  lemma PairAcceptsIdle(bn2: int)
    ensures PairAccepts(0, bn2) <==> bn2 == 0 || bn2 == -1
  {
  }

  /** The match test of the second block. */
  function BankMeet(c: Config, bn1: int): Test
  {
    (q: FaultRange, x: FaultRange) => PairAccepts(bn1, BankNumber(c, x)) && Meet(q, x)
  }

  // ---------------------------------------------------------------- the search blocks

  /** The guards of the six search blocks, in source order, on `counter1` and `counter2`. */
  predicate FirstBlock(c1: nat, c2: nat) { c1 < 2 && c2 < 2 }
  predicate PairBlock(c1: nat, c2: nat) { (c1 < 2 || c2 < 2) && (c1 == 4 || c2 == 4) }
  predicate QuadBlock(c1: nat, c2: nat) { 1 < c1 < 4 && 1 < c2 < 4 }
  predicate QuadPairBlock(c1: nat, c2: nat) { (1 < c1 < 4 || 1 < c2 < 4) && (c1 == 4 || c2 == 4) }
  predicate OctetBlock(c1: nat, c2: nat) { 4 < c1 < 7 && 4 < c2 < 7 }
  predicate OctetPairBlock(c1: nat, c2: nat) { (4 < c1 < 7 || 4 < c2 < 7) && (c1 == 7 || c2 == 7) }

  /** With `counter1` stuck at 0 only the first block (pair counter 0 and 1) and the second
      (pair counter 4) can fire, never both for one pair, and the other four never. */
  lemma IdleFirstCounter(c2: nat)
    ensures FirstBlock(0, c2) <==> c2 < 2
    ensures PairBlock(0, c2) <==> c2 == 4
    ensures !(FirstBlock(0, c2) && PairBlock(0, c2))
    ensures !QuadBlock(0, c2) && !QuadPairBlock(0, c2) && !OctetBlock(0, c2) && !OctetPairBlock(0, c2)
  {
  }

  /** The search one (bank, die) pair runs in the die's list, and the index it stops at. */
  function Probe(c: Config, q: FaultRange, rs: seq<FaultRange>, counter2: nat): (hit: Option<nat>)
    ensures hit.Some? ==> hit.value < |rs|
  {
    if FirstBlock(0, counter2) then FirstMatch(Meet, q, rs, 0)
    else if PairBlock(0, counter2) then FirstMatch(BankMeet(c, 0), q, rs, 0)
    else None
  }

  /** `fr1->touched++` on the range at die `d`, position `j`. */
  function Bump(s: Snapshot, d: nat, j: nat): (r: Snapshot)
    requires d < |s| && j < |s[d]|
    ensures |r| == |s| && forall k :: 0 <= k < |s| ==> |r[k]| == |s[k]|
  {
    s[d := s[d][j := s[d][j].(touched := s[d][j].touched + 1)]]
  }

  // ---------------------------------------------------------------- only `touched` changes

  /** Two snapshots with the same number of dies and of ranges per die. */
  predicate SameShape(a: Snapshot, b: Snapshot)
  {
    |b| == |a| && forall d :: 0 <= d < |a| ==> |b[d]| == |a[d]|
  }

  /** The same range with a possibly different `touched`. */
  predicate Touched(before: FaultRange, after: FaultRange)
  {
    after == before.(touched := after.touched)
  }

  predicate ListRetouched(before: seq<FaultRange>, after: seq<FaultRange>)
  {
    |after| == |before| && forall j :: 0 <= j < |before| ==> Touched(before[j], after[j])
  }

  /** Two snapshots with the same ranges, position for position, up to `touched`. */
  predicate Retouched(before: Snapshot, after: Snapshot)
  {
    |after| == |before| && forall d :: 0 <= d < |before| ==> ListRetouched(before[d], after[d])
  }

  lemma RetouchedTrans(a: Snapshot, b: Snapshot, e: Snapshot)
    requires Retouched(a, b) && Retouched(b, e)
    ensures Retouched(a, e)
  {
    forall d | 0 <= d < |a|
      ensures ListRetouched(a[d], e[d])
    {
      assert ListRetouched(a[d], b[d]) && ListRetouched(b[d], e[d]);
    }
  }

  lemma BumpRetouches(s: Snapshot, d: nat, j: nat)
    requires d < |s| && j < |s[d]|
    ensures Retouched(s, Bump(s, d, j))
  {
    var r := Bump(s, d, j);
    forall k | 0 <= k < |s|
      ensures ListRetouched(s[k], r[k])
    {
      if k == d {
        forall i | 0 <= i < |s[k]|
          ensures Touched(s[k][i], r[k][i])
        {
        }
      } else {
        assert r[k] == s[k];
      }
    }
  }

  // ---------------------------------------------------------------- one organizing range

  /** The scan for one organizing range `r`, from bank `ii` and die `d` on, with pair
      counter `counter2` and `n` intersections so far: the final count and snapshot. */
  function RangeScan(c: Config, r: FaultRange, s: Snapshot, ii: nat, d: nat, counter2: nat, n: nat): (res: (nat, Snapshot))
    requires c.Shift() < 31 && d <= |s|
    ensures res.0 >= n && SameShape(s, res.1)
    decreases c.banks - ii, |s| - d
  {
    if ii >= c.banks then (n, s)
    else if d == |s| then RangeScan(c, r, s, ii + 1, 0, counter2, n)
    else
      var hit := Probe(c, Query(c, r, ii), s[d], counter2);
      if hit.Some? then RangeScan(c, r, Bump(s, d, hit.value), ii, d + 1, counter2 + 1, n + 1)
      else RangeScan(c, r, s, ii, d + 1, counter2 + 1, n)
  }

  /** One (bank, die) pair of the scan. */
  lemma ScanStep(c: Config, r: FaultRange, s: Snapshot, ii: nat, d: nat, counter2: nat, n: nat)
    requires c.Shift() < 31 && ii < c.banks && d < |s|
    ensures var hit := Probe(c, Query(c, r, ii), s[d], counter2);
      RangeScan(c, r, s, ii, d, counter2, n)
        == if hit.Some? then RangeScan(c, r, Bump(s, d, hit.value), ii, d + 1, counter2 + 1, n + 1)
           else RangeScan(c, r, s, ii, d + 1, counter2 + 1, n)
  {
  }

  /** Past the last die the scan moves to the next bank. */
  lemma ScanNextBank(c: Config, r: FaultRange, s: Snapshot, ii: nat, counter2: nat, n: nat)
    requires c.Shift() < 31 && ii < c.banks
    ensures RangeScan(c, r, s, ii, |s|, counter2, n) == RangeScan(c, r, s, ii + 1, 0, counter2, n)
  {
  }

  /** The scan changes nothing but `touched`. */
  lemma {:induction false} ScanRetouches(c: Config, r: FaultRange, s: Snapshot, ii: nat, d: nat, counter2: nat, n: nat)
    requires c.Shift() < 31 && d <= |s|
    ensures Retouched(s, RangeScan(c, r, s, ii, d, counter2, n).1)
    decreases c.banks - ii, |s| - d
  {
    if ii >= c.banks {
      assert Retouched(s, s) by {
        forall k | 0 <= k < |s|
          ensures ListRetouched(s[k], s[k])
        {
        }
      }
    } else if d == |s| {
      ScanRetouches(c, r, s, ii + 1, 0, counter2, n);
    } else {
      var hit := Probe(c, Query(c, r, ii), s[d], counter2);
      if hit.Some? {
        var s' := Bump(s, d, hit.value);
        BumpRetouches(s, d, hit.value);
        ScanRetouches(c, r, s', ii, d + 1, counter2 + 1, n + 1);
        RetouchedTrans(s, s', RangeScan(c, r, s', ii, d + 1, counter2 + 1, n + 1).1);
      } else {
        ScanRetouches(c, r, s, ii, d + 1, counter2 + 1, n);
      }
    }
  }

  /** How many of the pair counters 0, 1 and 4 are still ahead of `counter2`. */
  function LivePairs(counter2: nat): nat
  {
    (if counter2 == 0 then 1 else 0) + (if counter2 <= 1 then 1 else 0) + (if counter2 <= 4 then 1 else 0)
  }

  /** A pair adds an intersection only when its counter is 0, 1 or 4, so one organizing
      range finds at most three intersections. */
  lemma {:induction false} ScanAtMostThree(c: Config, r: FaultRange, s: Snapshot, ii: nat, d: nat, counter2: nat, n: nat)
    requires c.Shift() < 31 && d <= |s|
    ensures RangeScan(c, r, s, ii, d, counter2, n).0 <= n + LivePairs(counter2)
    decreases c.banks - ii, |s| - d
  {
    if ii < c.banks {
      if d == |s| {
        ScanNextBank(c, r, s, ii, counter2, n);
        ScanAtMostThree(c, r, s, ii + 1, 0, counter2, n);
      } else {
        var hit := Probe(c, Query(c, r, ii), s[d], counter2);
        ScanStep(c, r, s, ii, d, counter2, n);
        if hit.Some? {
          ScanAtMostThree(c, r, Bump(s, d, hit.value), ii, d + 1, counter2 + 1, n + 1);
        } else {
          ScanAtMostThree(c, r, s, ii, d + 1, counter2 + 1, n);
        }
      }
    }
  }

  /** Total `touched` over one die's ranges. */
  function ListTouched(rs: seq<FaultRange>): nat
  {
    if rs == [] then 0 else ListTouched(rs[..|rs| - 1]) + rs[|rs| - 1].touched
  }

  /** Total `touched` over the snapshot. */
  function SnapTouched(s: Snapshot): nat
  {
    if s == [] then 0 else SnapTouched(s[..|s| - 1]) + ListTouched(s[|s| - 1])
  }

  lemma {:induction false} ListTouchedBump(rs: seq<FaultRange>, j: nat)
    requires j < |rs|
    ensures ListTouched(rs[j := rs[j].(touched := rs[j].touched + 1)]) == ListTouched(rs) + 1
  {
    var rs' := rs[j := rs[j].(touched := rs[j].touched + 1)];
    if j < |rs| - 1 {
      assert rs'[..|rs| - 1] == rs[..|rs| - 1][j := rs[j].(touched := rs[j].touched + 1)];
      ListTouchedBump(rs[..|rs| - 1], j);
    } else {
      assert rs'[..|rs| - 1] == rs[..|rs| - 1];
    }
  }

  lemma {:induction false} SnapTouchedUpdate(s: Snapshot, d: nat, l: seq<FaultRange>)
    requires d < |s|
    ensures SnapTouched(s[d := l]) + ListTouched(s[d]) == SnapTouched(s) + ListTouched(l)
  {
    var s' := s[d := l];
    if d < |s| - 1 {
      assert s'[..|s| - 1] == s[..|s| - 1][d := l];
      SnapTouchedUpdate(s[..|s| - 1], d, l);
    } else {
      assert s'[..|s| - 1] == s[..|s| - 1];
    }
  }

  /** Each bump adds one to the snapshot's total `touched`. */
  lemma BumpCounts(s: Snapshot, d: nat, j: nat)
    requires d < |s| && j < |s[d]|
    ensures SnapTouched(Bump(s, d, j)) == SnapTouched(s) + 1
  {
    ListTouchedBump(s[d], j);
    SnapTouchedUpdate(s, d, s[d][j := s[d][j].(touched := s[d][j].touched + 1)]);
  }

  // ---------------------------------------------------------------- the whole scan

  /** What an intersection count above a threshold adds: `n - threshold` when `n` exceeds it. */
  function Over(n: nat, threshold: nat): (k: nat)
    ensures k > 0 <==> n > threshold
    ensures k > 0 ==> k + threshold == n
  {
    if n > threshold then n - threshold else 0
  }

  /** The outcome after organizing one range with `n` intersections. */
  function Tally(c: Config, o: Outcome, n: nat, s: Snapshot): Outcome
  {
    Outcome(o.undetectable + Over(n, c.nDetect), o.uncorrectable + Over(n, c.nCorrect), s)
  }

  /** Every organizing range from die `d0`, position `j0` on, in order, each scanned over the
      snapshot as the previous ones left it. */
  function Organize(c: Config, o: Outcome, d0: nat, j0: nat): (r: Outcome)
    requires c.Shift() < 31 && d0 <= |o.chips| && (d0 < |o.chips| ==> j0 <= |o.chips[d0]|)
    ensures SameShape(o.chips, r.chips)
    decreases |o.chips| - d0, if d0 < |o.chips| then |o.chips[d0]| - j0 else 0
  {
    if d0 == |o.chips| then o
    else if j0 == |o.chips[d0]| then Organize(c, o, d0 + 1, 0)
    else
      var res := RangeScan(c, o.chips[d0][j0], o.chips, 0, 0, 0, 0);
      Organize(c, Tally(c, o, res.0, res.1), d0, j0 + 1)
  }

  /** One organizing range. */
  lemma OrganizeStep(c: Config, o: Outcome, d0: nat, j0: nat)
    requires c.Shift() < 31 && d0 < |o.chips| && j0 < |o.chips[d0]|
    ensures var res := RangeScan(c, o.chips[d0][j0], o.chips, 0, 0, 0, 0);
      Organize(c, o, d0, j0) == Organize(c, Tally(c, o, res.0, res.1), d0, j0 + 1)
  {
  }

  /** Past a die's last range the scan moves to the next die. */
  lemma OrganizeNextDie(c: Config, o: Outcome, d0: nat)
    requires c.Shift() < 31 && d0 < |o.chips|
    ensures Organize(c, o, d0, |o.chips[d0]|) == Organize(c, o, d0 + 1, 0)
  {
  }

  /** The outcome of `repair_hc`: `touched` is zeroed first, then every range is organized. */
  function Outputs(c: Config, chips: Snapshot): Outcome
    requires c.Shift() < 31
  {
    Organize(c, Outcome(0, 0, Untouched(chips)), 0, 0)
  }

  /** The outcome of `repair`: `repair_hc` for the horizontal cube model (1), otherwise the
      empty `repair_vc`, which reports nothing and changes nothing. */
  function Dispatch(c: Config, cubeModelEnable: int, chips: Snapshot): Outcome
    requires cubeModelEnable == 1 ==> c.Shift() < 31
  {
    if cubeModelEnable == 1 then Outputs(c, chips) else Outcome(0, 0, chips)
  }

  // ---------------------------------------------------------------- the scheme object

  /** The scheme object: its settings and the two counters `clear_counters` resets. */
  class Scheme {
    const config: Config
    var counterPrev: nat
    var counterNow: nat

    /** Takes the geometry of the group's first device. */
    constructor(nCorrect: nat, nDetect: nat, first: Geometry)
      requires first.Valid()
      ensures config == Config(nCorrect, nDetect, first.LogBits(), first.LogCols(), first.LogRows(), first.banks)
      ensures counterPrev == 0 && counterNow == 0
    {
      config := Config(nCorrect, nDetect, first.LogBits(), first.LogCols(), first.LogRows(), first.banks);
      counterPrev := 0;
      counterNow := 0;
    }

    method ClearCounters()
      modifies this`counterPrev, this`counterNow
      ensures counterPrev == 0 && counterNow == 0
    {
      counterPrev := 0;
      counterNow := 0;
    }

    /** Zeroes both outputs and runs the variant the cube model selects. `1 << shift` is an
        `int` shift, so the horizontal variant needs a shift below 31. */
    method Repair(cubeModelEnable: int, chips: Snapshot) returns (undetectable: nat, uncorrectable: nat, after: Snapshot)
      requires cubeModelEnable == 1 ==> config.Shift() < 31
      ensures undetectable == Dispatch(config, cubeModelEnable, chips).undetectable
      ensures uncorrectable == Dispatch(config, cubeModelEnable, chips).uncorrectable
      ensures after == Dispatch(config, cubeModelEnable, chips).chips
    {
      undetectable, uncorrectable, after := 0, 0, chips;
      if cubeModelEnable == 1 {
        undetectable, uncorrectable, after := RepairHc(chips);
      }
    }

    /** `repair_hc`. */
    method RepairHc(chips: Snapshot) returns (undetectable: nat, uncorrectable: nat, after: Snapshot)
      requires config.Shift() < 31
      ensures undetectable == Outputs(config, chips).undetectable
      ensures uncorrectable == Outputs(config, chips).uncorrectable
      ensures after == Outputs(config, chips).chips
    {
      var base := ClearTouched(chips);
      ghost var goal := Outputs(config, chips);
      var o := Outcome(0, 0, base);
      var d0 := 0;
      while d0 < |base|
        invariant d0 <= |base| && SameShape(base, o.chips) && Organize(config, o, d0, 0) == goal
      {
        var j0 := 0;
        while j0 < |base[d0]|
          invariant j0 <= |base[d0]| && SameShape(base, o.chips) && Organize(config, o, d0, j0) == goal
        {
          OrganizeStep(config, o, d0, j0);
          var n, s := ScanRange(o.chips[d0][j0], o.chips);
          o := Tally(config, o, n, s);
          j0 := j0 + 1;
        }
        OrganizeNextDie(config, o, d0);
        d0 := d0 + 1;
      }
      return o.undetectable, o.uncorrectable, o.chips;
    }

    /** The scan for one organizing range: for each bank the copy's address is rewritten,
        then each die is searched by the block its pair counter selects. */
    method ScanRange(r: FaultRange, s0: Snapshot) returns (n: nat, s: Snapshot)
      requires config.Shift() < 31
      ensures n == RangeScan(config, r, s0, 0, 0, 0, 0).0
      ensures s == RangeScan(config, r, s0, 0, 0, 0, 0).1
      ensures SnapTouched(s) == SnapTouched(s0) + n
    {
      ghost var goal := RangeScan(config, r, s0, 0, 0, 0, 0);
      var q := r.(fWildMask := 63);
      n, s := 0, s0;
      var counter2 := 0;
      var ii := 0;
      while ii < config.banks
        invariant RangeScan(config, r, s, ii, 0, counter2, n) == goal
        invariant SnapTouched(s) == SnapTouched(s0) + n
        invariant q == r.(fWildMask := 63, fAddr := Rewritten(config.Shift(), r.fAddr, ii))
        decreases config.banks - ii
      {
        q := q.(fAddr := Relocated(config.Shift(), q.fAddr, ii));
        s, counter2, n := ScanBank(r, q, ii, s, counter2, n);
        ScanNextBank(config, r, s, ii, counter2, n);
        ii := ii + 1;
      }
    }

    /** One bank of the scan: every die's ranges probed with the bank's query address. */
    method ScanBank(r: FaultRange, q: FaultRange, ii: nat, s0: Snapshot, c0: nat, n0: nat)
      returns (s: Snapshot, counter2: nat, n: nat)
      requires config.Shift() < 31 && ii < config.banks && q == Query(config, r, ii)
      ensures RangeScan(config, r, s0, ii, 0, c0, n0) == RangeScan(config, r, s, ii, |s|, counter2, n)
      ensures n >= n0 && SnapTouched(s) == SnapTouched(s0) + (n - n0)
    {
      var counter1, bankNumber1 := 0, 0;
      s, counter2, n := s0, c0, n0;
      var d := 0;
      while d < |s|
        invariant d <= |s|
        invariant RangeScan(config, r, s0, ii, 0, c0, n0) == RangeScan(config, r, s, ii, d, counter2, n)
        invariant n >= n0 && SnapTouched(s) == SnapTouched(s0) + (n - n0)
        decreases |s| - d
      {
        ScanStep(config, r, s, ii, d, counter2, n);
        var found: Option<nat> := None;
        if FirstBlock(counter1, counter2) {
          found := FindMatch(Meet, q, s[d]);
        } else if PairBlock(counter1, counter2) {
          found := FindMatch(BankMeet(config, bankNumber1), q, s[d]);
        }
        if found.Some? {
          BumpCounts(s, d, found.value);
          n := n + 1;
          s := Bump(s, d, found.value);
        }
        counter2 := counter2 + 1;
        d := d + 1;
      }
    }
  }

  // ---------------------------------------------------------------- properties

  /** Organizing changes nothing but `touched`. */
  lemma {:induction false} OrganizeRetouches(c: Config, o: Outcome, d0: nat, j0: nat)
    requires c.Shift() < 31 && d0 <= |o.chips| && (d0 < |o.chips| ==> j0 <= |o.chips[d0]|)
    ensures Retouched(o.chips, Organize(c, o, d0, j0).chips)
    decreases |o.chips| - d0, if d0 < |o.chips| then |o.chips[d0]| - j0 else 0
  {
    if d0 == |o.chips| {
      assert Retouched(o.chips, o.chips) by {
        forall k | 0 <= k < |o.chips|
          ensures ListRetouched(o.chips[k], o.chips[k])
        {
        }
      }
    } else if j0 == |o.chips[d0]| {
      OrganizeRetouches(c, o, d0 + 1, 0);
    } else {
      var res := RangeScan(c, o.chips[d0][j0], o.chips, 0, 0, 0, 0);
      var o' := Tally(c, o, res.0, res.1);
      ScanRetouches(c, o.chips[d0][j0], o.chips, 0, 0, 0, 0);
      OrganizeRetouches(c, o', d0, j0 + 1);
      RetouchedTrans(o.chips, res.1, Organize(c, o', d0, j0 + 1).chips);
    }
  }

  /** The repair changes no range's address, mask, flags or position, and adds or removes
      none: it only raises `touched` counts of the reset snapshot. */
  lemma OnlyTouchedChanges(c: Config, chips: Snapshot)
    requires c.Shift() < 31
    ensures Retouched(Untouched(chips), Outputs(c, chips).chips)
  {
    OrganizeRetouches(c, Outcome(0, 0, Untouched(chips)), 0, 0);
  }

  /** With a threshold of three or more an organizing range adds nothing to that output. */
  lemma {:induction false} OrganizeBound(c: Config, o: Outcome, d0: nat, j0: nat)
    requires c.Shift() < 31 && d0 <= |o.chips| && (d0 < |o.chips| ==> j0 <= |o.chips[d0]|)
    ensures c.nCorrect >= 3 ==> Organize(c, o, d0, j0).uncorrectable == o.uncorrectable
    ensures c.nDetect >= 3 ==> Organize(c, o, d0, j0).undetectable == o.undetectable
    decreases |o.chips| - d0, if d0 < |o.chips| then |o.chips[d0]| - j0 else 0
  {
    if d0 < |o.chips| {
      if j0 == |o.chips[d0]| {
        OrganizeBound(c, o, d0 + 1, 0);
      } else {
        var res := RangeScan(c, o.chips[d0][j0], o.chips, 0, 0, 0, 0);
        ScanAtMostThree(c, o.chips[d0][j0], o.chips, 0, 0, 0, 0);
        OrganizeBound(c, Tally(c, o, res.0, res.1), d0, j0 + 1);
      }
    }
  }

  /** A code correcting three or more dies never reports an uncorrectable error, and one
      detecting three or more never reports an undetectable one. */
  lemma StrongCodeReportsNothing(c: Config, chips: Snapshot)
    requires c.Shift() < 31
    ensures c.nCorrect >= 3 ==> Outputs(c, chips).uncorrectable == 0
    ensures c.nDetect >= 3 ==> Outputs(c, chips).undetectable == 0
  {
    OrganizeBound(c, Outcome(0, 0, Untouched(chips)), 0, 0);
  }

  /** At bank `ii` below 8 the searched address is the organizing address with its three
      bank bits set to `ii` and every other bit kept. */
  lemma QueryAtBank(c: Config, r: FaultRange, ii: nat)
    requires c.Shift() < 31 && ii < 8
    ensures var a := Query(c, r, ii).fAddr;
      && Low(a, c.Shift()) == Low(r.fAddr, c.Shift())
      && High(a, c.Shift() + 3) == High(r.fAddr, c.Shift() + 3)
      && Low(High(a, c.Shift()), 3) == ii
  {
    RewrittenDirect(c.Shift(), r.fAddr, ii + 1);
    RelocatedFields(c.Shift(), r.fAddr, ii);
  }
}
