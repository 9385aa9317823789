/** BCH-coded memory cubes: a range is judged by the bits of its own device that share an
    ECC block with it. The query starts at the range's address and mask aligned down to the
    block, steps through the block's addresses, and narrows itself to the rows a found range
    has in common with it. */
module BchCube {
  import opened Geometry
  import opened FaultRanges
  import opened Schemes
  import opened Words

  // ---------------------------------------------------------------- narrowing the query

  /** The narrowed address on plain words: each bit that stops being wild (`changed`)
      takes `ar`'s value, except in the low offset bits (`low`), which keep `aq`'s, as do
      the bits whose wildness did not change. */
  function NarrowAddr(aq: bv64, mq: bv64, ar: bv64, mr: bv64, low: bv64): bv64
  {
    var changed := mq ^ (mq & mr);
    ((ar & !low) & changed) | (aq & !changed) | (aq & low)
  }

  /** After a hit on a range with address `ar` and mask `mr`, the query keeps as wild only
      the bits wild in both, and its address is narrowed as `NarrowAddr` says; nothing else
      of the query changes. */
  function Narrow(q: FaultRange, ar: bv64, mr: bv64, low: bv64): (n: FaultRange)
    ensures n.(fAddr := q.fAddr, fWildMask := q.fWildMask) == q
  {
    q.(fAddr := WordValue(NarrowAddr(Addr(q), Mask(q), ar, mr, low)), fWildMask := WordValue(Mask(q) & mr))
  }

  /** The narrowed query's mask is the meet of the two masks. */
  lemma NarrowMaskIs(q: FaultRange, ar: bv64, mr: bv64, low: bv64)
    ensures Mask(Narrow(q, ar, mr, low)) == Mask(q) & mr
  {
    MaskOf(Narrow(q, ar, mr, low), Mask(q) & mr);
  }

  /** The narrowed query's address. */
  lemma NarrowAddrIs(q: FaultRange, ar: bv64, mr: bv64, low: bv64)
    ensures Addr(Narrow(q, ar, mr, low)) == NarrowAddr(Addr(q), Mask(q), ar, mr, low)
  {
    AddrOf(Narrow(q, ar, mr, low), NarrowAddr(Addr(q), Mask(q), ar, mr, low));
  }

  lemma MeetWithin(mq: bv64, mr: bv64)
    ensures (mq & mr) & !mq == 0
  {
  }

  lemma ChangedBits(mq: bv64, mr: bv64)
    ensures mq ^ (mq & mr) == mq & !mr
  {
  }

  lemma KeepsUnchanged(aq: bv64, ar: bv64, ch: bv64, low: bv64)
    ensures (((ar & !low) & ch) | (aq & !ch) | (aq & low)) & !ch == aq & !ch
  {
  }

  lemma KeepsLow(aq: bv64, ar: bv64, ch: bv64, low: bv64)
    ensures (((ar & !low) & ch) | (aq & !ch) | (aq & low)) & low == aq & low
  {
  }

  lemma TakesUpper(aq: bv64, ar: bv64, ch: bv64, low: bv64)
    ensures (((ar & !low) & ch) | (aq & !ch) | (aq & low)) & ch & !low == ar & ch & !low
  {
  }

  /** The narrowed query never gains a wild bit. */
  lemma NarrowMaskShrinks(q: FaultRange, ar: bv64, mr: bv64, low: bv64)
    ensures Mask(Narrow(q, ar, mr, low)) & !Mask(q) == 0
  {
    NarrowMaskIs(q, ar, mr, low);
    MeetWithin(Mask(q), mr);
  }

  /** The bits whose wildness did not change keep the query's address. */
  lemma NarrowKeepsUnchanged(q: FaultRange, ar: bv64, mr: bv64, low: bv64)
    ensures var ch := Mask(q) & !mr;
      Addr(Narrow(q, ar, mr, low)) & !ch == Addr(q) & !ch
  {
    NarrowAddrIs(q, ar, mr, low);
    ChangedBits(Mask(q), mr);
    KeepsUnchanged(Addr(q), ar, Mask(q) & !mr, low);
  }

  /** The low offset bits keep the query's address. */
  lemma NarrowKeepsLow(q: FaultRange, ar: bv64, mr: bv64, low: bv64)
    ensures Addr(Narrow(q, ar, mr, low)) & low == Addr(q) & low
  {
    NarrowAddrIs(q, ar, mr, low);
    ChangedBits(Mask(q), mr);
    KeepsLow(Addr(q), ar, Mask(q) & !mr, low);
  }

  /** The bits that stopped being wild take the found range's address above the offset. */
  lemma NarrowTakesUpper(q: FaultRange, ar: bv64, mr: bv64, low: bv64)
    ensures var ch := Mask(q) & !mr;
      Addr(Narrow(q, ar, mr, low)) & ch & !low == ar & ch & !low
  {
    NarrowAddrIs(q, ar, mr, low);
    ChangedBits(Mask(q), mr);
    TakesUpper(Addr(q), ar, Mask(q) & !mr, low);
  }

  // ---------------------------------------------------------------- the block scan

  /** The query and `n_intersections` as the block scan carries them. */
  datatype Scan = Scan(query: FaultRange, hits: nat)

  /** One offset of the block scan over the organizing device's own list `own`: the first
      live range meeting the query counts once and narrows the query, and the query's
      address then steps by one as a `uint64_t`. */
  function Step(w: Scan, own: seq<FaultRange>, low: bv64): (w': Scan)
    ensures w'.hits <= w.hits + 1
  {
    var hit := FirstMatch(Live, w.query, own, 0);
    var q := if hit.Some? then Narrow(w.query, Addr(own[hit.value]), Mask(own[hit.value]), low) else w.query;
    Scan(q.(fAddr := (q.fAddr + 1) % Word), w.hits + if hit.Some? then 1 else 0)
  }

  /** The block scan after `k` offsets. */
  function Window(start: FaultRange, own: seq<FaultRange>, low: bv64, k: nat): (w: Scan)
    ensures w.hits <= k
  {
    if k == 0 then Scan(start, 0) else Step(Window(start, own, low, k - 1), own, low)
  }

  /** One offset over a list whose flags have been cleared is the same step. */
  lemma StepIgnoresFlags(w: Scan, a: seq<FaultRange>, b: seq<FaultRange>, low: bv64)
    requires ListLowered(a, b)
    ensures Step(w, a, low) == Step(w, b, low)
  {
    LiveFlagBlind();
    FirstMatchIgnoresFlags(Live, w.query, a, b, 0);
    var hit := FirstMatch(Live, w.query, a, 0);
    if hit.Some? {
      var i := hit.value;
      assert b[i] == a[i] || b[i] == a[i].(transientRemove := false);
      SameAddr(a[i], b[i]);
      SameMask(a[i], b[i]);
    }
  }

  /** The scan over a list whose flags have been cleared is the same scan. */
  lemma {:induction false} WindowIgnoresFlags(start: FaultRange, a: seq<FaultRange>, b: seq<FaultRange>, low: bv64, k: nat)
    requires ListLowered(a, b)
    ensures Window(start, a, low, k) == Window(start, b, low, k)
  {
    if k > 0 {
      WindowIgnoresFlags(start, a, b, low, k - 1);
      StepIgnoresFlags(Window(start, a, low, k - 1), a, b, low);
    }
  }

  /** The scan of one organizing range over its own device's list. */
  method CountBlock(r: FaultRange, s: nat, own: seq<FaultRange>) returns (n: nat)
    requires s < 31
    ensures n == Window(Aligned(r, s), own, LowMask(s), Pow2(s)).hits
  {
    var q := Aligned(r, s);
    var low := LowMask(s);
    var loopcount := Pow2(s);
    n := 0;
    var ii := 0;
    while ii < loopcount
      invariant ii <= loopcount
      invariant Window(Aligned(r, s), own, low, ii) == Scan(q, n)
    {
      var hit := FindMatch(Live, q, own);
      if hit.Some? {
        n := n + 1;
        q := Narrow(q, Addr(own[hit.value]), Mask(own[hit.value]), low);
      }
      q := q.(fAddr := (q.fAddr + 1) % Word);
      ii := ii + 1;
    }
  }

  // ---------------------------------------------------------------- verdicts and the repair

  /** The thresholds: more than `n_correct` adds the excess to the uncorrectable count and
      clears the flag, and returns unless the trial continues after failures; if it has not
      returned, `n_detect` or more adds the excess to the undetectable count. */
  function Judge(nCorrect: nat, nDetect: nat, continueRunning: bool, n: nat): Verdict
  {
    var fail := n > nCorrect;
    var stop := fail && !continueRunning;
    Verdict(if fail then n - nCorrect else 0, if !stop && n >= nDetect then n - nDetect else 0, fail, stop)
  }

  /** The verdict of the range `r` of the list `own`: only a range below its `max_faults`
      is judged. */
  function RangeVerdict(nCorrect: nat, nDetect: nat, continueRunning: bool, s: nat, r: FaultRange, own: seq<FaultRange>): Verdict
    requires s <= 64
  {
    if r.touched >= r.maxFaults then Pass
    else Judge(nCorrect, nDetect, continueRunning, Window(Aligned(r, s), own, LowMask(s), Pow2(s)).hits)
  }

  /** The verdict of the range at device `c`, position `j`. */
  function Verdicts(nCorrect: nat, nDetect: nat, continueRunning: bool, s: nat, chips: Snapshot): (nat, nat) -> Verdict
    requires s <= 64
  {
    (c: nat, j: nat) => if c < |chips| && j < |chips[c]| then RangeVerdict(nCorrect, nDetect, continueRunning, s, chips[c][j], chips[c]) else Pass
  }

  /** The verdict of every range of the snapshot. */
  function Table(nCorrect: nat, nDetect: nat, continueRunning: bool, s: nat, chips: Snapshot): (t: seq<seq<Verdict>>)
    requires s <= 64
    ensures Shaped(t, chips)
  {
    Tabulate(Verdicts(nCorrect, nDetect, continueRunning, s, chips), chips, 0)
  }

  lemma TableAt(nCorrect: nat, nDetect: nat, continueRunning: bool, s: nat, chips: Snapshot, c: nat, j: nat)
    requires s <= 64 && c < |chips| && j < |chips[c]|
    ensures Table(nCorrect, nDetect, continueRunning, s, chips)[c][j]
      == RangeVerdict(nCorrect, nDetect, continueRunning, s, chips[c][j], chips[c])
  {
    TabulateAt(Verdicts(nCorrect, nDetect, continueRunning, s, chips), chips, 0, c, j);
  }

  /** The outcome of one repair with blocks of `2^s` addresses (`s` is the log2 of the
      data block's width in bits). */
  function Outputs(nCorrect: nat, nDetect: nat, continueRunning: bool, s: nat, chips: Snapshot): Outcome
    requires s <= 64
  {
    var base := Untouched(chips);
    Run(Table(nCorrect, nDetect, continueRunning, s, base), base)
  }

  method JudgeRange(nCorrect: nat, nDetect: nat, continueRunning: bool, s: nat, base: Snapshot, cur: Snapshot, c: nat, j: nat)
    returns (v: Verdict)
    requires s < 31 && Lowered(base, cur) && c < |base| && j < |base[c]|
    ensures v == Table(nCorrect, nDetect, continueRunning, s, base)[c][j]
  {
    TableAt(nCorrect, nDetect, continueRunning, s, base, c, j);
    // The scan has changed only `transient_remove` flags so far, and nothing below reads
    // them, so the organizing range's fields are those of the reset lists.
    var r := base[c][j];
    if r.touched >= r.maxFaults {
      return Pass;
    }
    var n := CountBlock(r, s, cur[c]);
    LoweredList(base, cur, c);
    WindowIgnoresFlags(Aligned(r, s), base[c], cur[c], LowMask(s), Pow2(s));
    v := Judge(nCorrect, nDetect, continueRunning, n);
  }

  /** The repair pass; `1 << s` is an `int` shift, so `s` stays below 31. */
  method Repair(nCorrect: nat, nDetect: nat, continueRunning: bool, s: nat, chips: Snapshot)
    returns (undetectable: nat, uncorrectable: nat, after: Snapshot)
    requires s < 31
    ensures undetectable == Outputs(nCorrect, nDetect, continueRunning, s, chips).undetectable
    ensures uncorrectable == Outputs(nCorrect, nDetect, continueRunning, s, chips).uncorrectable
    ensures after == Outputs(nCorrect, nDetect, continueRunning, s, chips).chips
  {
    var base := ClearTouched(chips);
    ghost var t := Table(nCorrect, nDetect, continueRunning, s, base);
    var o := Outcome(0, 0, base);
    var c := 0;
    while c < |base|
      invariant c <= |base| && Lowered(base, o.chips)
      invariant Run(t, base) == Sweep(t, c, 0, o)
    {
      var j := 0;
      while j < |base[c]|
        invariant j <= |base[c]| && Lowered(base, o.chips)
        invariant Run(t, base) == Sweep(t, c, j, o)
      {
        var v := JudgeRange(nCorrect, nDetect, continueRunning, s, base, o.chips, c, j);
        if v.stop {
          SweepStop(t, c, j, o);
          o := Apply(o, c, j, v);
          return o.undetectable, o.uncorrectable, o.chips;
        }
        SweepStep(t, c, j, o);
        o := Apply(o, c, j, v);
        j := j + 1;
      }
      c := c + 1;
    }
    return o.undetectable, o.uncorrectable, o.chips;
  }

  // ---------------------------------------------------------------- properties

  /** A range's verdict depends on its own device's list only: no other device is searched,
      and the count is at most the `2^s` offsets of the block. */
  lemma OwnDeviceOnly(nCorrect: nat, nDetect: nat, continueRunning: bool, s: nat, a: Snapshot, b: Snapshot, c: nat, j: nat)
    requires s <= 64 && c < |a| && c < |b| && a[c] == b[c] && j < |a[c]|
    ensures Table(nCorrect, nDetect, continueRunning, s, a)[c][j] == Table(nCorrect, nDetect, continueRunning, s, b)[c][j]
    ensures Table(nCorrect, nDetect, continueRunning, s, a)[c][j].uncorrectable <= Pow2(s)
  {
    TableAt(nCorrect, nDetect, continueRunning, s, a, c, j);
    TableAt(nCorrect, nDetect, continueRunning, s, b, c, j);
  }

  /** When the trial continues after failures no verdict returns: every range is judged,
      each output is the sum over all verdicts, and a range's flag is cleared exactly when
      its count exceeds `n_correct`. */
  lemma ContinueJudgesAll(nCorrect: nat, nDetect: nat, s: nat, chips: Snapshot)
    requires s <= 64
    ensures var base := Untouched(chips);
      var t := Table(nCorrect, nDetect, true, s, base);
      var o := Outputs(nCorrect, nDetect, true, s, chips);
      && o.uncorrectable == TableSum(t, true)
      && o.undetectable == TableSum(t, false)
      && Shaped(t, o.chips)
      && forall k, i :: 0 <= k < |chips| && 0 <= i < |chips[k]| ==>
           o.chips[k][i] == if t[k][i].clear then base[k][i].(transientRemove := false) else base[k][i]
  {
    var base := Untouched(chips);
    var t: seq<seq<Verdict>> := Table(nCorrect, nDetect, true, s, base);
    forall k: int, i: int | 0 <= k < |t| && 0 <= i < |t[k]|
      ensures !t[k][i].stop
    {
      TableAt(nCorrect, nDetect, true, s, base, k, i);
    }
    RunComplete(t, base);
  }

  /** A range that fails adds its excess to the uncorrectable count and has its flag
      cleared, and when the trial stops at failures it adds nothing to the undetectable
      count; a range that does not fail keeps its flag. */
  lemma FailingRange(nCorrect: nat, nDetect: nat, continueRunning: bool, n: nat)
    ensures var v := Judge(nCorrect, nDetect, continueRunning, n);
      && (v.clear <==> n > nCorrect)
      && (v.stop <==> n > nCorrect && !continueRunning)
      && (v.stop ==> v.undetectable == 0)
      && (!v.stop ==> (v.undetectable > 0 <==> n > nDetect))
  {
  }
}
