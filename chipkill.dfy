/** Single-chip-correct ChipKill over the 18 devices of a rank per corrected symbol: every
    range is compared, as an 8-bit symbol, against every device, the organizing one included. */
module ChipKill {
  import opened FaultRanges
  import opened Schemes

  /** The low three mask bits, `(0x1 << 3) - 1`, that stretch a range to its 8-bit symbol. */
  const SymbolBits: bv64 := 7

  /** The query copy: the organizing range with its whole 8-bit symbol wild. */
  function SymbolQuery(r: FaultRange): (q: FaultRange)
    ensures q.(fWildMask := r.fWildMask) == r
  {
    Widen(r, SymbolBits)
  }

  /** `n_intersections` for the organizing range `r`: the devices holding a range that
      meets its symbol query, or 0 when `r` has used up its `max_faults`. */
  function Hits(r: FaultRange, chips: Snapshot): (n: nat)
    ensures n <= |chips|
  {
    if r.touched < r.maxFaults then DevicesHit(Meet, SymbolQuery(r), chips, -1, |chips|) else 0
  }

  /** The thresholds, applied whatever the count: at most `n_correct` devices and a mask
      above `n_correct` clear the flag; `n_correct` or more devices add the excess to the
      uncorrectable count and clear the flag; `n_detect` or more add the excess to the
      undetectable count. The scan never returns early. */
  function Judge(nCorrect: nat, nDetect: nat, r: FaultRange, n: nat): (v: Verdict)
    ensures !v.stop
    ensures v.uncorrectable > 0 <==> n > nCorrect
    ensures v.undetectable > 0 <==> n > nDetect
    ensures n >= nCorrect ==> v.clear
    ensures n < nCorrect ==> (v.clear <==> r.fWildMask > nCorrect)
  {
    Verdict(
      if n >= nCorrect then n - nCorrect else 0,
      if n >= nDetect then n - nDetect else 0,
      (n <= nCorrect && r.fWildMask > nCorrect) || n >= nCorrect,
      false)
  }

  /** The verdict of the range at device `c`, position `j`. */
  function Verdicts(nCorrect: nat, nDetect: nat, chips: Snapshot): (nat, nat) -> Verdict
  {
    (c: nat, j: nat) =>
      if c < |chips| && j < |chips[c]| then Judge(nCorrect, nDetect, chips[c][j], Hits(chips[c][j], chips)) else Pass
  }

  /** The verdict of every range of the snapshot. */
  function Table(nCorrect: nat, nDetect: nat, chips: Snapshot): (t: seq<seq<Verdict>>)
    ensures Shaped(t, chips)
  {
    Tabulate(Verdicts(nCorrect, nDetect, chips), chips, 0)
  }

  /** The entry of the table for the range at device `c`, position `j`. */
  lemma TableAt(nCorrect: nat, nDetect: nat, chips: Snapshot, c: nat, j: nat)
    requires c < |chips| && j < |chips[c]|
    ensures Table(nCorrect, nDetect, chips)[c][j] == Judge(nCorrect, nDetect, chips[c][j], Hits(chips[c][j], chips))
  {
    TabulateAt(Verdicts(nCorrect, nDetect, chips), chips, 0, c, j);
  }

  /** The outcome of one repair: `touched` is zeroed everywhere, then every range is judged. */
  function Outputs(nCorrect: nat, nDetect: nat, chips: Snapshot): Outcome
  {
    var base := Untouched(chips);
    Run(Table(nCorrect, nDetect, base), base)
  }

  /** The judgement of the range at device `c`, position `j`: counts the devices meeting
      its symbol query in the lists as the scan has left them, and applies the verdict. */
  method JudgeRange(nCorrect: nat, nDetect: nat, base: Snapshot, o: Outcome, c: nat, j: nat) returns (o': Outcome)
    requires Lowered(base, o.chips) && c < |base| && j < |base[c]|
    ensures o' == Apply(o, c, j, Table(nCorrect, nDetect, base)[c][j])
    ensures Lowered(base, o'.chips)
  {
    // The scan has changed only `transient_remove` flags so far, and nothing below reads
    // them, so the organizing range's fields are those of the reset lists.
    var r := base[c][j];
    var n := 0;
    if r.touched < r.maxFaults {
      n := CountDevices(Meet, SymbolQuery(r), o.chips, -1);
      MeetFlagBlind();
      DevicesHitIgnoresFlags(Meet, SymbolQuery(r), base, o.chips, -1, |base|);
    }
    assert n == Hits(r, base);
    TableAt(nCorrect, nDetect, base, c, j);
    o' := Apply(o, c, j, Judge(nCorrect, nDetect, r, n));
    LoweredTrans(base, o.chips, o'.chips);
  }

  /** The judgement of every range of device `c`, in list order. */
  method JudgeDevice(nCorrect: nat, nDetect: nat, base: Snapshot, o: Outcome, c: nat) returns (o': Outcome)
    requires Lowered(base, o.chips) && c < |base|
    ensures Lowered(base, o'.chips)
    ensures Sweep(Table(nCorrect, nDetect, base), c, 0, o) == Sweep(Table(nCorrect, nDetect, base), c + 1, 0, o')
  {
    ghost var t := Table(nCorrect, nDetect, base);
    o' := o;
    var j := 0;
    while j < |base[c]|
      invariant j <= |base[c]| && Lowered(base, o'.chips)
      invariant Sweep(t, c, 0, o) == Sweep(t, c, j, o')
    {
      TableAt(nCorrect, nDetect, base, c, j);
      SweepStep(t, c, j, o');
      o' := JudgeRange(nCorrect, nDetect, base, o', c, j);
      j := j + 1;
    }
    SweepNext(t, c, o');
  }

  /** The repair pass over the devices' range lists. */
  method Repair(nCorrect: nat, nDetect: nat, chips: Snapshot) returns (undetectable: nat, uncorrectable: nat, after: Snapshot)
    requires |chips| == 18 * nCorrect
    ensures undetectable == Outputs(nCorrect, nDetect, chips).undetectable
    ensures uncorrectable == Outputs(nCorrect, nDetect, chips).uncorrectable
    ensures after == Outputs(nCorrect, nDetect, chips).chips
  {
    var base := ClearTouched(chips);
    ghost var t := Table(nCorrect, nDetect, base);
    var o := Outcome(0, 0, base);
    var c := 0;
    while c < |base|
      invariant c <= |base| && Lowered(base, o.chips)
      invariant Run(t, base) == Sweep(t, c, 0, o)
    {
      o := JudgeDevice(nCorrect, nDetect, base, o, c);
      c := c + 1;
    }
    return o.undetectable, o.uncorrectable, o.chips;
  }

  /** The symbol query meets the range it was copied from. */
  lemma QueryMeetsOwn(r: FaultRange)
    ensures Meet(SymbolQuery(r), r)
  {
    WidenIntersects(r, SymbolBits);
  }

  /** Every range that is judged meets its own symbol query, and each device adds at most
      one: the count lies between 1 and the number of devices. */
  lemma ScannedCount(chips: Snapshot, c: nat, j: nat)
    requires c < |chips| && j < |chips[c]|
    requires chips[c][j].touched < chips[c][j].maxFaults
    ensures 1 <= Hits(chips[c][j], chips) <= |chips|
  {
    var r := chips[c][j];
    var q := SymbolQuery(r);
    QueryMeetsOwn(r);
    DevicesHitAtLeast(Meet, q, chips, -1, |chips|, c, j);
    assert Hits(r, chips) == DevicesHit(Meet, q, chips, -1, |chips|);
  }

  /** The scan visits every range: both outputs start at 0 and are the sums of the
      verdicts, `touched` ends at 0, and each range keeps everything else but its flag,
      which is cleared exactly when its verdict says so. */
  lemma RepairComplete(nCorrect: nat, nDetect: nat, chips: Snapshot)
    ensures var base := Untouched(chips);
      var t := Table(nCorrect, nDetect, base);
      var o := Outputs(nCorrect, nDetect, chips);
      && o.uncorrectable == TableSum(t, true)
      && o.undetectable == TableSum(t, false)
      && Shaped(t, o.chips)
      && forall k, i :: 0 <= k < |chips| && 0 <= i < |chips[k]| ==>
           o.chips[k][i] == if t[k][i].clear then base[k][i].(transientRemove := false) else base[k][i]
  {
    var base := Untouched(chips);
    var t: seq<seq<Verdict>> := Table(nCorrect, nDetect, base);
    forall k: int, i: int | 0 <= k < |t| && 0 <= i < |t[k]|
      ensures !t[k][i].stop
    {
      TableAt(nCorrect, nDetect, base, k, i);
    }
    RunComplete(t, base);
  }

  /** With one correctable symbol, every range still below its `max_faults` (after the
      reset, any range with `max_faults` above 0) has its flag cleared. */
  lemma SingleSymbolClearsScanned(nDetect: nat, chips: Snapshot, c: nat, j: nat)
    requires c < |chips| && j < |chips[c]| && chips[c][j].maxFaults > 0
    ensures var o := Outputs(1, nDetect, chips);
      c < |o.chips| && j < |o.chips[c]| && !o.chips[c][j].transientRemove
  {
    var base := Untouched(chips);
    UntouchedKeeps(chips);
    RepairComplete(1, nDetect, chips);
    ScannedCount(base, c, j);
    TableAt(1, nDetect, base, c, j);
  }
}
