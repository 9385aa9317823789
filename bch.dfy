/** BCH-coded DIMMs: a range is judged by the bits it shares a codeword with. Each range's
    address is aligned down to its codeword, and every address of the codeword is probed
    against every device, the organizing one included. */
module Bch {
  import opened Geometry
  import opened Options
  import opened FaultRanges
  import opened Schemes

  /** `bit_shift`, the log2 of the codeword's width in addresses, by the number of
      correctable bits: SECDED (1) groups 4 addresses, 3EC4ED 16 and 6EC7ED 32; any other
      number is refused. */
  function CodeShift(nCorrect: nat): (s: Option<nat>)
    ensures s.Some? <==> nCorrect == 1 || nCorrect == 3 || nCorrect == 6
    ensures s.Some? ==> 2 <= s.value <= 5
  {
    if nCorrect == 1 then Some(2)
    else if nCorrect == 3 then Some(4)
    else if nCorrect == 6 then Some(5)
    else None
  }

  /** No range can be judged: every `max_faults` is 0, so after the reset no `touched`
      count is below it. */
  predicate NoLive(chips: Snapshot)
  {
    forall c, j :: 0 <= c < |chips| && 0 <= j < |chips[c]| ==> chips[c][j].maxFaults == 0
  }

  /** The reset keeps every `max_faults`. */
  lemma NoLiveReset(chips: Snapshot)
    ensures NoLive(chips) ==> NoLive(Untouched(chips))
  {
    UntouchedKeeps(chips);
  }

  /** The query at offset `ii` of the codeword: the address and the mask with their low
      `s` bits cleared, the address then stepped `ii` times as a `uint64_t`. */
  function Probe(r: FaultRange, s: nat, ii: nat): FaultRange
  {
    var q := Aligned(r, s);
    q.(fAddr := (q.fAddr + ii) % Word)
  }

  /** `n_intersections` after the first `k` offsets: at each offset, the devices holding a
      live range that meets the probe, each device at most once. */
  function WindowHits(r: FaultRange, s: nat, chips: Snapshot, k: nat): (n: nat)
    ensures n <= k * |chips|
  {
    if k == 0 then 0
    else
      var m := WindowHits(r, s, chips, k - 1);
      var d := DevicesHit(Live, Probe(r, s, k - 1), chips, -1, |chips|);
      assert m + d <= (k - 1) * |chips| + |chips|;
      m + d
  }

  /** The thresholds: more than `n_correct` adds the excess to the uncorrectable count,
      clears the flag and returns; otherwise more than `n_detect` adds the excess to the
      undetectable count and returns. */
  function Judge(nCorrect: nat, nDetect: nat, n: nat): Verdict
  {
    if n > nCorrect then Verdict(n - nCorrect, 0, true, true)
    else if n > nDetect then Verdict(0, n - nDetect, false, true)
    else Pass
  }

  /** The verdict of the range `r`: only a range below its `max_faults` is judged. */
  function RangeVerdict(nCorrect: nat, nDetect: nat, r: FaultRange, chips: Snapshot): Verdict
  {
    if r.touched >= r.maxFaults then Pass
    else match CodeShift(nCorrect)
      case None => Pass
      case Some(s) => Judge(nCorrect, nDetect, WindowHits(r, s, chips, Pow2(s)))
  }

  /** The verdict of the range at device `c`, position `j`. */
  function Verdicts(nCorrect: nat, nDetect: nat, chips: Snapshot): (nat, nat) -> Verdict
  {
    (c: nat, j: nat) => if c < |chips| && j < |chips[c]| then RangeVerdict(nCorrect, nDetect, chips[c][j], chips) else Pass
  }

  /** The verdict of every range of the snapshot. */
  function Table(nCorrect: nat, nDetect: nat, chips: Snapshot): (t: seq<seq<Verdict>>)
    ensures Shaped(t, chips)
  {
    Tabulate(Verdicts(nCorrect, nDetect, chips), chips, 0)
  }

  lemma TableAt(nCorrect: nat, nDetect: nat, chips: Snapshot, c: nat, j: nat)
    requires c < |chips| && j < |chips[c]|
    ensures Table(nCorrect, nDetect, chips)[c][j] == RangeVerdict(nCorrect, nDetect, chips[c][j], chips)
  {
    TabulateAt(Verdicts(nCorrect, nDetect, chips), chips, 0, c, j);
  }

  /** The outcome of one repair: `touched` is zeroed everywhere, then the ranges are judged
      in order until one returns. */
  function Outputs(nCorrect: nat, nDetect: nat, chips: Snapshot): Outcome
  {
    var base := Untouched(chips);
    Run(Table(nCorrect, nDetect, base), base)
  }

  /** Counting over the lists as the scan has left them gives the counts of the reset
      lists. */
  lemma {:induction false} WindowIgnoresFlags(r: FaultRange, s: nat, a: Snapshot, b: Snapshot, k: nat)
    requires Lowered(a, b)
    ensures WindowHits(r, s, a, k) == WindowHits(r, s, b, k)
  {
    if k > 0 {
      WindowIgnoresFlags(r, s, a, b, k - 1);
      LiveFlagBlind();
      DevicesHitIgnoresFlags(Live, Probe(r, s, k - 1), a, b, -1, |a|);
    }
  }

  /** Stepping the probe's address as a `uint64_t` moves to the next offset: the block has
      room below 2^64, so the step never wraps. */
  lemma ProbeNext(r: FaultRange, s: nat, ii: nat)
    requires s <= 64 && ii < Pow2(s)
    ensures Probe(r, s, ii + 1) == Probe(r, s, ii).(fAddr := (Probe(r, s, ii).fAddr + 1) % Word)
  {
    AlignedRoom(r.fAddr, s);
    StepWraps(Aligned(r, s).fAddr + ii);
  }

  /** Adding one to a value already reduced modulo 2^64 is adding one before reducing. */
  lemma StepWraps(x: nat)
    requires x < Word
    ensures (x % Word + 1) % Word == (x + 1) % Word
  {
    assert x % Word == x;
  }

  /** The codeword scan for one organizing range: the query's address steps through the
      aligned block, and at each address every device is searched. */
  method CountWindow(r: FaultRange, s: nat, chips: Snapshot) returns (n: nat)
    requires s <= 64
    ensures n == WindowHits(r, s, chips, Pow2(s))
  {
    var q := Aligned(r, s);
    var loopcount := Pow2(s);
    n := 0;
    var ii := 0;
    while ii < loopcount
      invariant ii <= loopcount
      invariant q == Probe(r, s, ii)
      invariant n == WindowHits(r, s, chips, ii)
    {
      var k := CountDevices(Live, q, chips, -1);
      n := n + k;
      ProbeNext(r, s, ii);
      q := q.(fAddr := (q.fAddr + 1) % Word);
      ii := ii + 1;
    }
  }

  /** The judgement of the range at device `c`, position `j`, counted over the lists as
      the scan has left them. */
  method JudgeRange(nCorrect: nat, nDetect: nat, base: Snapshot, cur: Snapshot, c: nat, j: nat) returns (v: Verdict)
    requires Lowered(base, cur) && c < |base| && j < |base[c]|
    requires CodeShift(nCorrect).Some? || NoLive(base)
    ensures v == Table(nCorrect, nDetect, base)[c][j]
  {
    TableAt(nCorrect, nDetect, base, c, j);
    // The scan has changed only `transient_remove` flags so far, and nothing below reads
    // them, so the organizing range's fields are those of the reset lists.
    var r := base[c][j];
    if r.touched >= r.maxFaults {
      return Pass;
    }
    var s: nat;
    if nCorrect == 1 {
      s := 2;
    } else if nCorrect == 3 {
      s := 4;
    } else if nCorrect == 6 {
      s := 5;
    } else {
      assert false;
    }
    var n := CountWindow(r, s, cur);
    WindowIgnoresFlags(r, s, base, cur, Pow2(s));
    v := Judge(nCorrect, nDetect, n);
  }

  /** The repair pass over the devices' range lists; `n_correct` must be 1, 3 or 6 unless
      no range is ever judged. */
  method Repair(nCorrect: nat, nDetect: nat, chips: Snapshot) returns (undetectable: nat, uncorrectable: nat, after: Snapshot)
    requires CodeShift(nCorrect).Some? || NoLive(chips)
    ensures undetectable == Outputs(nCorrect, nDetect, chips).undetectable
    ensures uncorrectable == Outputs(nCorrect, nDetect, chips).uncorrectable
    ensures after == Outputs(nCorrect, nDetect, chips).chips
  {
    var base := ClearTouched(chips);
    NoLiveReset(chips);
    ghost var t := Table(nCorrect, nDetect, base);
    var o := Outcome(0, 0, base);
    var c := 0;
    while c < |base|
      invariant c <= |base| && Lowered(base, o.chips)
      invariant Run(t, base) == Sweep(t, c, 0, o)
    {
      var j := 0;
      while j < |base[c]|
        invariant j <= |base[c]| && Lowered(base, o.chips)
        invariant Run(t, base) == Sweep(t, c, j, o)
      {
        var v := JudgeRange(nCorrect, nDetect, base, o.chips, c, j);
        if v.stop {
          SweepStop(t, c, j, o);
          o := Apply(o, c, j, v);
          return o.undetectable, o.uncorrectable, o.chips;
        }
        SweepStep(t, c, j, o);
        o := Apply(o, c, j, v);
        j := j + 1;
      }
      c := c + 1;
    }
    return o.undetectable, o.uncorrectable, o.chips;
  }

  /** Exactly `2^s` consecutive addresses are probed, all inside the aligned block that
      holds the range's own address; the probe's mask is the range's with the low `s` bits
      cleared, and nothing else of the range changes. */
  lemma ProbeInBlock(r: FaultRange, s: nat, ii: nat)
    requires s <= 64 && ii < Pow2(s)
    ensures var a := AlignDown(r.fAddr, s);
      && a <= r.fAddr < a + Pow2(s)
      && a % Pow2(s) == 0
      && Probe(r, s, ii).fAddr == a + ii
      && Probe(r, s, ii).fWildMask == AlignDown(r.fWildMask, s)
      && Probe(r, s, ii).(fAddr := r.fAddr, fWildMask := r.fWildMask) == r
  {
    AlignedRoom(r.fAddr, s);
  }

  /** The verdicts that add to the undetectable count need more than `n_detect` devices
      and at most `n_correct`: with `n_detect` at least `n_correct`, as every configured
      code has, none does, and the undetectable output stays 0. */
  lemma UndetectableNever(nCorrect: nat, nDetect: nat, chips: Snapshot)
    requires nDetect >= nCorrect
    ensures Outputs(nCorrect, nDetect, chips).undetectable == 0
  {
    var base := Untouched(chips);
    var t: seq<seq<Verdict>> := Table(nCorrect, nDetect, base);
    forall k: int, i: int | 0 <= k < |t| && 0 <= i < |t[k]|
      ensures t[k][i].undetectable == 0
    {
      TableAt(nCorrect, nDetect, base, k, i);
    }
    SweepAddsNothing(t, 0, 0, Outcome(0, 0, base), false);
  }

  /** The scan returns at the first range that adds anything: the two outputs together are
      at most what one range's codeword can count, `2^s` probes over every device. */
  lemma AtMostOneRange(nCorrect: nat, nDetect: nat, chips: Snapshot, s: nat)
    requires CodeShift(nCorrect) == Some(s)
    ensures Outputs(nCorrect, nDetect, chips).uncorrectable + Outputs(nCorrect, nDetect, chips).undetectable
      <= Pow2(s) * |chips|
  {
    var base := Untouched(chips);
    UntouchedKeeps(chips);
    var t: seq<seq<Verdict>> := Table(nCorrect, nDetect, base);
    var bound := Pow2(s) * |base|;
    forall k: int, i: int | 0 <= k < |t| && 0 <= i < |t[k]|
      ensures t[k][i].uncorrectable + t[k][i].undetectable <= bound
      ensures t[k][i].uncorrectable + t[k][i].undetectable > 0 ==> t[k][i].stop
    {
      TableAt(nCorrect, nDetect, base, k, i);
      VerdictBound(nCorrect, nDetect, base[k][i], base, s);
    }
    SweepAddsOnce(t, 0, 0, Outcome(0, 0, base), bound);
  }

  /** A verdict adds at most the `2^s` probes over every device, and only when it returns. */
  lemma VerdictBound(nCorrect: nat, nDetect: nat, r: FaultRange, chips: Snapshot, s: nat)
    requires CodeShift(nCorrect) == Some(s)
    ensures var v := RangeVerdict(nCorrect, nDetect, r, chips);
      && v.uncorrectable + v.undetectable <= Pow2(s) * |chips|
      && (v.uncorrectable + v.undetectable > 0 ==> v.stop)
  {
    var n := WindowHits(r, s, chips, Pow2(s));
    assert n <= Pow2(s) * |chips|;
  }

  /** The repair changes the ranges only by clearing flags, and with no ranges at all it
      reports nothing. */
  lemma OnlyFlagsChange(nCorrect: nat, nDetect: nat, chips: Snapshot)
    ensures Lowered(Untouched(chips), Outputs(nCorrect, nDetect, chips).chips)
    ensures (forall c :: 0 <= c < |chips| ==> chips[c] == []) ==>
      Outputs(nCorrect, nDetect, chips).uncorrectable == 0 && Outputs(nCorrect, nDetect, chips).undetectable == 0
  {
    var base := Untouched(chips);
    var t: seq<seq<Verdict>> := Table(nCorrect, nDetect, base);
    SweepLowers(t, 0, 0, Outcome(0, 0, base));
    if forall c :: 0 <= c < |chips| ==> chips[c] == [] {
      UntouchedKeeps(chips);
      SweepAddsNothing(t, 0, 0, Outcome(0, 0, base), true);
      SweepAddsNothing(t, 0, 0, Outcome(0, 0, base), false);
    }
  }
}
