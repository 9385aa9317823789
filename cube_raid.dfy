/** RAID across the dies of a memory cube: a range is judged by the other dies that hold a
    range in the same data block. Both the organizing range and every compared range are
    stretched to the whole block before they are compared, and the organizing die itself is
    not searched, so `n` intersections mean `n + 1` faulty dies. */
module CubeRaid {
  import opened FaultRanges
  import opened Schemes

  /** The query copy: the organizing range with its low `s` mask bits set, as
      `(1 << s) - 1` on an `int` gives them. */
  function BlockQuery(r: FaultRange, s: nat): (q: FaultRange)
    requires s <= 64
    ensures q.(fWildMask := r.fWildMask) == r
  {
    Widen(r, LowMask(s))
  }

  /** The match test: a compared range counts when it is below its `max_faults` and its copy,
      stretched to the block in the same way, meets the query. */
  function BlockMeet(s: nat): Test
    requires s <= 64
  {
    (q: FaultRange, x: FaultRange) => x.touched < x.maxFaults && Meet(q, Widen(x, LowMask(s)))
  }

  /** Stretching a range does not read its flag, so neither does the test. */
  lemma BlockMeetFlagBlind(s: nat)
    requires s <= 64
    ensures FlagBlind(BlockMeet(s))
  {
    MeetFlagBlind();
    forall q: FaultRange, x: FaultRange
      ensures BlockMeet(s)(q, x) == BlockMeet(s)(q, x.(transientRemove := false))
    {
      WidenFlag(x, LowMask(s));
    }
  }

  /** `n_intersections` for the organizing range `r` of device `c`: the other devices
      holding a matching range, or 0 when `r` has used up its `max_faults`. */
  function Hits(r: FaultRange, s: nat, chips: Snapshot, c: nat): (n: nat)
    requires s <= 64
    ensures c < |chips| ==> n <= |chips| - 1
  {
    if r.touched < r.maxFaults then DevicesHit(BlockMeet(s), BlockQuery(r, s), chips, c, |chips|) else 0
  }

  /** The thresholds, applied whatever the count: `n_correct` or more intersections add
      `n + 1 - n_correct` to the uncorrectable count, clear the flag, and return unless the
      trial continues after failures; if it has not returned, `n_detect` or more add
      `n + 1 - n_detect` to the undetectable count. */
  function Judge(nCorrect: nat, nDetect: nat, continueRunning: bool, n: nat): Verdict
  {
    var fail := n >= nCorrect;
    var stop := fail && !continueRunning;
    Verdict(if fail then n + 1 - nCorrect else 0, if !stop && n >= nDetect then n + 1 - nDetect else 0, fail, stop)
  }

  /** The verdict of the range at device `c`, position `j`. */
  function Verdicts(nCorrect: nat, nDetect: nat, continueRunning: bool, s: nat, chips: Snapshot): (nat, nat) -> Verdict
    requires s <= 64
  {
    (c: nat, j: nat) =>
      if c < |chips| && j < |chips[c]| then Judge(nCorrect, nDetect, continueRunning, Hits(chips[c][j], s, chips, c)) else Pass
  }

  /** The verdict of every range of the snapshot. */
  function Table(nCorrect: nat, nDetect: nat, continueRunning: bool, s: nat, chips: Snapshot): (t: seq<seq<Verdict>>)
    requires s <= 64
    ensures Shaped(t, chips)
  {
    Tabulate(Verdicts(nCorrect, nDetect, continueRunning, s, chips), chips, 0)
  }

  lemma TableAt(nCorrect: nat, nDetect: nat, continueRunning: bool, s: nat, chips: Snapshot, c: nat, j: nat)
    requires s <= 64 && c < |chips| && j < |chips[c]|
    ensures Table(nCorrect, nDetect, continueRunning, s, chips)[c][j]
      == Judge(nCorrect, nDetect, continueRunning, Hits(chips[c][j], s, chips, c))
  {
    TabulateAt(Verdicts(nCorrect, nDetect, continueRunning, s, chips), chips, 0, c, j);
  }

  /** The outcome of one repair with data blocks of `2^s` addresses. */
  function Outputs(nCorrect: nat, nDetect: nat, continueRunning: bool, s: nat, chips: Snapshot): Outcome
    requires s <= 64
  {
    var base := Untouched(chips);
    Run(Table(nCorrect, nDetect, continueRunning, s, base), base)
  }

  /** The judgement of the range at device `c`, position `j`: counts the other devices over
      the lists as the scan has left them. */
  method JudgeRange(nCorrect: nat, nDetect: nat, continueRunning: bool, s: nat, base: Snapshot, cur: Snapshot, c: nat, j: nat)
    returns (v: Verdict)
    requires s < 31 && Lowered(base, cur) && c < |base| && j < |base[c]|
    ensures v == Table(nCorrect, nDetect, continueRunning, s, base)[c][j]
  {
    TableAt(nCorrect, nDetect, continueRunning, s, base, c, j);
    // The scan has changed only `transient_remove` flags so far, and nothing below reads
    // them, so the organizing range's fields are those of the reset lists.
    var r := base[c][j];
    var n := 0;
    if r.touched < r.maxFaults {
      n := CountDevices(BlockMeet(s), BlockQuery(r, s), cur, c);
      BlockMeetFlagBlind(s);
      DevicesHitIgnoresFlags(BlockMeet(s), BlockQuery(r, s), base, cur, c, |base|);
    }
    v := Judge(nCorrect, nDetect, continueRunning, n);
  }

  /** The judgement of every range of device `c`, in list order, up to a verdict that
      returns. */
  method JudgeDevice(nCorrect: nat, nDetect: nat, continueRunning: bool, s: nat, base: Snapshot, o: Outcome, c: nat)
    returns (o': Outcome, stopped: bool)
    requires s < 31 && Lowered(base, o.chips) && c < |base|
    ensures Lowered(base, o'.chips)
    ensures var t := Table(nCorrect, nDetect, continueRunning, s, base);
      if stopped then Sweep(t, c, 0, o) == o' else Sweep(t, c, 0, o) == Sweep(t, c + 1, 0, o')
  {
    ghost var t := Table(nCorrect, nDetect, continueRunning, s, base);
    o' := o;
    var j := 0;
    while j < |base[c]|
      invariant j <= |base[c]| && Lowered(base, o'.chips)
      invariant Sweep(t, c, 0, o) == Sweep(t, c, j, o')
    {
      var v := JudgeRange(nCorrect, nDetect, continueRunning, s, base, o'.chips, c, j);
      if v.stop {
        SweepStop(t, c, j, o');
        o' := Apply(o', c, j, v);
        return o', true;
      }
      SweepStep(t, c, j, o');
      o' := Apply(o', c, j, v);
      j := j + 1;
    }
    SweepNext(t, c, o');
    stopped := false;
  }

  /** The repair pass; `1 << s` is an `int` shift, so `s` stays below 31. */
  method Repair(nCorrect: nat, nDetect: nat, continueRunning: bool, s: nat, chips: Snapshot)
    returns (undetectable: nat, uncorrectable: nat, after: Snapshot)
    requires s < 31
    ensures undetectable == Outputs(nCorrect, nDetect, continueRunning, s, chips).undetectable
    ensures uncorrectable == Outputs(nCorrect, nDetect, continueRunning, s, chips).uncorrectable
    ensures after == Outputs(nCorrect, nDetect, continueRunning, s, chips).chips
  {
    var base := ClearTouched(chips);
    ghost var t := Table(nCorrect, nDetect, continueRunning, s, base);
    var o := Outcome(0, 0, base);
    var c := 0;
    while c < |base|
      invariant c <= |base| && Lowered(base, o.chips)
      invariant Run(t, base) == Sweep(t, c, 0, o)
    {
      var stopped;
      o, stopped := JudgeDevice(nCorrect, nDetect, continueRunning, s, base, o, c);
      if stopped {
        return o.undetectable, o.uncorrectable, o.chips;
      }
      c := c + 1;
    }
    return o.undetectable, o.uncorrectable, o.chips;
  }

  // ---------------------------------------------------------------- properties

  /** The thresholds: a range fails exactly when `n_correct` or more other devices meet it,
      and then adds at least one error; it returns exactly when it fails and the trial stops
      at failures, and then adds nothing to the undetectable count. */
  lemma FailingRange(nCorrect: nat, nDetect: nat, continueRunning: bool, n: nat)
    ensures var v := Judge(nCorrect, nDetect, continueRunning, n);
      && (v.clear <==> n >= nCorrect)
      && (v.uncorrectable > 0 <==> n >= nCorrect)
      && (v.stop <==> n >= nCorrect && !continueRunning)
      && (v.stop ==> v.undetectable == 0)
      && (!v.stop ==> (v.undetectable > 0 <==> n >= nDetect))
  {
  }

  /** The organizing device is never searched: its own list does not change the count, and
      at most the other devices, one each, are counted. A failing range therefore adds at
      most `#devices - n_correct` errors. */
  lemma OwnDeviceSkipped(r: FaultRange, s: nat, a: Snapshot, b: Snapshot, c: nat)
    requires s <= 64 && c < |a| == |b|
    requires forall k :: 0 <= k < |a| && k != c ==> a[k] == b[k]
    ensures Hits(r, s, a, c) == Hits(r, s, b, c)
    ensures Hits(r, s, a, c) <= |a| - 1
  {
    DevicesHitSkipped(BlockMeet(s), BlockQuery(r, s), a, b, c, |a|);
  }

  /** Each verdict adds at most `#devices - n_correct` uncorrectable errors. */
  lemma VerdictBound(nCorrect: nat, nDetect: nat, continueRunning: bool, s: nat, chips: Snapshot, c: nat, j: nat)
    requires s <= 64 && c < |chips| && j < |chips[c]|
    ensures Table(nCorrect, nDetect, continueRunning, s, chips)[c][j].uncorrectable
      <= if |chips| >= nCorrect then |chips| - nCorrect else 0
  {
    TableAt(nCorrect, nDetect, continueRunning, s, chips, c, j);
  }

  /** When the trial continues after failures no verdict returns: every range is judged,
      each output is the sum over all verdicts, and a range's flag is cleared exactly when
      its verdict fails. */
  lemma ContinueJudgesAll(nCorrect: nat, nDetect: nat, s: nat, chips: Snapshot)
    requires s <= 64
    ensures var base := Untouched(chips);
      var t := Table(nCorrect, nDetect, true, s, base);
      var o := Outputs(nCorrect, nDetect, true, s, chips);
      && o.uncorrectable == TableSum(t, true)
      && o.undetectable == TableSum(t, false)
      && Shaped(t, o.chips)
      && forall k, i :: 0 <= k < |chips| && 0 <= i < |chips[k]| ==>
           o.chips[k][i] == if t[k][i].clear then base[k][i].(transientRemove := false) else base[k][i]
  {
    var base := Untouched(chips);
    var t: seq<seq<Verdict>> := Table(nCorrect, nDetect, true, s, base);
    forall k: int, i: int | 0 <= k < |t| && 0 <= i < |t[k]|
      ensures !t[k][i].stop
    {
      TableAt(nCorrect, nDetect, true, s, base, k, i);
    }
    RunComplete(t, base);
  }

  /** A single device has no other device to share a block with: with thresholds of at
      least one it reports nothing, and the repair changes the ranges only by clearing
      flags. */
  lemma LoneDevice(nCorrect: nat, nDetect: nat, continueRunning: bool, s: nat, chips: Snapshot)
    requires s <= 64 && |chips| == 1 && nCorrect >= 1 && nDetect >= 1
    ensures Outputs(nCorrect, nDetect, continueRunning, s, chips).uncorrectable == 0
    ensures Outputs(nCorrect, nDetect, continueRunning, s, chips).undetectable == 0
    ensures Lowered(Untouched(chips), Outputs(nCorrect, nDetect, continueRunning, s, chips).chips)
  {
    var base := Untouched(chips);
    UntouchedKeeps(chips);
    var t: seq<seq<Verdict>> := Table(nCorrect, nDetect, continueRunning, s, base);
    forall k: int, i: int | 0 <= k < |t| && 0 <= i < |t[k]|
      ensures t[k][i].uncorrectable == 0 && t[k][i].undetectable == 0
    {
      TableAt(nCorrect, nDetect, continueRunning, s, base, k, i);
    }
    SweepAddsNothing(t, 0, 0, Outcome(0, 0, base), true);
    SweepAddsNothing(t, 0, 0, Outcome(0, 0, base), false);
    SweepLowers(t, 0, 0, Outcome(0, 0, base));
  }
}
