/** What the repair schemes share. A scheme reads the range lists of its group's children,
    one list per device in the order the devices were attached (a snapshot); it first zeroes
    `touched` on every range, then takes every range of every device in turn as the
    organizing range, counts the devices that hold a matching range, and turns that count
    into a verdict: how many errors it adds to each output, whether the range's
    `transient_remove` flag is cleared, and whether the scan returns at once. */
module Schemes {
  import opened Geometry
  import opened FaultRanges
  import opened Options
  import Layout

  /** The range lists of the children, one per device, in the parent's order. */
  type Snapshot = seq<seq<FaultRange>>

  // ---------------------------------------------------------------- resetting `touched`

  /** Every range with `touched` zeroed. */
  function Untouched(chips: Snapshot): Snapshot
  {
    seq(|chips|, c requires 0 <= c < |chips| =>
      seq(|chips[c]|, j requires 0 <= j < |chips[c]| => chips[c][j].(touched := 0)))
  }

  /** The same range, with its `transient_remove` flag possibly cleared. */
  predicate Cleared(before: FaultRange, after: FaultRange)
  {
    after == before || after == before.(transientRemove := false)
  }

  /** One device's list with some flags cleared and nothing else changed. */
  predicate ListLowered(before: seq<FaultRange>, after: seq<FaultRange>)
  {
    |after| == |before| && forall j :: 0 <= j < |before| ==> Cleared(before[j], after[j])
  }

  /** Two snapshots with the same devices and ranges, position for position, that differ at
      most in the `transient_remove` flag, which may only have gone from set to clear. */
  predicate Lowered(before: Snapshot, after: Snapshot)
  {
    |after| == |before| && forall c :: 0 <= c < |before| ==> ListLowered(before[c], after[c])
  }

  /** The reset pass: walks every range of every device and zeroes its `touched` count. */
  method ClearTouched(chips: Snapshot) returns (r: Snapshot)
    ensures r == Untouched(chips)
  {
    ghost var target := Untouched(chips);
    r := [];
    var c := 0;
    while c < |chips|
      invariant c <= |chips|
      invariant r == target[..c]
    {
      var rs: seq<FaultRange> := [];
      var j := 0;
      while j < |chips[c]|
        invariant j <= |chips[c]|
        invariant rs == target[c][..j]
      {
        rs := rs + [chips[c][j].(touched := 0)];
        j := j + 1;
      }
      assert rs == target[c];
      assert target[..c + 1] == target[..c] + [target[c]];
      r := r + [rs];
      c := c + 1;
    }
  }

  /** The reset pass changes nothing but `touched`, which ends at 0 everywhere, and a second
      pass changes nothing. */
  lemma UntouchedKeeps(chips: Snapshot)
    ensures |Untouched(chips)| == |chips|
    ensures forall c :: 0 <= c < |chips| ==> |Untouched(chips)[c]| == |chips[c]|
    ensures forall c, j :: 0 <= c < |chips| && 0 <= j < |chips[c]| ==>
      Untouched(chips)[c][j].touched == 0 && Untouched(chips)[c][j].(touched := chips[c][j].touched) == chips[c][j]
    ensures Untouched(Untouched(chips)) == Untouched(chips)
  {
    var u := Untouched(chips);
    forall c | 0 <= c < |chips|
      ensures Untouched(u)[c] == u[c]
    {
    }
  }

  // ---------------------------------------------------------------- the match test

  /** A scheme's match test: whether a compared range counts as a hit for a query copy. */
  type Test = (FaultRange, FaultRange) -> bool

  /** Intersection as a test value: the schemes that compare ranges as they are pass it. */
  const Meet: Test := Intersects

  /** A test that reads neither `touched` of the query nor either `transient_remove` flag. */
  ghost predicate FlagBlind(m: Test)
  {
    forall q: FaultRange, r: FaultRange {:trigger m(q, r)} :: m(q, r) == m(q, r.(transientRemove := false))
  }

  /** Intersection reads neither `transient_remove` flag. */
  lemma MeetFlagBlind()
    ensures FlagBlind(Meet)
  {
    forall q: FaultRange, r: FaultRange
      ensures Meet(q, r) == Meet(q, r.(transientRemove := false))
    {
      assert Addr(r) == Addr(r.(transientRemove := false));
      assert Mask(r) == Mask(r.(transientRemove := false));
    }
  }

  /** Intersection with a compared range that is still below its `max_faults`. */
  const Live: Test := (q: FaultRange, r: FaultRange) => r.touched < r.maxFaults && Meet(q, r)

  lemma LiveFlagBlind()
    ensures FlagBlind(Live)
  {
    MeetFlagBlind();
    forall q: FaultRange, r: FaultRange
      ensures Live(q, r) == Live(q, r.(transientRemove := false))
    {
      assert Meet(q, r) == Meet(q, r.(transientRemove := false));
    }
  }

  /** The index of the first range of `rs`, from `k` on, that matches. */
  function FirstMatch(m: Test, q: FaultRange, rs: seq<FaultRange>, k: nat): (r: Option<nat>)
    requires k <= |rs|
    ensures r.Some? ==> k <= r.value < |rs|
    decreases |rs| - k
  {
    if k == |rs| then None
    else if m(q, rs[k]) then Some(k)
    else FirstMatch(m, q, rs, k + 1)
  }

  /** The search finds a matching range and passes over only ranges that do not match;
      when it finds none, no range from `k` on matches. */
  lemma {:induction false} FirstMatchIsFirst(m: Test, q: FaultRange, rs: seq<FaultRange>, k: nat)
    requires k <= |rs|
    ensures var r := FirstMatch(m, q, rs, k);
      && (r.Some? ==> m(q, rs[r.value]))
      && (r.Some? ==> forall i :: k <= i < r.value ==> !m(q, rs[i]))
      && (r.None? ==> forall i :: k <= i < |rs| ==> !m(q, rs[i]))
    decreases |rs| - k
  {
    if k < |rs| && !m(q, rs[k]) {
      FirstMatchIsFirst(m, q, rs, k + 1);
    }
  }

  lemma LoweredList(a: Snapshot, b: Snapshot, c: nat)
    requires Lowered(a, b) && c < |a|
    ensures ListLowered(a[c], b[c])
  {
  }

  /** For a test that does not read the flag, the search finds the same index in a list
      whose flags have been cleared. */
  lemma {:induction false} FirstMatchIgnoresFlags(m: Test, q: FaultRange, a: seq<FaultRange>, b: seq<FaultRange>, k: nat)
    requires FlagBlind(m) && ListLowered(a, b) && k <= |a|
    ensures FirstMatch(m, q, a, k) == FirstMatch(m, q, b, k)
    decreases |a| - k
  {
    if k < |a| {
      assert m(q, a[k]) == m(q, a[k].(transientRemove := false));
      FirstMatchIgnoresFlags(m, q, a, b, k + 1);
    }
  }

  /** The device holds a matching range. */
  predicate Meets(m: Test, q: FaultRange, rs: seq<FaultRange>)
  {
    FirstMatch(m, q, rs, 0).Some?
  }

  /** The inner search of every scheme: walks the device's ranges and stops at the first
      one that matches. */
  method FindMatch(m: Test, q: FaultRange, rs: seq<FaultRange>) returns (found: Option<nat>)
    ensures found == FirstMatch(m, q, rs, 0)
  {
    var i := 0;
    while i < |rs|
      invariant i <= |rs|
      invariant FirstMatch(m, q, rs, 0) == FirstMatch(m, q, rs, i)
    {
      if m(q, rs[i]) {
        return Some(i);
      }
      i := i + 1;
    }
    return None;
  }

  /** The number of devices among the first `n`, leaving out the device `skip`, that hold a
      matching range: each device adds at most one, whatever number of its ranges match. */
  function DevicesHit(m: Test, q: FaultRange, chips: Snapshot, skip: int, n: nat): (k: nat)
    requires n <= |chips|
    ensures k <= n
    ensures 0 <= skip < n ==> k <= n - 1
  {
    if n == 0 then 0
    else DevicesHit(m, q, chips, skip, n - 1) + (if n - 1 != skip && Meets(m, q, chips[n - 1]) then 1 else 0)
  }

  /** Counts the devices, other than `skip`, holding a match, breaking out of each device's
      list at its first match. */
  method CountDevices(m: Test, q: FaultRange, chips: Snapshot, skip: int) returns (n: nat)
    ensures n == DevicesHit(m, q, chips, skip, |chips|)
  {
    n := 0;
    var k := 0;
    while k < |chips|
      invariant k <= |chips|
      invariant n == DevicesHit(m, q, chips, skip, k)
    {
      if k != skip {
        var found := FindMatch(m, q, chips[k]);
        if found.Some? {
          n := n + 1;
        }
      }
      k := k + 1;
    }
  }

  /** A device other than `skip` that holds a matching range is counted. */
  lemma {:induction false} DevicesHitAtLeast(m: Test, q: FaultRange, chips: Snapshot, skip: int, n: nat, c: nat, j: nat)
    requires n <= |chips| && c < n && c != skip && j < |chips[c]| && m(q, chips[c][j])
    ensures DevicesHit(m, q, chips, skip, n) >= 1
  {
    if c < n - 1 {
      DevicesHitAtLeast(m, q, chips, skip, n - 1, c, j);
    } else {
      FirstMatchIsFirst(m, q, chips[c], 0);
    }
  }

  /** The skipped device's list is never read. */
  lemma {:induction false} DevicesHitSkipped(m: Test, q: FaultRange, a: Snapshot, b: Snapshot, skip: nat, n: nat)
    requires n <= |a| == |b|
    requires forall k :: 0 <= k < |a| && k != skip ==> a[k] == b[k]
    ensures DevicesHit(m, q, a, skip, n) == DevicesHit(m, q, b, skip, n)
  {
    if n > 0 {
      DevicesHitSkipped(m, q, a, b, skip, n - 1);
    }
  }

  /** For a test that does not read the flag, counting over a snapshot whose flags a scan
      has been clearing gives the same count as counting over the snapshot the scan started
      from. */
  lemma {:induction false} DevicesHitIgnoresFlags(m: Test, q: FaultRange, a: Snapshot, b: Snapshot, skip: int, n: nat)
    requires FlagBlind(m) && Lowered(a, b) && n <= |a|
    ensures DevicesHit(m, q, a, skip, n) == DevicesHit(m, q, b, skip, n)
  {
    if n > 0 {
      DevicesHitIgnoresFlags(m, q, a, b, skip, n - 1);
      var rs, ts := a[n - 1], b[n - 1];
      FirstMatchIsFirst(m, q, rs, 0);
      FirstMatchIsFirst(m, q, ts, 0);
      if Meets(m, q, rs) {
        var i := FirstMatch(m, q, rs, 0).value;
        assert m(q, rs[i]) == m(q, rs[i].(transientRemove := false));
        assert m(q, ts[i]);
      }
      if Meets(m, q, ts) {
        var i := FirstMatch(m, q, ts, 0).value;
        assert m(q, rs[i]) == m(q, rs[i].(transientRemove := false));
        assert m(q, rs[i]);
      }
    }
  }

  /** The word `2^s - 1`: the lowest `s` bits set, as `(1 << s) - 1` builds it. */
  function LowMask(s: nat): bv64
    requires s <= 64
  {
    if s == 0 then 0 else (LowMask(s - 1) << 1) | 1
  }

  /** `(x >> s) << s` on a `uint64_t`: `x` with its lowest `s` bits cleared, which is `x`
      less its remainder modulo `2^s`. */
  function AlignDown(x: u64, s: nat): (r: u64)
    ensures r <= x && x - r < Pow2(s) && r % Pow2(s) == 0
  {
    var p := Pow2(s);
    AlignedMultiple(x, p);
    x - x % p
  }

  /** Taking away the remainder leaves a multiple of `p` at most `p - 1` below `x`. */
  lemma AlignedMultiple(x: nat, p: nat)
    requires p >= 1
    ensures 0 <= x - x % p <= x && x - (x - x % p) < p && (x - x % p) % p == 0
  {
    var q := x / p;
    assert x - x % p == q * p;
    Layout.DivModUnique(q, 0, p);
  }

  /** The range with its address and mask aligned down to a block of `2^s` addresses, as
      the block-coded schemes start their queries. */
  function Aligned(r: FaultRange, s: nat): (q: FaultRange)
    ensures q.fAddr <= r.fAddr && q.fAddr % Pow2(s) == 0 && r.fAddr - q.fAddr < Pow2(s)
    ensures q.(fAddr := r.fAddr, fWildMask := r.fWildMask) == r
  {
    r.(fAddr := AlignDown(r.fAddr, s), fWildMask := AlignDown(r.fWildMask, s))
  }

  /** The block that `AlignDown` starts fits below `2^64`: stepping through it never wraps. */
  lemma AlignedRoom(x: u64, s: nat)
    requires s <= 64
    ensures AlignDown(x, s) + Pow2(s) <= Word
  {
    var p, m := Pow2(s), Pow2(64 - s);
    Pow2Add(s, 64 - s);
    Pow2Of64();
    RoomFor(x, p, m);
  }

  lemma RoomFor(x: nat, p: nat, m: nat)
    requires p >= 1 && x < p * m
    ensures x - x % p + p <= p * m
  {
    var q := x / p;
    assert x - x % p == q * p;
    BlockRoom(q, p, m);
  }

  /** A multiple `q * p` below `m * p` leaves room for a whole block of `p` above it. */
  lemma BlockRoom(q: nat, p: nat, m: nat)
    requires p >= 1 && q * p < p * m
    ensures q * p + p <= p * m
  {
    if q >= m {
      Layout.MulMonotone(m, q, p);
      assert false;
    }
    Layout.MulMonotone(q + 1, m, p);
    assert (q + 1) * p == q * p + p;
  }

  // ---------------------------------------------------------------- verdicts and the scan

  /** What one organizing range contributes: errors added to each output, whether its
      `transient_remove` flag is cleared, and whether the scan returns right after it. */
  datatype Verdict = Verdict(uncorrectable: nat, undetectable: nat, clear: bool, stop: bool)

  /** A range that changes nothing. */
  const Pass := Verdict(0, 0, false, false)

  /** The outputs of a scan and the range lists as it leaves them. */
  datatype Outcome = Outcome(undetectable: nat, uncorrectable: nat, chips: Snapshot)

  /** One verdict per range, in the snapshot's shape. */
  predicate Shaped(t: seq<seq<Verdict>>, chips: Snapshot)
  {
    |t| == |chips| && forall c :: 0 <= c < |t| ==> |t[c]| == |chips[c]|
  }

  /** The verdicts `f(c, j)` of device `c`'s first `n` ranges. */
  function Row(f: (nat, nat) -> Verdict, c: nat, n: nat): (row: seq<Verdict>)
    ensures |row| == n
  {
    if n == 0 then [] else Row(f, c, n - 1) + [f(c, n - 1)]
  }

  /** One verdict per range of the devices from `c` on, in the snapshot's shape: the
      verdict of device `k`, position `j` is `f(k, j)`. */
  function Tabulate(f: (nat, nat) -> Verdict, chips: Snapshot, c: nat): (t: seq<seq<Verdict>>)
    requires c <= |chips|
    ensures |t| == |chips| - c
    ensures forall k :: 0 <= k < |t| ==> |t[k]| == |chips[c + k]|
    decreases |chips| - c
  {
    if c == |chips| then [] else [Row(f, c, |chips[c]|)] + Tabulate(f, chips, c + 1)
  }

  lemma {:induction false} RowAt(f: (nat, nat) -> Verdict, c: nat, n: nat, j: nat)
    requires j < n
    ensures Row(f, c, n)[j] == f(c, j)
  {
    if j < n - 1 {
      RowAt(f, c, n - 1, j);
    }
  }

  /** The table holds `f`'s verdict at every position. */
  lemma {:induction false} TabulateAt(f: (nat, nat) -> Verdict, chips: Snapshot, c: nat, k: nat, j: nat)
    requires c + k < |chips| && j < |chips[c + k]|
    ensures Shaped(Tabulate(f, chips, 0), chips)
    ensures Tabulate(f, chips, c)[k][j] == f(c + k, j)
    decreases k
  {
    if k == 0 {
      RowAt(f, c, |chips[c]|, j);
    } else {
      TabulateAt(f, chips, c + 1, k - 1, j);
    }
  }

  /** The organizing range at device `c`, position `j`, with its flag cleared. */
  function Lower(chips: Snapshot, c: nat, j: nat): (r: Snapshot)
    requires c < |chips| && j < |chips[c]|
    ensures Lowered(chips, r)
    ensures r[c][j] == chips[c][j].(transientRemove := false)
  {
    chips[c := chips[c][j := chips[c][j].(transientRemove := false)]]
  }

  /** Applies the verdict of the range at device `c`, position `j` (the scan only ever
      passes positions inside the lists). */
  function Apply(o: Outcome, c: nat, j: nat, v: Verdict): (r: Outcome)
    ensures Lowered(o.chips, r.chips)
  {
    Outcome(o.undetectable + v.undetectable, o.uncorrectable + v.uncorrectable,
      if v.clear && c < |o.chips| && j < |o.chips[c]| then Lower(o.chips, c, j) else o.chips)
  }

  predicate At(t: seq<seq<Verdict>>, c: nat, j: nat)
  {
    c <= |t| && (c < |t| ==> j <= |t[c]|)
  }

  /** The scan from device `c`, position `j` on: every organizing range in device order and
      list order, stopping right after a verdict that returns. */
  function Sweep(t: seq<seq<Verdict>>, c: nat, j: nat, o: Outcome): Outcome
    requires At(t, c, j)
    decreases |t| - c, if c < |t| then |t[c]| - j else 0
  {
    if c == |t| then o
    else if j == |t[c]| then Sweep(t, c + 1, 0, o)
    else
      var o' := Apply(o, c, j, t[c][j]);
      if t[c][j].stop then o' else Sweep(t, c, j + 1, o')
  }

  /** One step of the scan past a verdict that does not return. */
  lemma SweepStep(t: seq<seq<Verdict>>, c: nat, j: nat, o: Outcome)
    requires c < |t| && j < |t[c]| && !t[c][j].stop
    ensures Sweep(t, c, j, o) == Sweep(t, c, j + 1, Apply(o, c, j, t[c][j]))
  {
  }

  /** The scan ends right after a verdict that returns. */
  lemma SweepStop(t: seq<seq<Verdict>>, c: nat, j: nat, o: Outcome)
    requires c < |t| && j < |t[c]| && t[c][j].stop
    ensures Sweep(t, c, j, o) == Apply(o, c, j, t[c][j])
  {
  }

  /** Moving to the next device once a device's list is done. */
  lemma SweepNext(t: seq<seq<Verdict>>, c: nat, o: Outcome)
    requires c < |t|
    ensures Sweep(t, c, |t[c]|, o) == Sweep(t, c + 1, 0, o)
  {
  }

  /** A whole scan: both outputs start at 0. */
  function Run(t: seq<seq<Verdict>>, chips: Snapshot): Outcome
  {
    Sweep(t, 0, 0, Outcome(0, 0, chips))
  }

  lemma LoweredTrans(a: Snapshot, b: Snapshot, d: Snapshot)
    requires Lowered(a, b) && Lowered(b, d)
    ensures Lowered(a, d)
  {
  }

  /** A scan leaves every range in place and changes nothing in it but the
      `transient_remove` flag, which it can only clear. */
  lemma {:induction false} SweepLowers(t: seq<seq<Verdict>>, c: nat, j: nat, o: Outcome)
    requires At(t, c, j)
    ensures Lowered(o.chips, Sweep(t, c, j, o).chips)
    decreases |t| - c, if c < |t| then |t[c]| - j else 0
  {
    if c == |t| {
    } else if j == |t[c]| {
      SweepLowers(t, c + 1, 0, o);
    } else {
      var o' := Apply(o, c, j, t[c][j]);
      if !t[c][j].stop {
        SweepLowers(t, c, j + 1, o');
        LoweredTrans(o.chips, o'.chips, Sweep(t, c, j + 1, o').chips);
      }
    }
  }

  /** Whether some verdict of the table returns. */
  predicate NoStop(t: seq<seq<Verdict>>)
  {
    forall c, j :: 0 <= c < |t| && 0 <= j < |t[c]| ==> !t[c][j].stop
  }

  /** Sum of one output over a list of verdicts. */
  function RowSum(row: seq<Verdict>, uncorrectable: bool): nat
  {
    if row == [] then 0
    else (if uncorrectable then row[0].uncorrectable else row[0].undetectable) + RowSum(row[1..], uncorrectable)
  }

  /** Sum of one output over every verdict of the table. */
  function TableSum(t: seq<seq<Verdict>>, uncorrectable: bool): nat
  {
    if t == [] then 0 else RowSum(t[0], uncorrectable) + TableSum(t[1..], uncorrectable)
  }

  /** The output summed over the verdicts from device `c`, position `j` on. */
  function Rest(t: seq<seq<Verdict>>, c: nat, j: nat, uncorrectable: bool): nat
    requires At(t, c, j)
  {
    if c == |t| then 0 else RowSum(t[c][j..], uncorrectable) + TableSum(t[c + 1..], uncorrectable)
  }

  /** Whether position (k, i) comes at or after position (c, j) in scan order. */
  predicate From(k: nat, i: nat, c: nat, j: nat)
  {
    k > c || (k == c && i >= j)
  }

  /** A scan in which no verdict returns visits every organizing range: each output is the
      sum over all verdicts, and a range's flag is cleared exactly when its verdict says so. */
  lemma {:induction false} SweepComplete(t: seq<seq<Verdict>>, c: nat, j: nat, o: Outcome)
    requires Shaped(t, o.chips) && At(t, c, j) && NoStop(t)
    ensures var r := Sweep(t, c, j, o);
      && r.uncorrectable == o.uncorrectable + Rest(t, c, j, true)
      && r.undetectable == o.undetectable + Rest(t, c, j, false)
      && Shaped(t, r.chips)
      && forall k, i :: 0 <= k < |t| && 0 <= i < |t[k]| ==>
           r.chips[k][i] == if From(k, i, c, j) && t[k][i].clear then o.chips[k][i].(transientRemove := false) else o.chips[k][i]
    decreases |t| - c, if c < |t| then |t[c]| - j else 0
  {
    if c == |t| {
    } else if j == |t[c]| {
      SweepComplete(t, c + 1, 0, o);
      assert t[c][j..] == [];
      assert t[c..] == [t[c]] + t[c + 1..];
    } else {
      var o' := Apply(o, c, j, t[c][j]);
      SweepComplete(t, c, j + 1, o');
      assert t[c][j..][1..] == t[c][j + 1..];
    }
  }

  /** The whole scan when no verdict returns. */
  lemma RunComplete(t: seq<seq<Verdict>>, chips: Snapshot)
    requires Shaped(t, chips) && NoStop(t)
    ensures Run(t, chips).uncorrectable == TableSum(t, true)
    ensures Run(t, chips).undetectable == TableSum(t, false)
    ensures Shaped(t, Run(t, chips).chips)
    ensures forall k, i :: 0 <= k < |t| && 0 <= i < |t[k]| ==>
      Run(t, chips).chips[k][i] == if t[k][i].clear then chips[k][i].(transientRemove := false) else chips[k][i]
  {
    SweepComplete(t, 0, 0, Outcome(0, 0, chips));
    if |t| > 0 {
      assert t[0][0..] == t[0] && t[1..] == t[1..];
    }
  }

  /** Every verdict that adds to an output also returns. */
  predicate AddsOnlyOnReturn(t: seq<seq<Verdict>>)
  {
    forall c, j :: 0 <= c < |t| && 0 <= j < |t[c]| && t[c][j].uncorrectable + t[c][j].undetectable > 0 ==> t[c][j].stop
  }

  /** When only a returning verdict adds anything, a scan adds the outputs of at most one
      verdict, so it adds no more than the largest verdict does. */
  lemma {:induction false} SweepAddsOnce(t: seq<seq<Verdict>>, c: nat, j: nat, o: Outcome, bound: nat)
    requires At(t, c, j) && AddsOnlyOnReturn(t)
    requires forall k, i :: 0 <= k < |t| && 0 <= i < |t[k]| ==> t[k][i].uncorrectable + t[k][i].undetectable <= bound
    ensures Sweep(t, c, j, o).uncorrectable + Sweep(t, c, j, o).undetectable <= o.uncorrectable + o.undetectable + bound
    decreases |t| - c, if c < |t| then |t[c]| - j else 0
  {
    if c == |t| {
    } else if j == |t[c]| {
      SweepAddsOnce(t, c + 1, 0, o, bound);
    } else if !t[c][j].stop {
      SweepAddsOnce(t, c, j + 1, Apply(o, c, j, t[c][j]), bound);
    }
  }

  /** When no verdict adds to an output, the scan leaves that output where it started,
      whether or not some verdict returns. */
  lemma {:induction false} SweepAddsNothing(t: seq<seq<Verdict>>, c: nat, j: nat, o: Outcome, uncorrectable: bool)
    requires At(t, c, j)
    requires forall k, i :: 0 <= k < |t| && 0 <= i < |t[k]| ==>
      (if uncorrectable then t[k][i].uncorrectable else t[k][i].undetectable) == 0
    ensures uncorrectable ==> Sweep(t, c, j, o).uncorrectable == o.uncorrectable
    ensures !uncorrectable ==> Sweep(t, c, j, o).undetectable == o.undetectable
    decreases |t| - c, if c < |t| then |t[c]| - j else 0
  {
    if c == |t| {
    } else if j == |t[c]| {
      SweepAddsNothing(t, c + 1, 0, o, uncorrectable);
    } else if !t[c][j].stop {
      SweepAddsNothing(t, c, j + 1, Apply(o, c, j, t[c][j]), uncorrectable);
    }
  }
}
