/** The group level of the fault-domain tree: a DIMM or a 3D-stacked cube whose children are
    DRAM devices. A group sums its devices' fault counts, runs its repair schemes over their
    range lists and keeps the minimum each scheme reports, and, in a cube, owns the TSV
    bitmap its devices share and marks TSV faults in it. */
module FaultDomains {
  import opened Geometry
  import opened Options
  import opened FaultRanges
  import opened Schemes
  import opened DramDomain
  import opened Layout
  import ChipKill
  import Bch
  import BchCube
  import CubeRaid
  import ChipKillCube

  // ---------------------------------------------------------------- attached schemes

  /** A repair scheme attached to a group, with the settings it was built with. The cube
      schemes take the log2 of their block width. */
  datatype Repairer =
    | ChipKillRepair(nCorrect: nat, nDetect: nat)
    | BchRepair(nCorrect: nat, nDetect: nat)
    | BchCubeRepair(nCorrect: nat, nDetect: nat, blockShift: nat)
    | CubeRaidRepair(nCorrect: nat, nDetect: nat, blockShift: nat)
    | ChipKillCubeRepair(scheme: ChipKillCube.Scheme)

  /** The settings under which a scheme's repair runs without failing an assertion: ChipKill
      needs 18 devices per correctable symbol, BCH a supported strength, and the shifts fit
      the 32-bit `int` the cube schemes shift by. */
  predicate Runs(k: Repairer, devices: nat, cubeModelEnable: nat)
  {
    match k
    case ChipKillRepair(nc, _) => devices == 18 * nc
    case BchRepair(nc, _) => Bch.CodeShift(nc).Some?
    case BchCubeRepair(_, _, s) => s < 31
    case CubeRaidRepair(_, _, s) => s < 31
    case ChipKillCubeRepair(sc) => cubeModelEnable == 1 ==> sc.config.Shift() < 31
  }

  /** What one scheme reports for the devices' range lists, and the lists it leaves. */
  function SchemeOutcome(k: Repairer, cubeModelEnable: nat, continueRunning: bool, chips: Snapshot): Outcome
    requires Runs(k, |chips|, cubeModelEnable)
  {
    match k
    case ChipKillRepair(nc, nd) => ChipKill.Outputs(nc, nd, chips)
    case BchRepair(nc, nd) => Bch.Outputs(nc, nd, chips)
    case BchCubeRepair(nc, nd, s) => BchCube.Outputs(nc, nd, continueRunning, s, chips)
    case CubeRaidRepair(nc, nd, s) => CubeRaid.Outputs(nc, nd, continueRunning, s, chips)
    case ChipKillCubeRepair(sc) => ChipKillCube.Dispatch(sc.config, cubeModelEnable, chips)
  }

  /** The devices' lists after a scheme wrote its lists back, device by device. */
  function Written(chips: Snapshot, after: Snapshot): (r: Snapshot)
    ensures |r| == |chips|
    ensures forall i :: 0 <= i < |chips| ==> r[i] == if i < |after| then after[i] else chips[i]
  {
    seq(|chips|, i requires 0 <= i < |chips| => if i < |after| then after[i] else chips[i])
  }

  /** The lists scheme `i` sees: each scheme runs on what the ones before it left. */
  function Stage(ks: seq<Repairer>, cme: nat, cr: bool, chips: Snapshot, i: nat): (r: Snapshot)
    requires i <= |ks| && forall k :: k in ks ==> Runs(k, |chips|, cme)
    ensures |r| == |chips|
  {
    if i == 0 then chips
    else
      var before := Stage(ks, cme, cr, chips, i - 1);
      Written(before, SchemeOutcome(ks[i - 1], cme, cr, before).chips)
  }

  /** What scheme `i` reports. */
  function Report(ks: seq<Repairer>, cme: nat, cr: bool, chips: Snapshot, i: nat): Outcome
    requires i < |ks| && forall k :: k in ks ==> Runs(k, |chips|, cme)
  {
    SchemeOutcome(ks[i], cme, cr, Stage(ks, cme, cr, chips, i))
  }

  /** One of a report's two outputs. */
  function Picked(o: Outcome, uncorrectable: bool): nat
  {
    if uncorrectable then o.uncorrectable else o.undetectable
  }

  /** One output of every scheme, in the order the schemes run. */
  function Reports(ks: seq<Repairer>, cme: nat, cr: bool, chips: Snapshot, uncorrectable: bool): (r: seq<nat>)
    requires forall k :: k in ks ==> Runs(k, |chips|, cme)
    ensures |r| == |ks|
  {
    seq(|ks|, i requires 0 <= i < |ks| => Picked(Report(ks, cme, cr, chips, i), uncorrectable))
  }

  function Min(a: nat, b: nat): nat { if a < b then a else b }

  /** What a scheme's `fill_repl` reports: every scheme here reports 0. */
  function SchemeFillRepl(k: Repairer): nat { 0 }

  /** `min(start, vs[0], vs[1], ...)`, folded left to right. */
  function Least(start: nat, vs: seq<nat>): nat
  {
    if vs == [] then start else Min(Least(start, vs[..|vs| - 1]), vs[|vs| - 1])
  }

  /** `Least` is the minimum: no larger than the start or any value, and equal to the start
      or to one of the values. */
  lemma {:induction false} LeastIsMinimum(start: nat, vs: seq<nat>)
    ensures Least(start, vs) <= start
    ensures forall i :: 0 <= i < |vs| ==> Least(start, vs) <= vs[i]
    ensures Least(start, vs) == start || exists i :: 0 <= i < |vs| && Least(start, vs) == vs[i]
  {
    if vs != [] {
      var init := vs[..|vs| - 1];
      LeastIsMinimum(start, init);
      assert forall i :: 0 <= i < |init| ==> init[i] == vs[i];
    }
  }

  // ---------------------------------------------------------------- TSV marking

  /** The random draws of one cube interval: whether each kind of TSV fault occurs, and the
      raw value its location is taken from. */
  datatype TsvDraws = TsvDraws(transientFires: bool, transientLoc: nat, permanentFires: bool, permanentLoc: nat)

  /** Marks a TSV fault at `loc` in state `state` unless that TSV is already marked. */
  function Mark(bitmap: seq<bool>, info: seq<nat>, loc: nat, state: nat): (r: (seq<bool>, seq<nat>))
    requires loc < |bitmap| && loc < |info|
    ensures |r.0| == |bitmap| && |r.1| == |info|
    ensures r.0[loc] && forall k :: 0 <= k < |bitmap| && k != loc ==> r.0[k] == bitmap[k]
    ensures r.1[loc] == (if bitmap[loc] then info[loc] else state)
    ensures forall k :: 0 <= k < |info| && k != loc ==> r.1[k] == info[k]
  {
    if bitmap[loc] then (bitmap, info) else (bitmap[loc := true], info[loc := state])
  }

  /** A cube interval's marking: the transient draw marks state 1, then the permanent draw
      marks state 2, each at its location modulo the number of TSVs. */
  function Marks(bitmap: seq<bool>, info: seq<nat>, t: TsvDraws): (r: (seq<bool>, seq<nat>))
    requires |bitmap| == |info| && (t.transientFires || t.permanentFires ==> |bitmap| > 0)
    ensures |r.0| == |bitmap| && |r.1| == |info|
  {
    var first := if t.transientFires then Mark(bitmap, info, t.transientLoc % |bitmap|, 1) else (bitmap, info);
    if t.permanentFires then Mark(first.0, first.1, t.permanentLoc % |bitmap|, 2) else first
  }

  /** Marking never clears a mark and never changes the state of a TSV already marked. */
  lemma MarksKeepMarked(bitmap: seq<bool>, info: seq<nat>, t: TsvDraws, k: nat)
    requires |bitmap| == |info| && (t.transientFires || t.permanentFires ==> |bitmap| > 0)
    requires k < |bitmap| && bitmap[k]
    ensures Marks(bitmap, info, t).0[k] && Marks(bitmap, info, t).1[k] == info[k]
  {
  }

  /** The labels cross over: an unmarked TSV the transient draw hits gets state 1, which its
      device materialises as permanent ranges; the permanent draw after it cannot change
      that state. */
  lemma TransientMarkIsPermanent(g: Geometry, bitmap: seq<bool>, info: seq<nat>, t: TsvDraws, cdt: nat)
    requires |bitmap| == |info| && |bitmap| > 0 && cdt > 0
    requires t.transientFires && !bitmap[t.transientLoc % |bitmap|]
    ensures var loc := t.transientLoc % |bitmap|;
      var r := Marks(bitmap, info, t);
      TsvAt(g, r.0[loc], r.1[loc], loc, cdt) == TsvFault(g, false, loc, cdt)
  {
  }

  // ---------------------------------------------------------------- summed counts

  /** Transient faults of the devices `cs`. */
  function SumTransient(cs: seq<Chip>): nat
    reads cs`faultsTransient
  {
    if cs == [] then 0 else SumTransient(cs[..|cs| - 1]) + cs[|cs| - 1].faultsTransient
  }

  /** Permanent faults of the devices `cs`. */
  function SumPermanent(cs: seq<Chip>): nat
    reads cs`faultsPermanent
  {
    if cs == [] then 0 else SumPermanent(cs[..|cs| - 1]) + cs[|cs| - 1].faultsPermanent
  }

  /** The devices' range lists, as the schemes see them. */
  function Lists(cs: seq<Chip>): (r: Snapshot)
    reads cs`ranges
    ensures |r| == |cs| && forall i :: 0 <= i < |cs| ==> r[i] == cs[i].ranges
  {
    if cs == [] then [] else Lists(cs[..|cs| - 1]) + [cs[|cs| - 1].ranges]
  }

  /** With every device counted, the sum is zero only when every device has no fault. */
  lemma {:induction false} SumsZero(cs: seq<Chip>)
    ensures SumTransient(cs) + SumPermanent(cs) == 0 <==> forall i :: 0 <= i < |cs| ==> cs[i].FaultCount() == 0
  {
    if cs != [] {
      SumsZero(cs[..|cs| - 1]);
      var init := cs[..|cs| - 1];
      assert forall i :: 0 <= i < |init| ==> init[i] == cs[i];
    }
  }

  /** Every device of `cs` sits at one position only, the one `index` gives it. */
  ghost predicate Indexed(cs: seq<Chip>, index: map<Chip, nat>)
  {
    forall i :: 0 <= i < |cs| ==> cs[i] in index && index[cs[i]] == i
  }

  /** After the first `i` devices were updated: those advanced their interval and did not
      lose faults, the rest are as they were (`n0`, `f0`), and `newFault` says whether any
      updated device gained a fault. */
  ghost predicate Progress(cs: seq<Chip>, n0: seq<nat>, f0: seq<nat>, i: nat, newFault: bool)
    reads cs`currInterval, cs`faultsTransient, cs`faultsPermanent
  {
    && |n0| == |f0| == |cs| && i <= |cs|
    && (forall j :: 0 <= j < |cs| ==> cs[j].currInterval == n0[j] + (if j < i then 1 else 0))
    && (forall j :: 0 <= j < |cs| ==> cs[j].FaultCount() >= f0[j] && (i <= j ==> cs[j].FaultCount() == f0[j]))
    && (newFault <==> exists j :: 0 <= j < i && cs[j].FaultCount() > f0[j])
  }

  /** What updating the devices `cs` with `draws` needs: each device valid, with its TSV
      slice inside the TSV arrays when TSV faults are on; the arrays the updates write in
      `arrays`; and every device at one position only (`index`). */
  ghost predicate Ready(cs: seq<Chip>, draws: seq<Draws>, arrays: set<array<nat>>, index: map<Chip, nat>)
    reads cs`tsvInfo, cs`cubeModelEnable, cs`enableTsv, cs`childrenCounter, cs`cubeDataTsv, cs`tsvBitmap
  {
    && |draws| == |cs|
    && (forall i :: 0 <= i < |cs| ==> draws[i].Valid() && cs[i].Valid() && (cs[i].TsvOn() ==> cs[i].SliceInBounds()))
    && (forall i :: 0 <= i < |cs| ==> cs[i].transientClass in arrays && cs[i].permanentClass in arrays && cs[i].tsvInfo in arrays)
    && Indexed(cs, index)
  }

  /** One turn of the update loop: updates device `i`. */
  method UpdateNext(cs: seq<Chip>, c: Chip, ghost arrays: set<array<nat>>, ghost index: map<Chip, nat>, i: nat,
    testMode: nat, draws: seq<Draws>, ghost n0: seq<nat>, ghost f0: seq<nat>, newFault: bool) returns (fault: bool)
    requires i < |cs| && c == cs[i] && Ready(cs, draws, arrays, index) && Progress(cs, n0, f0, i, newFault)
    modifies c`ranges, c`faultsTransient, c`faultsPermanent, c`transientTsv, c`permanentTsv,
      c`currInterval, c.transientClass, c.permanentClass, c.tsvInfo
    ensures Progress(cs, n0, f0, i + 1, fault)
  {
    var fired := c.Update(testMode, draws[i]);
    fault := newFault || fired;
  }

  /** Updates the devices in order, each once, and reports whether any fault count grew. */
  method UpdateAll(cs: seq<Chip>, ghost arrays: set<array<nat>>, ghost index: map<Chip, nat>, testMode: nat, draws: seq<Draws>) returns (newFault: bool)
    requires Ready(cs, draws, arrays, index)
    modifies cs`ranges, cs`faultsTransient, cs`faultsPermanent, cs`transientTsv, cs`permanentTsv,
      cs`currInterval, arrays
    ensures forall i :: 0 <= i < |cs| ==> cs[i].currInterval == old(cs[i].currInterval) + 1
    ensures forall i :: 0 <= i < |cs| ==> cs[i].FaultCount() >= old(cs[i].FaultCount())
    ensures newFault <==> exists i :: 0 <= i < |cs| && cs[i].FaultCount() > old(cs[i].FaultCount())
  {
    ghost var n0: seq<nat> := seq(|cs|, j requires 0 <= j < |cs| reads cs => cs[j].currInterval);
    ghost var f0: seq<nat> := seq(|cs|, j requires 0 <= j < |cs| reads cs => cs[j].FaultCount());
    newFault := false;
    var i := 0;
    while i < |cs|
      invariant i <= |cs| && Progress(cs, n0, f0, i, newFault)
    {
      newFault := UpdateNext(cs, cs[i], arrays, index, i, testMode, draws, n0, f0, newFault);
      i := i + 1;
    }
  }

  /** `repair` of every device: each counts an undetected and an uncorrected error when it
      has any fault. The sums the source adds up here are overwritten by the group's own
      repair, so they are not kept. */
  method RepairDevices(cs: seq<Chip>, ghost index: map<Chip, nat>)
    requires Indexed(cs, index)
    modifies cs`errorsUndetected, cs`errorsUncorrected
    ensures forall i :: 0 <= i < |cs| ==> cs[i].ranges == old(cs[i].ranges)
    ensures forall i :: 0 <= i < |cs| ==>
      cs[i].errorsUndetected == old(cs[i].errorsUndetected) + (if cs[i].FaultCount() > 0 then 1 else 0)
    ensures forall i :: 0 <= i < |cs| ==>
      cs[i].errorsUncorrected == old(cs[i].errorsUncorrected) + (if cs[i].FaultCount() > 0 then 1 else 0)
  {
    var i := 0;
    while i < |cs|
      invariant i <= |cs|
      invariant forall j :: 0 <= j < |cs| ==>
        cs[j].errorsUndetected == old(cs[j].errorsUndetected) + (if j < i && cs[j].FaultCount() > 0 then 1 else 0)
      invariant forall j :: 0 <= j < |cs| ==>
        cs[j].errorsUncorrected == old(cs[j].errorsUncorrected) + (if j < i && cs[j].FaultCount() > 0 then 1 else 0)
    {
      var _, _ := cs[i].Repair();
      i := i + 1;
    }
  }

  /** `fill_repl` of every device: each counts an uncorrected error when it has any fault.
      The group overwrites the sum the source adds up here. */
  method FillReplDevices(cs: seq<Chip>, ghost index: map<Chip, nat>)
    requires Indexed(cs, index)
    modifies cs`errorsUncorrected
    ensures forall i :: 0 <= i < |cs| ==>
      cs[i].errorsUncorrected == old(cs[i].errorsUncorrected) + (if cs[i].FaultCount() > 0 then 1 else 0)
  {
    var i := 0;
    while i < |cs|
      invariant i <= |cs|
      invariant forall j :: 0 <= j < |cs| ==>
        cs[j].errorsUncorrected == old(cs[j].errorsUncorrected) + (if j < i && cs[j].FaultCount() > 0 then 1 else 0)
    {
      var _ := cs[i].FillRepl();
      i := i + 1;
    }
  }

  /** `scrub` of every device: each erases the transient ranges its last repair left
      removable. */
  method ScrubDevices(cs: seq<Chip>, ghost index: map<Chip, nat>)
    requires Indexed(cs, index) && forall i :: 0 <= i < |cs| ==> ScrubScan(cs[i].ranges).Some?
    modifies cs`ranges
    ensures forall i :: 0 <= i < |cs| ==> cs[i].ranges == ScrubScan(old(cs[i].ranges)).value
  {
    var i := 0;
    while i < |cs|
      invariant i <= |cs|
      invariant forall j :: 0 <= j < |cs| ==>
        cs[j].ranges == if j < i then ScrubScan(old(cs[j].ranges)).value else old(cs[j].ranges)
    {
      cs[i].Scrub();
      i := i + 1;
    }
  }

  /** `finalize` of every device: each records a failed trial when it has any fault, and an
      undetected or uncorrected one when its error counters say so. */
  method FinalizeDevices(cs: seq<Chip>, ghost index: map<Chip, nat>)
    requires Indexed(cs, index)
    modifies cs`statFailures, cs`statFailuresUndetected, cs`statFailuresUncorrected
    ensures forall i :: 0 <= i < |cs| ==>
      cs[i].statFailures == old(cs[i].statFailures) + (if cs[i].FaultCount() != 0 then 1 else 0)
    ensures forall i :: 0 <= i < |cs| ==>
      cs[i].statFailuresUndetected == old(cs[i].statFailuresUndetected) + (if cs[i].errorsUndetected != 0 then 1 else 0)
    ensures forall i :: 0 <= i < |cs| ==>
      cs[i].statFailuresUncorrected == old(cs[i].statFailuresUncorrected) + (if cs[i].errorsUncorrected != 0 then 1 else 0)
  {
    var i := 0;
    while i < |cs|
      invariant i <= |cs|
      invariant forall j :: 0 <= j < |cs| ==>
        cs[j].statFailures == old(cs[j].statFailures) + (if j < i && cs[j].FaultCount() != 0 then 1 else 0)
      invariant forall j :: 0 <= j < |cs| ==>
        cs[j].statFailuresUndetected == old(cs[j].statFailuresUndetected) + (if j < i && cs[j].errorsUndetected != 0 then 1 else 0)
      invariant forall j :: 0 <= j < |cs| ==>
        cs[j].statFailuresUncorrected == old(cs[j].statFailuresUncorrected) + (if j < i && cs[j].errorsUncorrected != 0 then 1 else 0)
    {
      cs[i].Finalize();
      i := i + 1;
    }
  }

  /** `reset` of every device: each starts a trial with no fault, no error and no range. */
  method ResetDevices(cs: seq<Chip>, ghost index: map<Chip, nat>)
    requires Indexed(cs, index)
    modifies cs`faultsTransient, cs`faultsPermanent, cs`errorsUndetected, cs`errorsUncorrected,
      cs`statSimulations, cs`ranges
    ensures forall i :: 0 <= i < |cs| ==> cs[i].FaultCount() == 0 && cs[i].ranges == []
    ensures forall i :: 0 <= i < |cs| ==> cs[i].errorsUndetected == 0 && cs[i].errorsUncorrected == 0
    ensures forall i :: 0 <= i < |cs| ==> cs[i].statSimulations == old(cs[i].statSimulations) + 1
  {
    var i := 0;
    while i < |cs|
      invariant i <= |cs|
      invariant forall j :: 0 <= j < i ==> cs[j].FaultCount() == 0 && cs[j].ranges == []
      invariant forall j :: 0 <= j < i ==> cs[j].errorsUndetected == 0 && cs[j].errorsUncorrected == 0
      invariant forall j :: 0 <= j < |cs| ==> cs[j].statSimulations == old(cs[j].statSimulations) + (if j < i then 1 else 0)
    {
      cs[i].Reset();
      i := i + 1;
    }
  }

  /** `resetStats` of every device. */
  method ResetStatsDevices(cs: seq<Chip>, ghost index: map<Chip, nat>)
    requires Indexed(cs, index)
    modifies cs`statSimulations, cs`statFailures, cs`statFailuresUndetected, cs`statFailuresUncorrected
    ensures forall i :: 0 <= i < |cs| ==> cs[i].statSimulations == 0 && cs[i].statFailures == 0
    ensures forall i :: 0 <= i < |cs| ==> cs[i].statFailuresUndetected == 0 && cs[i].statFailuresUncorrected == 0
  {
    var i := 0;
    while i < |cs|
      invariant i <= |cs|
      invariant forall j :: 0 <= j < i ==> cs[j].statSimulations == 0 && cs[j].statFailures == 0
      invariant forall j :: 0 <= j < i ==> cs[j].statFailuresUndetected == 0 && cs[j].statFailuresUncorrected == 0
    {
      cs[i].ResetStats();
      i := i + 1;
    }
  }

  /** A scheme works on the range lists in place; the model hands it the lists as values and
      stores the lists it returns back into the devices. */
  method WriteBack(cs: seq<Chip>, ghost index: map<Chip, nat>, after: Snapshot)
    requires Indexed(cs, index)
    modifies cs`ranges
    ensures Lists(cs) == Written(old(Lists(cs)), after)
    ensures forall i :: 0 <= i < |cs| ==>
      cs[i].errorsUndetected == old(cs[i].errorsUndetected) && cs[i].errorsUncorrected == old(cs[i].errorsUncorrected)
      && cs[i].FaultCount() == old(cs[i].FaultCount())
  {
    ghost var before := Lists(cs);
    var i := 0;
    while i < |cs|
      invariant i <= |cs|
      invariant forall j :: 0 <= j < |cs| ==> cs[j].ranges == if j < i && j < |after| then after[j] else before[j]
    {
      if i < |after| {
        cs[i].ranges := after[i];
      }
      i := i + 1;
    }
  }

  /** After the first `s` schemes ran from `start`: `after` is what they left, and each
      output is the least of `start` and what they reported. */
  ghost predicate SchemesRan(ks: seq<Repairer>, cme: nat, cr: bool, chips: Snapshot, start: nat, s: nat,
    after: Snapshot, undetectable: nat, uncorrectable: nat)
    requires forall k :: k in ks ==> Runs(k, |chips|, cme)
  {
    && s <= |ks| && after == Stage(ks, cme, cr, chips, s)
    && undetectable == Least(start, Reports(ks, cme, cr, chips, false)[..s])
    && uncorrectable == Least(start, Reports(ks, cme, cr, chips, true)[..s])
  }

  /** One turn of the scheme loop: runs scheme `s`. */
  method SchemeStep(ks: seq<Repairer>, cme: nat, cr: bool, chips: Snapshot, start: nat, s: nat,
    after: Snapshot, undetectable: nat, uncorrectable: nat) returns (after': Snapshot, undetectable': nat, uncorrectable': nat)
    requires forall k :: k in ks ==> Runs(k, |chips|, cme)
    requires s < |ks| && SchemesRan(ks, cme, cr, chips, start, s, after, undetectable, uncorrectable)
    ensures SchemesRan(ks, cme, cr, chips, start, s + 1, after', undetectable', uncorrectable')
  {
    var o := RunScheme(ks[s], cme, cr, after);
    ReportAt(ks, cme, cr, chips, s);
    LeastNext(start, Reports(ks, cme, cr, chips, false), s);
    LeastNext(start, Reports(ks, cme, cr, chips, true), s);
    uncorrectable' := Min(uncorrectable, o.uncorrectable);
    undetectable' := Min(undetectable, o.undetectable);
    after' := Written(after, o.chips);
  }

  /** The scheme half of `FaultDomain::repair`, on the devices' lists as values: starting
      from `start`, every scheme in turn runs on the lists the ones before it left, and each
      output drops to what a scheme reports when that is less. */
  method RepairSchemes(ks: seq<Repairer>, cme: nat, continueRunning: bool, chips: Snapshot, start: nat)
    returns (after: Snapshot, undetectable: nat, uncorrectable: nat)
    requires forall k :: k in ks ==> Runs(k, |chips|, cme)
    ensures after == Stage(ks, cme, continueRunning, chips, |ks|)
    ensures undetectable == Least(start, Reports(ks, cme, continueRunning, chips, false))
    ensures uncorrectable == Least(start, Reports(ks, cme, continueRunning, chips, true))
  {
    after, undetectable, uncorrectable := chips, start, start;
    var s := 0;
    while s < |ks|
      invariant SchemesRan(ks, cme, continueRunning, chips, start, s, after, undetectable, uncorrectable)
    {
      after, undetectable, uncorrectable := SchemeStep(ks, cme, continueRunning, chips, start, s,
        after, undetectable, uncorrectable);
      s := s + 1;
    }
    assert Reports(ks, cme, continueRunning, chips, false)[..s] == Reports(ks, cme, continueRunning, chips, false);
    assert Reports(ks, cme, continueRunning, chips, true)[..s] == Reports(ks, cme, continueRunning, chips, true);
  }

  /** Scheme `i`'s two outputs, as `Reports` lists them. */
  lemma ReportAt(ks: seq<Repairer>, cme: nat, cr: bool, chips: Snapshot, i: nat)
    requires i < |ks| && forall k :: k in ks ==> Runs(k, |chips|, cme)
    ensures var o := SchemeOutcome(ks[i], cme, cr, Stage(ks, cme, cr, chips, i));
      Reports(ks, cme, cr, chips, false)[i] == o.undetectable && Reports(ks, cme, cr, chips, true)[i] == o.uncorrectable
  {
  }

  /** Folding one more value into `Least`. */
  lemma LeastNext(start: nat, vs: seq<nat>, i: nat)
    requires i < |vs|
    ensures Least(start, vs[..i + 1]) == Min(Least(start, vs[..i]), vs[i])
  {
    assert vs[..i + 1][..i] == vs[..i];
  }

  /** Writing back lists for every device replaces them all. */
  lemma WrittenWhole(chips: Snapshot, after: Snapshot)
    requires |after| == |chips|
    ensures Written(chips, after) == after
  {
  }

  /** `FaultDomain::repair` below the group's own counters: the devices repair, then the
      schemes run on their lists from `start`, the group's fault count (which the devices'
      repairs leave as it is), and the lists they leave are stored back. */
  method RepairTree(cs: seq<Chip>, ghost index: map<Chip, nat>, ks: seq<Repairer>, cme: nat,
    continueRunning: bool, start: nat) returns (undetectable: nat, uncorrectable: nat)
    requires Indexed(cs, index) && forall k :: k in ks ==> Runs(k, |cs|, cme)
    modifies cs`errorsUndetected, cs`errorsUncorrected, cs`ranges
    ensures forall i :: 0 <= i < |cs| ==>
      cs[i].errorsUndetected == old(cs[i].errorsUndetected) + (if cs[i].FaultCount() > 0 then 1 else 0)
    ensures forall i :: 0 <= i < |cs| ==>
      cs[i].errorsUncorrected == old(cs[i].errorsUncorrected) + (if cs[i].FaultCount() > 0 then 1 else 0)
    ensures Lists(cs) == Stage(ks, cme, continueRunning, old(Lists(cs)), |ks|)
    ensures undetectable == Least(start, Reports(ks, cme, continueRunning, old(Lists(cs)), false))
    ensures uncorrectable == Least(start, Reports(ks, cme, continueRunning, old(Lists(cs)), true))
  {
    var chips := Lists(cs);
    RepairDevices(cs, index);
    var after;
    after, undetectable, uncorrectable := RepairSchemes(ks, cme, continueRunning, chips, start);
    WrittenWhole(chips, after);
    WriteBack(cs, index, after);
  }

  /** The device half of the failure test in `FaultDomain::finalize`: scans the devices and
      stops at the first one with a fault. */
  method AnyFaulty(cs: seq<Chip>) returns (failure: bool)
    ensures failure <==> exists i :: 0 <= i < |cs| && cs[i].FaultCount() != 0
  {
    failure := false;
    var i := 0;
    while i < |cs|
      invariant i <= |cs| && forall j :: 0 <= j < i ==> cs[j].FaultCount() == 0
    {
      if cs[i].faultsPermanent + cs[i].faultsTransient != 0 {
        failure := true;
        break;
      }
      i := i + 1;
    }
  }

  /** The device half of `FaultDomain::finalize`: the devices finalize, then the scan
      reports whether any of them has a fault, that is, whether their summed count is not
      zero. */
  method FinalizeTree(cs: seq<Chip>, ghost index: map<Chip, nat>) returns (childFailed: bool)
    requires Indexed(cs, index)
    modifies cs`statFailures, cs`statFailuresUndetected, cs`statFailuresUncorrected
    ensures forall i :: 0 <= i < |cs| ==>
      cs[i].statFailures == old(cs[i].statFailures) + (if cs[i].FaultCount() != 0 then 1 else 0)
    ensures forall i :: 0 <= i < |cs| ==>
      cs[i].statFailuresUndetected == old(cs[i].statFailuresUndetected) + (if cs[i].errorsUndetected != 0 then 1 else 0)
    ensures forall i :: 0 <= i < |cs| ==>
      cs[i].statFailuresUncorrected == old(cs[i].statFailuresUncorrected) + (if cs[i].errorsUncorrected != 0 then 1 else 0)
    ensures childFailed <==> SumTransient(cs) + SumPermanent(cs) != 0
  {
    FinalizeDevices(cs, index);
    childFailed := AnyFaulty(cs);
    SumsZero(cs);
  }

  /** The cube schemes' objects among `ks`. */
  function CubeSchemes(ks: seq<Repairer>): set<ChipKillCube.Scheme>
  {
    set k | k in ks && k.ChipKillCubeRepair? :: k.scheme
  }

  /** `clear_counters` of every attached scheme: only a cube scheme keeps counters. */
  method ClearCubeCounters(ks: seq<Repairer>)
    modifies CubeSchemes(ks)`counterPrev, CubeSchemes(ks)`counterNow
    ensures forall k :: k in ks && k.ChipKillCubeRepair? ==> k.scheme.counterPrev == 0 && k.scheme.counterNow == 0
  {
    var s := 0;
    while s < |ks|
      invariant s <= |ks|
      invariant forall j :: 0 <= j < s && ks[j].ChipKillCubeRepair? ==>
        ks[j].scheme.counterPrev == 0 && ks[j].scheme.counterNow == 0
    {
      if ks[s].ChipKillCubeRepair? {
        ks[s].scheme.ClearCounters();
      }
      s := s + 1;
    }
  }

  /** Runs one attached scheme's `repair` over the devices' lists. */
  method RunScheme(k: Repairer, cubeModelEnable: nat, continueRunning: bool, chips: Snapshot) returns (o: Outcome)
    requires Runs(k, |chips|, cubeModelEnable)
    ensures o == SchemeOutcome(k, cubeModelEnable, continueRunning, chips)
  {
    var u, c, after;
    match k {
    case ChipKillRepair(nc, nd) =>
      u, c, after := ChipKill.Repair(nc, nd, chips);
    case BchRepair(nc, nd) =>
      u, c, after := Bch.Repair(nc, nd, chips);
    case BchCubeRepair(nc, nd, s) =>
      u, c, after := BchCube.Repair(nc, nd, continueRunning, s, chips);
    case CubeRaidRepair(nc, nd, s) =>
      u, c, after := CubeRaid.Repair(nc, nd, continueRunning, s, chips);
    case ChipKillCubeRepair(sc) =>
      u, c, after := sc.Repair(cubeModelEnable, chips);
    }
    o := Outcome(u, c, after);
  }

  // ---------------------------------------------------------------- cube sizing

  /** Number of TSVs of a cube (no address TSVs are counted): per chip, the ECC, redundant
      and data TSVs with horizontal channels (model 1); otherwise the redundant TSVs per chip
      and the ECC and data TSVs per bank. */
  function CubeTsvCount(cubeModel: nat, chips: nat, banks: nat, dataTsv: nat, eccTsv: nat, redunTsv: nat): nat
  {
    var addrTsv := 0;
    if cubeModel == 1 then (addrTsv + eccTsv + redunTsv + dataTsv) * chips
    else (addrTsv + redunTsv) * chips + (eccTsv + dataTsv) * banks
  }

  /** With horizontal channels every chip's slice of the data TSVs lies inside the arrays. */
  lemma HorizontalSlicesFit(chips: nat, banks: nat, dataTsv: nat, eccTsv: nat, redunTsv: nat, c: nat)
    requires c < chips
    ensures (c + 1) * dataTsv <= CubeTsvCount(1, chips, banks, dataTsv, eccTsv, redunTsv)
  {
    MulMonotone(c + 1, chips, dataTsv);
    MulMonotone(chips, chips, dataTsv);
    assert (eccTsv + redunTsv + dataTsv) * chips == (eccTsv + redunTsv) * chips + dataTsv * chips;
  }

  /** With vertical channels the slices lie inside the arrays when there are no more chips
      than banks. */
  lemma VerticalSlicesFit(cubeModel: nat, chips: nat, banks: nat, dataTsv: nat, eccTsv: nat, redunTsv: nat, c: nat)
    requires cubeModel != 1 && c < chips <= banks
    ensures (c + 1) * dataTsv <= CubeTsvCount(cubeModel, chips, banks, dataTsv, eccTsv, redunTsv)
  {
    MulMonotone(c + 1, banks, dataTsv);
    assert (eccTsv + dataTsv) * banks == eccTsv * banks + dataTsv * banks;
  }

  // ---------------------------------------------------------------- the group

  class Group {
    /** A cube group (`GroupDomain_cube`) marks TSV faults and drops its devices' update
        results; a DIMM group updates like any fault domain. */
    const cube: bool
    /** The devices, in the order they were attached, and the attached schemes. */
    var children: seq<Chip>
    var schemes: seq<Repairer>
    /** The position of every device in `children`. */
    ghost var index: map<Chip, nat>
    /** The per-class arrays of the devices, which their updates write. */
    ghost var classArrays: set<array<nat>>
    /** Per-trial counts of the group's own faults and errors. */
    var faultsTransient: nat
    var faultsPermanent: nat
    var errorsUndetected: nat
    var errorsUncorrected: nat
    /** Cross-trial statistics. */
    var statSimulations: nat
    var statFailures: nat
    var statFailuresUndetected: nat
    var statFailuresUncorrected: nat
    /** Cube settings, copied into every device attached. */
    const cubeModelEnable: nat
    const enableTsv: nat
    const cubeDataTsv: nat
    /** The TSVs of a cube: which are faulty, and in which state. */
    const totalTsv: nat
    const tsvBitmap: array<bool>
    const tsvInfo: array<nat>
    var tsvTransientFaults: nat
    var tsvPermanentFaults: nat

    /** The arrays have one entry per TSV; the devices are distinct, valid, and wired to this
        group's settings and arrays. */
    ghost predicate Valid()
      reads this`children, this`index, this`classArrays, children`cubeModelEnable, children`enableTsv, children`cubeDataTsv,
        children`tsvBitmap, children`tsvInfo
    {
      && tsvBitmap.Length == totalTsv && tsvInfo.Length == totalTsv
      && Indexed(children, index)
      && (forall i :: 0 <= i < |children| ==> Wired(children[i]))
      && (forall i :: 0 <= i < |children| ==> children[i].transientClass in classArrays && children[i].permanentClass in classArrays)
    }

    /** Every device is attached once, at the position `index` records. */
    ghost predicate Distinct()
      reads this`children, this`index
    {
      Indexed(children, index)
    }

    predicate Wired(c: Chip)
      reads c`cubeModelEnable, c`enableTsv, c`cubeDataTsv, c`tsvBitmap, c`tsvInfo
    {
      && c.Valid() && c.cubeModelEnable == cubeModelEnable && c.enableTsv == enableTsv
      && c.cubeDataTsv == cubeDataTsv && c.tsvBitmap == tsvBitmap && c.tsvInfo == tsvInfo
    }

    /** `getFaultCountTrans`, `getFaultCountPerm`: own faults plus every device's. */
    function FaultCountTrans(): nat
      reads this`faultsTransient, this`children, children`faultsTransient
    {
      faultsTransient + SumTransient(children)
    }

    function FaultCountPerm(): nat
      reads this`faultsPermanent, this`children, children`faultsPermanent
    {
      faultsPermanent + SumPermanent(children)
    }

    function FaultCount(): nat
      reads this`faultsTransient, this`faultsPermanent, this`children, children`faultsTransient,
        children`faultsPermanent
    {
      FaultCountPerm() + FaultCountTrans()
    }

    /** A DIMM group: no devices, no schemes, cube mode off and no TSVs. */
    constructor Dimm()
      ensures !cube && children == [] && schemes == [] && Valid()
      ensures faultsTransient == 0 && faultsPermanent == 0 && errorsUndetected == 0 && errorsUncorrected == 0
      ensures statSimulations == 0 && statFailures == 0 && statFailuresUndetected == 0 && statFailuresUncorrected == 0
      ensures cubeModelEnable == 0 && enableTsv == 0 && cubeDataTsv == 0 && totalTsv == 0
      ensures tsvTransientFaults == 0 && tsvPermanentFaults == 0
    {
      cube := false;
      children, schemes, index, classArrays := [], [], map[], {};
      faultsTransient, faultsPermanent, errorsUndetected, errorsUncorrected := 0, 0, 0, 0;
      statSimulations, statFailures, statFailuresUndetected, statFailuresUncorrected := 0, 0, 0, 0;
      cubeModelEnable, enableTsv, cubeDataTsv, totalTsv := 0, 0, 0, 0;
      tsvBitmap := new bool[0];
      tsvInfo := new nat[0];
      tsvTransientFaults, tsvPermanentFaults := 0, 0;
    }

    /** A cube group: the data TSVs are half the burst size and the TSV arrays are sized by
        the channel model, every TSV unmarked. */
    constructor Cube(cubeModel: nat, chips: nat, banks: nat, burstSize: nat, eccTsv: nat, redunTsv: nat, enable: bool)
      ensures cube && children == [] && schemes == [] && Valid()
      ensures cubeModelEnable == cubeModel && enableTsv == (if enable then 1 else 0) && cubeDataTsv == burstSize / 2
      ensures totalTsv == CubeTsvCount(cubeModel, chips, banks, burstSize / 2, eccTsv, redunTsv)
      ensures fresh(tsvBitmap) && fresh(tsvInfo)
      ensures tsvBitmap[..] == seq(totalTsv, _ => false) && tsvInfo[..] == seq(totalTsv, _ => 0)
      ensures faultsTransient == 0 && faultsPermanent == 0 && errorsUndetected == 0 && errorsUncorrected == 0
      ensures statSimulations == 0 && statFailures == 0 && statFailuresUndetected == 0 && statFailuresUncorrected == 0
      ensures tsvTransientFaults == 0 && tsvPermanentFaults == 0
    {
      cube := true;
      children, schemes, index, classArrays := [], [], map[], {};
      faultsTransient, faultsPermanent, errorsUndetected, errorsUncorrected := 0, 0, 0, 0;
      statSimulations, statFailures, statFailuresUndetected, statFailuresUncorrected := 0, 0, 0, 0;
      cubeModelEnable := cubeModel;
      enableTsv := if enable then 1 else 0;
      cubeDataTsv := burstSize / 2;
      var total := CubeTsvCount(cubeModel, chips, banks, burstSize / 2, eccTsv, redunTsv);
      totalTsv := total;
      tsvBitmap := new bool[total](_ => false);
      tsvInfo := new nat[total](_ => 0);
      tsvTransientFaults, tsvPermanentFaults := 0, 0;
    }

    /** Attaches a device, copying the cube settings and TSV arrays into it and giving it its
        index among the devices. */
    method AddDomain(c: Chip, counter: nat)
      requires Valid() && c.Valid() && c !in children
      requires tsvInfo != c.transientClass && tsvInfo != c.permanentClass
      modifies this`children, this`index, this`classArrays, c`cubeModelEnable, c`tsvBitmap, c`cubeDataTsv, c`tsvInfo,
        c`childrenCounter, c`enableTsv
      ensures children == old(children) + [c] && Valid()
      ensures c.Wiring() == (cubeModelEnable, enableTsv, cubeDataTsv, counter, tsvBitmap, tsvInfo)
    {
      c.Attach(cubeModelEnable, tsvBitmap, cubeDataTsv, tsvInfo, counter, enableTsv);
      index := index[c := |children|];
      classArrays := classArrays + {c.transientClass, c.permanentClass};
      children := children + [c];
    }

    /** What an update with `draws` needs: a valid group and one valid draw per device, and
        every device with TSV faults on has its slice inside the TSV arrays. */
    ghost predicate Updatable(draws: seq<Draws>)
      reads this`children, this`index, this`classArrays, children`cubeModelEnable, children`enableTsv,
        children`cubeDataTsv, children`tsvBitmap, children`tsvInfo, children`childrenCounter
    {
      && Valid() && |draws| == |children|
      && forall i :: 0 <= i < |children| ==> draws[i].Valid() && (children[i].TsvOn() ==> children[i].SliceInBounds())
    }

    /** `FaultDomain::update`: updates every device, without stopping at the first that
        reports a fault, and reports whether any device's fault count grew. */
    method UpdateChildren(testMode: nat, draws: seq<Draws>) returns (newFault: bool)
      requires Updatable(draws)
      modifies children`ranges, children`faultsTransient, children`faultsPermanent,
        children`transientTsv, children`permanentTsv, children`currInterval, classArrays, tsvInfo
      ensures forall i :: 0 <= i < |children| ==> children[i].currInterval == old(children[i].currInterval) + 1
      ensures forall i :: 0 <= i < |children| ==> children[i].FaultCount() >= old(children[i].FaultCount())
      ensures newFault <==> exists i :: 0 <= i < |children| && children[i].FaultCount() > old(children[i].FaultCount())
    {
      newFault := UpdateAll(children, classArrays + {tsvInfo}, index, testMode, draws);
    }

    /** The cube's TSV draws: each firing draw counts a fault of its kind and marks the TSV at
        its location, transient draws with state 1 and permanent ones with state 2. */
    method MarkTsv(t: TsvDraws)
      requires tsvBitmap.Length == tsvInfo.Length == totalTsv
      requires t.transientFires || t.permanentFires ==> totalTsv > 0
      modifies tsvBitmap, tsvInfo, this`tsvTransientFaults, this`tsvPermanentFaults
      ensures (tsvBitmap[..], tsvInfo[..]) == Marks(old(tsvBitmap[..]), old(tsvInfo[..]), t)
      ensures tsvTransientFaults == old(tsvTransientFaults) + (if t.transientFires then 1 else 0)
      ensures tsvPermanentFaults == old(tsvPermanentFaults) + (if t.permanentFires then 1 else 0)
    {
      ghost var first := if t.transientFires then Mark(tsvBitmap[..], tsvInfo[..], t.transientLoc % totalTsv, 1)
        else (tsvBitmap[..], tsvInfo[..]);
      if t.transientFires {
        tsvTransientFaults := tsvTransientFaults + 1;
        var location := t.transientLoc % totalTsv;
        if !tsvBitmap[location] {
          tsvBitmap[location] := true;
          tsvInfo[location] := 1;
        }
      }
      assert (tsvBitmap[..], tsvInfo[..]) == first;
      if t.permanentFires {
        tsvPermanentFaults := tsvPermanentFaults + 1;
        var location := t.permanentLoc % totalTsv;
        if !tsvBitmap[location] {
          tsvBitmap[location] := true;
          tsvInfo[location] := 2;
        }
      }
    }

    /** One interval of the group. A cube with TSV faults enabled first draws and marks TSV
        faults; every device is then updated. A cube reports only whether a TSV draw fired,
        whatever its devices added; a DIMM reports whether any device added a fault. */
    method Update(testMode: nat, draws: seq<Draws>, t: TsvDraws) returns (newFault: bool)
      requires Updatable(draws)
      requires cube && enableTsv != 0 && (t.transientFires || t.permanentFires) ==> totalTsv > 0
      modifies children`ranges, children`faultsTransient, children`faultsPermanent,
        children`transientTsv, children`permanentTsv, children`currInterval, classArrays, tsvInfo,
        tsvBitmap, this`tsvTransientFaults, this`tsvPermanentFaults
      ensures forall i :: 0 <= i < |children| ==> children[i].currInterval == old(children[i].currInterval) + 1
      ensures cube ==> (newFault <==> enableTsv != 0 && (t.transientFires || t.permanentFires))
      ensures !cube ==> (newFault <==> exists i :: 0 <= i < |children| && children[i].FaultCount() > old(children[i].FaultCount()))
      ensures tsvBitmap[..] == if cube && enableTsv != 0 then Marks(old(tsvBitmap[..]), old(tsvInfo[..]), t).0 else old(tsvBitmap[..])
      ensures var marking := cube && enableTsv != 0;
        && tsvTransientFaults == old(tsvTransientFaults) + (if marking && t.transientFires then 1 else 0)
        && tsvPermanentFaults == old(tsvPermanentFaults) + (if marking && t.permanentFires then 1 else 0)
    {
      if cube {
        newFault := false;
        if enableTsv != 0 {
          MarkTsv(t);
          newFault := t.transientFires || t.permanentFires;
        }
        ghost var bitmap := tsvBitmap[..];
        var _ := UpdateChildren(testMode, draws);
        assert tsvBitmap[..] == bitmap;
      } else {
        newFault := UpdateChildren(testMode, draws);
      }
    }

    /** `FaultDomain::repair`: the devices repair first; then the group's fault count is the
        default outcome and every scheme, in the order attached, runs on the lists the ones
        before it left and lowers each output to what it reports if that is less. A nonzero
        output counts an error of its kind. */
    method Repair(continueRunning: bool) returns (undetectable: nat, uncorrectable: nat)
      requires Distinct() && forall k :: k in schemes ==> Runs(k, |children|, cubeModelEnable)
      modifies children`errorsUndetected, children`errorsUncorrected, children`ranges,
        this`errorsUndetected, this`errorsUncorrected
      ensures forall i :: 0 <= i < |children| ==>
        children[i].errorsUndetected == old(children[i].errorsUndetected) + (if children[i].FaultCount() > 0 then 1 else 0)
      ensures forall i :: 0 <= i < |children| ==>
        children[i].errorsUncorrected == old(children[i].errorsUncorrected) + (if children[i].FaultCount() > 0 then 1 else 0)
      ensures Lists(children) == Stage(schemes, cubeModelEnable, continueRunning, old(Lists(children)), |schemes|)
      ensures undetectable == Least(old(FaultCount()), Reports(schemes, cubeModelEnable, continueRunning, old(Lists(children)), false))
      ensures uncorrectable == Least(old(FaultCount()), Reports(schemes, cubeModelEnable, continueRunning, old(Lists(children)), true))
      ensures errorsUndetected == old(errorsUndetected) + (if undetectable > 0 then 1 else 0)
      ensures errorsUncorrected == old(errorsUncorrected) + (if uncorrectable > 0 then 1 else 0)
    {
      undetectable, uncorrectable := RepairTree(children, index, schemes, cubeModelEnable, continueRunning,
        FaultCount());
      CountErrors(undetectable, uncorrectable);
    }

    /** Counts an error of each kind whose outcome is nonzero; the devices are left as they
        are. */
    method CountErrors(undetectable: nat, uncorrectable: nat)
      modifies this`errorsUndetected, this`errorsUncorrected
      ensures errorsUndetected == old(errorsUndetected) + (if undetectable > 0 then 1 else 0)
      ensures errorsUncorrected == old(errorsUncorrected) + (if uncorrectable > 0 then 1 else 0)
      ensures Lists(children) == old(Lists(children))
      ensures forall i :: 0 <= i < |children| ==>
        children[i].errorsUndetected == old(children[i].errorsUndetected)
        && children[i].errorsUncorrected == old(children[i].errorsUncorrected)
        && children[i].FaultCount() == old(children[i].FaultCount())
    {
      if undetectable > 0 {
        errorsUndetected := errorsUndetected + 1;
      }
      if uncorrectable > 0 {
        errorsUncorrected := errorsUncorrected + 1;
      }
    }

    /** `FaultDomain::fill_repl`: the devices' checks first; the group's fault count is the
        default outcome, and every attached scheme's `fill_repl` reports 0, so any scheme
        brings it to 0. A nonzero outcome counts an uncorrected error. */
    method FillRepl() returns (uncorrectable: nat)
      requires Distinct()
      modifies children`errorsUncorrected, this`errorsUncorrected
      ensures forall i :: 0 <= i < |children| ==>
        children[i].errorsUncorrected == old(children[i].errorsUncorrected) + (if children[i].FaultCount() > 0 then 1 else 0)
      ensures uncorrectable == if schemes == [] then FaultCount() else 0
      ensures errorsUncorrected == old(errorsUncorrected) + (if uncorrectable > 0 then 1 else 0)
    {
      FillReplDevices(children, index);
      uncorrectable := FaultCountPerm() + FaultCountTrans();
      var s := 0;
      while s < |schemes|
        invariant s <= |schemes| && uncorrectable == if s == 0 then FaultCount() else 0
      {
        uncorrectable := Min(uncorrectable, SchemeFillRepl(schemes[s]));
        s := s + 1;
      }
      if uncorrectable > 0 {
        errorsUncorrected := errorsUncorrected + 1;
      }
    }

    /** `FaultDomain::scrub`: scrubs every device. */
    method Scrub()
      requires Distinct() && forall i :: 0 <= i < |children| ==> ScrubScan(children[i].ranges).Some?
      modifies children`ranges
      ensures forall i :: 0 <= i < |children| ==> children[i].ranges == ScrubScan(old(children[i].ranges)).value
    {
      ScrubDevices(children, index);
    }

    /** `FaultDomain::finalize`: the devices finalize; the group records a failed trial when
        it or any device has a fault (the source checks the devices again, which adds
        nothing), and undetected or uncorrected trials from its own error counters; the
        cube schemes' counters are cleared. */
    method Finalize()
      requires Distinct()
      modifies children`statFailures, children`statFailuresUndetected, children`statFailuresUncorrected,
        this`statFailures, this`statFailuresUndetected, this`statFailuresUncorrected,
        CubeSchemes(schemes)`counterPrev, CubeSchemes(schemes)`counterNow
      ensures forall i :: 0 <= i < |children| ==>
        children[i].statFailures == old(children[i].statFailures) + (if children[i].FaultCount() != 0 then 1 else 0)
      ensures forall i :: 0 <= i < |children| ==>
        children[i].statFailuresUndetected == old(children[i].statFailuresUndetected) + (if children[i].errorsUndetected != 0 then 1 else 0)
      ensures forall i :: 0 <= i < |children| ==>
        children[i].statFailuresUncorrected == old(children[i].statFailuresUncorrected) + (if children[i].errorsUncorrected != 0 then 1 else 0)
      ensures statFailures == old(statFailures) + (if old(FaultCount()) != 0 then 1 else 0)
      ensures statFailuresUndetected == old(statFailuresUndetected) + (if errorsUndetected != 0 then 1 else 0)
      ensures statFailuresUncorrected == old(statFailuresUncorrected) + (if errorsUncorrected != 0 then 1 else 0)
      ensures forall k :: k in schemes && k.ChipKillCubeRepair? ==> k.scheme.counterPrev == 0 && k.scheme.counterNow == 0
    {
      var childFailed := FinalizeTree(children, index);
      var failure := FaultCount() != 0 || childFailed;
      assert failure == (old(FaultCount()) != 0);
      CountFailures(failure);
      ClearCubeCounters(schemes);
    }

    /** Records the trial: failed when `failure`, undetected or uncorrected when the group's
        own error counters say so. */
    method CountFailures(failure: bool)
      modifies this`statFailures, this`statFailuresUndetected, this`statFailuresUncorrected
      ensures statFailures == old(statFailures) + (if failure then 1 else 0)
      ensures statFailuresUndetected == old(statFailuresUndetected) + (if errorsUndetected != 0 then 1 else 0)
      ensures statFailuresUncorrected == old(statFailuresUncorrected) + (if errorsUncorrected != 0 then 1 else 0)
    {
      if failure {
        statFailures := statFailures + 1;
      }
      if errorsUndetected != 0 {
        statFailuresUndetected := statFailuresUndetected + 1;
      }
      if errorsUncorrected != 0 {
        statFailuresUncorrected := statFailuresUncorrected + 1;
      }
    }

    /** `FaultDomain::reset`: starts a trial. The group and every device drop their faults,
        errors and ranges, and count one more trial. */
    method Reset()
      requires Distinct()
      modifies this`faultsTransient, this`faultsPermanent, this`errorsUndetected, this`errorsUncorrected,
        this`statSimulations, children`faultsTransient, children`faultsPermanent, children`errorsUndetected,
        children`errorsUncorrected, children`statSimulations, children`ranges
      ensures faultsTransient == 0 && faultsPermanent == 0 && errorsUndetected == 0 && errorsUncorrected == 0
      ensures statSimulations == old(statSimulations) + 1
      ensures forall i :: 0 <= i < |children| ==> children[i].FaultCount() == 0 && children[i].ranges == []
      ensures forall i :: 0 <= i < |children| ==> children[i].errorsUndetected == 0 && children[i].errorsUncorrected == 0
      ensures forall i :: 0 <= i < |children| ==> children[i].statSimulations == old(children[i].statSimulations) + 1
      ensures FaultCount() == 0
    {
      faultsTransient, faultsPermanent := 0, 0;
      errorsUndetected, errorsUncorrected := 0, 0;
      statSimulations := statSimulations + 1;
      ResetDevices(children, index);
      SumsZero(children);
    }

    /** `FaultDomain::resetStats`: zeroes the cross-trial statistics of the group and of every
        device; the schemes keep no statistics. */
    method ResetStats()
      requires Distinct()
      modifies this`statSimulations, this`statFailures, this`statFailuresUndetected, this`statFailuresUncorrected,
        children`statSimulations, children`statFailures, children`statFailuresUndetected, children`statFailuresUncorrected
      ensures statSimulations == 0 && statFailures == 0 && statFailuresUndetected == 0 && statFailuresUncorrected == 0
      ensures forall i :: 0 <= i < |children| ==> children[i].statSimulations == 0 && children[i].statFailures == 0
      ensures forall i :: 0 <= i < |children| ==> children[i].statFailuresUndetected == 0 && children[i].statFailuresUncorrected == 0
    {
      statSimulations, statFailures := 0, 0;
      statFailuresUndetected, statFailuresUncorrected := 0, 0;
      ResetStatsDevices(children, index);
    }

    /** Attaches a repair scheme after the ones already attached. */
    method AddRepair(k: Repairer)
      modifies this`schemes
      ensures schemes == old(schemes) + [k]
    {
      schemes := schemes + [k];
    }
  }
}
