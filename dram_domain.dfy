/** One DRAM device (DRAMDomain.cpp): its list of fault ranges, its per-trial fault and
    error counters, its cross-trial statistics and its share of the through-silicon-via
    (TSV) state of the cube it belongs to. A device has no children and no repair schemes of
    its own, so the generic domain operations reduce to its own counters. */
module DramDomain {
  import opened Geometry
  import opened Layout
  import opened Options
  import opened FaultRanges
  import opened RangeGen

  /** A probability, or a uniform draw compared with one, as a numerator over one fixed
      denominator: the source's doubles in [0, 1] read as fixed-point fractions, so that a
      draw fires exactly when its numerator does not exceed the probability's. */
  newtype Chance = x: int | 0 <= x

  /** The random inputs of one interval: per fault class, the uniform draws compared with the
      transient and permanent probabilities, and the 32-bit location draws of the range each
      kind creates when it fires. */
  datatype Draws = Draws(transient: seq<Chance>, permanent: seq<Chance>,
                         transientAt: seq<Fields>, permanentAt: seq<Fields>)
  {
    predicate Valid()
    {
      |transient| == DramMax && |permanent| == DramMax
      && |transientAt| == DramMax && |permanentAt| == DramMax
    }
  }

  /** Whether class `i` of one kind injects a fault: in normal mode (test mode 0) the draw
      must not exceed the probability; in test mode k exactly class k - 1 fires. */
  predicate Fires(testMode: nat, i: nat, draw: Chance, probability: Chance)
  {
    if testMode == 0 then draw <= probability else i == testMode - 1
  }

  /** 1 when class `i` of one kind fires, else 0. */
  function Hit(testMode: nat, i: nat, draw: Chance, probability: Chance): nat
  {
    if Fires(testMode, i, draw, probability) then 1 else 0
  }

  /** Number of classes below `n` that fire. */
  function Fired(testMode: nat, draws: seq<Chance>, probs: seq<Chance>, n: nat): nat
    requires n <= |draws| && n <= |probs|
  {
    if n == 0 then 0
    else Fired(testMode, draws, probs, n - 1) + Hit(testMode, n - 1, draws[n - 1], probs[n - 1])
  }

  /** The arguments of one genRandomRange call: which fields are fixed, the kind, the
      position in the row given for a TSV fault, the TSV flag and the location draws. */
  datatype Request = Request(pattern: Pattern, transient: bool, rowbit: Option<u64>, tsv: bool, at: Fields)

  /** The range one call builds. */
  function Realize(g: Geometry, q: Request): FaultRange
    requires g.Valid()
  {
    GenRange(g, q.pattern, q.transient, q.rowbit, q.tsv, q.at)
  }

  /** The ranges a sequence of calls builds, in call order. */
  function Realized(g: Geometry, qs: seq<Request>): (r: seq<FaultRange>)
    requires g.Valid()
    ensures |r| == |qs|
  {
    seq(|qs|, k requires 0 <= k < |qs| => Realize(g, qs[k]))
  }

  lemma RealizedAppend(g: Geometry, a: seq<Request>, b: seq<Request>)
    requires g.Valid()
    ensures Realized(g, a + b) == Realized(g, a) + Realized(g, b)
  {
  }

  /** The call one kind of class `i` makes: none when it does not fire. */
  function KindRequests(fires: bool, i: nat, transient: bool, at: Fields): seq<Request>
    requires i < DramMax
  {
    if fires then [Request(ClassPattern(i), transient, None, false, at)] else []
  }

  /** The calls class `i` makes: the transient one before the permanent one. */
  function ClassRequests(testMode: nat, d: Draws, i: nat, tp: Chance, pp: Chance): seq<Request>
    requires d.Valid() && i < DramMax
  {
    KindRequests(Fires(testMode, i, d.transient[i], tp), i, true, d.transientAt[i])
    + KindRequests(Fires(testMode, i, d.permanent[i], pp), i, false, d.permanentAt[i])
  }

  /** The calls the classes below `n` make, in class order. */
  function DieRequests(testMode: nat, d: Draws, tp: seq<Chance>, pp: seq<Chance>, n: nat): seq<Request>
    requires d.Valid() && |tp| == DramMax && |pp| == DramMax && n <= DramMax
  {
    if n == 0 then []
    else DieRequests(testMode, d, tp, pp, n - 1) + ClassRequests(testMode, d, n - 1, tp[n - 1], pp[n - 1])
  }

  /** The die-fault counters of a device: the aggregate transient and permanent counts and
      the per-class counts of each kind. */
  datatype Tally = Tally(transient: nat, permanent: nat, transientClass: seq<nat>, permanentClass: seq<nat>)
  {
    predicate Valid()
    {
      |transientClass| == DramMax && |permanentClass| == DramMax
    }
  }

  /** The counters after class `i` was drawn with probabilities `tp` and `pp`. */
  function ClassTally(t: Tally, testMode: nat, d: Draws, i: nat, tp: Chance, pp: Chance): (r: Tally)
    requires t.Valid() && d.Valid() && i < DramMax
    ensures r.Valid()
  {
    var th, ph := Hit(testMode, i, d.transient[i], tp), Hit(testMode, i, d.permanent[i], pp);
    Tally(t.transient + th, t.permanent + ph,
      t.transientClass[i := t.transientClass[i] + th], t.permanentClass[i := t.permanentClass[i] + ph])
  }

  /** The counters after the classes below `n` were drawn, in class order. */
  function DieTally(t: Tally, testMode: nat, d: Draws, tp: seq<Chance>, pp: seq<Chance>, n: nat): (r: Tally)
    requires t.Valid() && d.Valid() && |tp| == DramMax && |pp| == DramMax && n <= DramMax
    ensures r.Valid()
  {
    if n == 0 then t
    else ClassTally(DieTally(t, testMode, d, tp, pp, n - 1), testMode, d, n - 1, tp[n - 1], pp[n - 1])
  }

  /** Drawing the classes below `n` adds the number of firing classes of each kind to the
      aggregate counts, and one to the count of each firing class; the other classes keep
      their counts. */
  lemma {:induction false} DieTallyCounts(t: Tally, testMode: nat, d: Draws, tp: seq<Chance>, pp: seq<Chance>, n: nat)
    requires t.Valid() && d.Valid() && |tp| == DramMax && |pp| == DramMax && n <= DramMax
    ensures var r := DieTally(t, testMode, d, tp, pp, n);
      && r.transient == t.transient + Fired(testMode, d.transient, tp, n)
      && r.permanent == t.permanent + Fired(testMode, d.permanent, pp, n)
      && (forall k :: 0 <= k < DramMax ==>
            r.transientClass[k] == t.transientClass[k] + (if k < n then Hit(testMode, k, d.transient[k], tp[k]) else 0))
      && (forall k :: 0 <= k < DramMax ==>
            r.permanentClass[k] == t.permanentClass[k] + (if k < n then Hit(testMode, k, d.permanent[k], pp[k]) else 0))
  {
    if n > 0 {
      DieTallyCounts(t, testMode, d, tp, pp, n - 1);
    }
  }

  /** In test mode k (1 to 7) the classes below `n` fire once per kind when they include
      class k - 1, and not at all otherwise, whatever the draws. */
  lemma {:induction false} TestModeFired(testMode: nat, draws: seq<Chance>, probs: seq<Chance>, n: nat)
    requires 1 <= testMode <= DramMax && n <= |draws| && n <= |probs|
    ensures Fired(testMode, draws, probs, n) == if n >= testMode then 1 else 0
  {
    if n > 0 {
      TestModeFired(testMode, draws, probs, n - 1);
    }
  }

  /** In test mode k (1 to 7) an interval makes exactly two calls: a transient and then a
      permanent range of class k - 1, at the locations drawn for that class. */
  lemma {:induction false} TestModeRequests(testMode: nat, d: Draws, tp: seq<Chance>, pp: seq<Chance>, n: nat)
    requires 1 <= testMode <= DramMax && d.Valid() && |tp| == DramMax && |pp| == DramMax && n <= DramMax
    ensures var k := testMode - 1;
      DieRequests(testMode, d, tp, pp, n) ==
        if n >= testMode then [Request(ClassPattern(k), true, None, false, d.transientAt[k]),
                               Request(ClassPattern(k), false, None, false, d.permanentAt[k])]
        else []
  {
    if n > 0 {
      TestModeRequests(testMode, d, tp, pp, n - 1);
      var k := testMode - 1;
      var step := ClassRequests(testMode, d, n - 1, tp[n - 1], pp[n - 1]);
      var pair := [Request(ClassPattern(k), true, None, false, d.transientAt[k]),
                   Request(ClassPattern(k), false, None, false, d.permanentAt[k])];
      assert DieRequests(testMode, d, tp, pp, n) == DieRequests(testMode, d, tp, pp, n - 1) + step;
      if n - 1 == k {
        assert step == [pair[0]] + [pair[1]] == pair;
        assert DieRequests(testMode, d, tp, pp, n - 1) == [];
      } else {
        assert step == [];
        assert DieRequests(testMode, d, tp, pp, n - 1) + [] == DieRequests(testMode, d, tp, pp, n - 1);
      }
    }
  }

  /** In test mode k (1 to 7) an interval adds one fault of each kind, both to class k - 1. */
  lemma TestModeTally(t: Tally, testMode: nat, d: Draws, tp: seq<Chance>, pp: seq<Chance>)
    requires 1 <= testMode <= DramMax && t.Valid() && d.Valid() && |tp| == DramMax && |pp| == DramMax
    ensures var r := DieTally(t, testMode, d, tp, pp, DramMax);
      && r.transient == t.transient + 1 && r.permanent == t.permanent + 1
      && r.transientClass == t.transientClass[testMode - 1 := t.transientClass[testMode - 1] + 1]
      && r.permanentClass == t.permanentClass[testMode - 1 := t.permanentClass[testMode - 1] + 1]
  {
    DieTallyCounts(t, testMode, d, tp, pp, DramMax);
    TestModeFired(testMode, d.transient, tp, DramMax);
    TestModeFired(testMode, d.permanent, pp, DramMax);
  }

  // ---------------------------------------------------------------- TSV faults

  /** No location draws: a TSV range has no fixed field. */
  const NoDraws: Fields := Fields(0, 0, 0, 0, 0)

  /** Ranges one TSV fault becomes: `m_cols * m_bitwidth / cube_data_tsv`, the product
      taken in 32 bits. */
  function TsvRangeCount(g: Geometry, cdt: nat): nat
    requires cdt > 0
  {
    ((g.cols * g.bitwidth) % MaxDeviceSize) / cdt
  }

  /** Position in the row of the `j`-th range of the TSV at index `ii`. */
  function TsvRowbit(ii: nat, cdt: nat, j: nat): nat
    requires cdt > 0
  {
    ii % cdt + j * cdt
  }

  /** Every position a TSV fault gives lies in the row, so fits 32 bits. */
  lemma RowbitBound(g: Geometry, ii: nat, cdt: nat, j: nat)
    requires cdt > 0 && j < TsvRangeCount(g, cdt)
    ensures TsvRowbit(ii, cdt, j) < MaxDeviceSize
  {
    var x := (g.cols * g.bitwidth) % MaxDeviceSize;
    MulMonotone(j + 1, x / cdt, cdt);
    assert (x / cdt) * cdt <= x;
  }

  /** The call for the `j`-th range of the TSV at index `ii`: rank, bank and row wild, and
      one position in the row fixed. */
  function TsvRequest(g: Geometry, transient: bool, ii: nat, cdt: nat, j: nat): Request
    requires cdt > 0 && j < TsvRangeCount(g, cdt)
  {
    RowbitBound(g, ii, cdt, j);
    Request(TsvPattern, transient, Some(TsvRowbit(ii, cdt, j)), true, NoDraws)
  }

  /** The calls one TSV fault makes. */
  function TsvFault(g: Geometry, transient: bool, ii: nat, cdt: nat): (r: seq<Request>)
    requires cdt > 0
    ensures |r| == TsvRangeCount(g, cdt)
  {
    seq(TsvRangeCount(g, cdt), j requires 0 <= j < TsvRangeCount(g, cdt) => TsvRequest(g, transient, ii, cdt, j))
  }

  /** The calls the TSV at index `ii` makes: when marked, state 1 gives permanent ranges and
      state 2 transient ones. */
  function TsvAt(g: Geometry, marked: bool, state: nat, ii: nat, cdt: nat): seq<Request>
    requires cdt > 0
  {
    if marked && state == 1 then TsvFault(g, false, ii, cdt)
    else if marked && state == 2 then TsvFault(g, true, ii, cdt)
    else []
  }

  /** The state of a TSV once materialised: permanent (1) becomes 3, transient (2) becomes 4. */
  function NewState(marked: bool, state: nat): nat
  {
    if marked && state == 1 then 3 else if marked && state == 2 then 4 else state
  }

  /** 1 when a TSV is marked and in state `target`, else 0. */
  function TsvHit(marked: bool, state: nat, target: nat): nat
  {
    if marked && state == target then 1 else 0
  }

  /** The calls the TSVs at indices `lo` to `n - 1` make, in index order. */
  function TsvRequests(g: Geometry, bitmap: seq<bool>, info: seq<nat>, lo: nat, n: nat, cdt: nat): seq<Request>
    requires lo <= n <= |bitmap| && n <= |info| && (lo < n ==> cdt > 0)
    decreases n - lo
  {
    if n == lo then []
    else TsvRequests(g, bitmap, info, lo, n - 1, cdt) + TsvAt(g, bitmap[n - 1], info[n - 1], n - 1, cdt)
  }

  /** Number of indices from `lo` to `n - 1` that are marked and in state `state`. */
  function TsvCount(bitmap: seq<bool>, info: seq<nat>, lo: nat, n: nat, state: nat): nat
    requires lo <= n <= |bitmap| && n <= |info|
    decreases n - lo
  {
    if n == lo then 0
    else TsvCount(bitmap, info, lo, n - 1, state) + TsvHit(bitmap[n - 1], info[n - 1], state)
  }

  /** A TSV fault materialises at most once: the state it moves to makes no calls and counts
      as neither kind, and moving it again changes nothing. */
  lemma TsvOnce(g: Geometry, marked: bool, state: nat, ii: nat, cdt: nat)
    requires cdt > 0
    ensures TsvAt(g, marked, NewState(marked, state), ii, cdt) == []
    ensures TsvHit(marked, NewState(marked, state), 1) == 0 && TsvHit(marked, NewState(marked, state), 2) == 0
    ensures NewState(marked, NewState(marked, state)) == NewState(marked, state)
  {
  }

  /** The TSV labels cross over: state 1 yields permanent ranges and state 2 transient ones,
      each one position of the row wide and marked as TSV ranges. */
  lemma TsvFaultRanges(g: Geometry, marked: bool, state: nat, ii: nat, cdt: nat)
    requires g.Valid() && cdt > 0 && marked && (state == 1 || state == 2)
    ensures var rs := Realized(g, TsvAt(g, marked, state, ii, cdt));
      && |rs| == TsvRangeCount(g, cdt)
      && forall j :: 0 <= j < |rs| ==>
           rs[j].tsv && rs[j].transient == (state == 2) && rs[j].maxFaults == GenMaxFaults(g, TsvPattern, Some(TsvRowbit(ii, cdt, j)))
  {
  }

  /** A device's slice of the TSV arrays holds `cube_data_tsv` indices. */
  lemma SliceWidth(counter: nat, cdt: nat)
    ensures (counter + 1) * cdt == counter * cdt + cdt
  {
  }

  lemma AppendAssoc<T>(a: seq<T>, b: seq<T>, c: seq<T>)
    ensures (a + b) + c == a + (b + c)
  {
  }

  // ---------------------------------------------------------------- scrubbing

  /** A range scrubbing erases: transient and still removable. */
  predicate Erasable(r: FaultRange)
  {
    r.transient && r.transientRemove
  }

  /** The list after the scrub loop. Erasing returns the next position, which the loop then
      advances past, so the range after an erased one is kept unexamined; when the erased
      range is the last one the loop advances past the end, which is undefined (None). */
  function ScrubScan(rs: seq<FaultRange>): Option<seq<FaultRange>>
    decreases |rs|
  {
    if |rs| == 0 then Some([])
    else if !Erasable(rs[0]) then
      match ScrubScan(rs[1..])
      case None => None
      case Some(t) => Some([rs[0]] + t)
    else if |rs| == 1 then None
    else
      match ScrubScan(rs[2..])
      case None => None
      case Some(t) => Some([rs[1]] + t)
  }

  /** One iteration of the scrub loop at position `i`: a kept range moves into the prefix;
      an erased range has a successor, which moves into the prefix unexamined. */
  lemma ScrubStep(rs: seq<FaultRange>, i: nat)
    requires i < |rs| && ScrubScan(rs[i..]).Some?
    ensures !Erasable(rs[i]) ==>
      && ScrubScan(rs[i + 1..]).Some?
      && rs[..i + 1] + ScrubScan(rs[i + 1..]).value == rs[..i] + ScrubScan(rs[i..]).value
    ensures Erasable(rs[i]) ==>
      && i + 1 < |rs|
      && var rs' := rs[..i] + rs[i + 1..];
      && ScrubScan(rs'[i + 1..]).Some?
      && rs'[..i + 1] + ScrubScan(rs'[i + 1..]).value == rs[..i] + ScrubScan(rs[i..]).value
  {
    var tail := rs[i..];
    assert tail[1..] == rs[i + 1..];
    assert rs[..i + 1] == rs[..i] + [rs[i]];
    if Erasable(rs[i]) && i + 1 < |rs| {
      var rs' := rs[..i] + rs[i + 1..];
      assert tail[2..] == rs[i + 2..] == rs'[i + 1..];
      assert rs'[..i + 1] == rs[..i] + [rs[i + 1]];
    }
  }

  /** Scrubbing only removes ranges: it keeps every permanent range and every range whose
      removal a repair scheme vetoed, and adds nothing. */
  lemma {:induction false} ScrubKeeps(rs: seq<FaultRange>)
    requires ScrubScan(rs).Some?
    ensures multiset(ScrubScan(rs).value) <= multiset(rs)
    ensures forall r :: r in rs && !Erasable(r) ==> r in ScrubScan(rs).value
    decreases |rs|
  {
    if |rs| > 0 {
      if !Erasable(rs[0]) {
        ScrubKeeps(rs[1..]);
        assert rs == [rs[0]] + rs[1..];
      } else {
        ScrubKeeps(rs[2..]);
        assert rs == [rs[0]] + [rs[1]] + rs[2..];
      }
    }
  }

  /** The range right after an erased one survives the scrub even when it is erasable, and
      erasing the last range runs past the end of the list. */
  lemma ScrubSkipsNext(a: FaultRange, b: FaultRange, c: FaultRange)
    requires Erasable(a) && Erasable(b) && !Erasable(c)
    ensures ScrubScan([a, b, c]) == Some([b, c])
    ensures ScrubScan([c, a]) == None
  {
    var none: seq<FaultRange> := [];
    assert ScrubScan(none) == Some([]);
    assert [c][1..] == none;
    assert [c] + [] == [c];
    assert ScrubScan([c]) == Some([c]);
    assert [a, b, c][2..] == [c];
    assert [b] + [c] == [b, c];
    assert [c, a][1..] == [a];
  }

  // ---------------------------------------------------------------- the device

  class Chip {
    /** Sizes of the device; the logs are derived from them. */
    const geom: Geometry
    /** `m_faultRanges`. */
    var ranges: seq<FaultRange>
    /** Per-trial raw fault counts and post-repair error counts. */
    var faultsTransient: nat
    var faultsPermanent: nat
    var errorsUndetected: nat
    var errorsUncorrected: nat
    /** Cross-trial statistics. */
    var statSimulations: nat
    var statFailures: nat
    var statFailuresUndetected: nat
    var statFailuresUncorrected: nat
    /** Per-class fault counts and the TSV fault counts. */
    const transientClass: array<nat>
    const permanentClass: array<nat>
    var transientTsv: nat
    var permanentTsv: nat
    /** Per-class probabilities of a fault within one interval. */
    const transientFIT: array<Chance>
    const permanentFIT: array<Chance>
    var currInterval: nat
    /** Cube settings copied from the parent when the device is attached. */
    var cubeModelEnable: nat
    var enableTsv: nat
    var cubeDataTsv: nat
    var childrenCounter: nat
    /** The parent's TSV arrays, shared with it and with every sibling. */
    var tsvBitmap: array<bool>
    var tsvInfo: array<nat>

    /** One entry per fault class in each per-class array, and the device's own arrays are
        distinct from each other and from the shared TSV states. */
    predicate Valid()
      reads this`tsvInfo
    {
      && geom.Valid()
      && transientClass.Length == DramMax && permanentClass.Length == DramMax
      && transientFIT.Length == DramMax && permanentFIT.Length == DramMax
      && transientClass != permanentClass && transientFIT != permanentFIT
      && tsvInfo != transientClass && tsvInfo != permanentClass
    }

    /** The settings and arrays a parent installs when it attaches the device. */
    function Wiring(): (nat, nat, nat, nat, array<bool>, array<nat>)
      reads this`cubeModelEnable, this`enableTsv, this`cubeDataTsv, this`childrenCounter, this`tsvBitmap, this`tsvInfo
    {
      (cubeModelEnable, enableTsv, cubeDataTsv, childrenCounter, tsvBitmap, tsvInfo)
    }

    /** Installs the settings and TSV arrays of the parent that attaches the device
        (`FaultDomain::addDomain`), with its position among the parent's devices. */
    method Attach(cme: nat, bitmap: array<bool>, dataTsv: nat, info: array<nat>, counter: nat, enable: nat)
      requires Valid() && info != transientClass && info != permanentClass
      modifies this`cubeModelEnable, this`tsvBitmap, this`cubeDataTsv, this`tsvInfo, this`childrenCounter, this`enableTsv
      ensures Valid() && Wiring() == (cme, enable, dataTsv, counter, bitmap, info)
    {
      cubeModelEnable := cme;
      tsvBitmap := bitmap;
      cubeDataTsv := dataTsv;
      tsvInfo := info;
      childrenCounter := counter;
      enableTsv := enable;
    }

    /** Whether updates materialise TSV faults. */
    predicate TsvOn()
      reads this`cubeModelEnable, this`enableTsv
    {
      cubeModelEnable > 0 && enableTsv != 0
    }

    /** First and one-past-last index of this device's slice of the TSV arrays. */
    function SliceLo(): nat reads this`childrenCounter, this`cubeDataTsv { childrenCounter * cubeDataTsv }
    function SliceHi(): nat reads this`childrenCounter, this`cubeDataTsv { (childrenCounter + 1) * cubeDataTsv }

    predicate SliceInBounds()
      reads this`childrenCounter, this`cubeDataTsv, this`tsvBitmap, this`tsvInfo
    {
      SliceLo() <= SliceHi() <= tsvBitmap.Length && SliceHi() <= tsvInfo.Length
    }

    /** Faults of the device this trial (`getFaultCountTrans() + getFaultCountPerm()`). */
    function FaultCount(): nat
      reads this`faultsTransient, this`faultsPermanent
    {
      faultsTransient + faultsPermanent
    }

    constructor (g: Geometry)
      requires g.Valid()
      ensures Valid() && geom == g && ranges == []
      ensures fresh(transientClass) && fresh(permanentClass) && fresh(transientFIT) && fresh(permanentFIT)
      ensures faultsTransient == 0 && faultsPermanent == 0
      ensures errorsUndetected == 0 && errorsUncorrected == 0
      ensures statSimulations == 0 && statFailures == 0
      ensures statFailuresUndetected == 0 && statFailuresUncorrected == 0
      ensures transientClass[..] == seq(DramMax, _ => 0) && permanentClass[..] == seq(DramMax, _ => 0)
      ensures transientTsv == 0 && permanentTsv == 0 && currInterval == 0
      ensures transientFIT[..] == seq(DramMax, _ => 0) && permanentFIT[..] == seq(DramMax, _ => 0)
      ensures cubeModelEnable == 0 && enableTsv == 0 && cubeDataTsv == 0 && childrenCounter == 0
    {
      geom := g;
      ranges := [];
      faultsTransient, faultsPermanent := 0, 0;
      errorsUndetected, errorsUncorrected := 0, 0;
      statSimulations, statFailures := 0, 0;
      statFailuresUndetected, statFailuresUncorrected := 0, 0;
      transientClass := new nat[DramMax](_ => 0);
      permanentClass := new nat[DramMax](_ => 0);
      transientTsv, permanentTsv := 0, 0;
      transientFIT := new Chance[DramMax](_ => 0);
      permanentFIT := new Chance[DramMax](_ => 0);
      currInterval := 0;
      cubeModelEnable, enableTsv, cubeDataTsv, childrenCounter := 0, 0, 0, 0;
      tsvBitmap := new bool[0];
      tsvInfo := new nat[0];
    }

    /** Builds a new range: fixed fields take their draw modulo the field size, wild fields
        set `size - 1` in the mask and multiply `max_faults` by the size; each field is
        shifted up by the width of the next. A TSV range gives one position for the column
        and bit fields together. */
    method GenRandomRange(p: Pattern, transient: bool, rowbit: Option<u64>, tsv: bool, d: Fields)
      returns (fr: FaultRange)
      requires Valid()
      ensures fr == GenRange(geom, p, transient, rowbit, tsv, d)
    {
      fr := NewRange();
      var addr: nat, mask: nat, maxFaults: u64 := 0, 0, 1;
      if p.rank {
        addr := BitOr(addr, d.rank % geom.ranks);
      } else {
        mask := BitOr(mask, geom.ranks - 1);
        maxFaults := (maxFaults * geom.ranks) % Word;
      }
      addr, mask, maxFaults := LayField(addr, mask, maxFaults, geom.LogBanks(), p.bank, d.bank, geom.banks);
      addr, mask, maxFaults := LayField(addr, mask, maxFaults, geom.LogRows(), p.row, d.row, geom.rows);
      if rowbit.None? {
        addr, mask, maxFaults := LayField(addr, mask, maxFaults, geom.LogCols(), p.col, d.col, geom.cols);
        addr, mask, maxFaults := LayField(addr, mask, maxFaults, geom.LogBits(), p.bit, d.bit, geom.bitwidth);
      } else {
        var w := geom.LogCols() + geom.LogBits();
        addr, mask := ShiftLeft(addr, w), ShiftLeft(mask, w);
        addr := BitOr(addr, rowbit.value);
      }
      assert addr == GenAddr(geom, p, d, rowbit) && mask == GenMask(geom, p, rowbit);
      fr := fr.(fAddr := addr, fWildMask := mask, transient := transient, tsv := tsv, maxFaults := maxFaults);
    }

    /** One field of genRandomRange: shift the address and the mask up by the field's
        width, then OR the drawn value into the address when the field is fixed, or the
        field's all-ones value into the mask and its size into `max_faults` when it is wild. */
    method LayField(addr: nat, mask: nat, maxFaults: u64, width: nat, fixed: bool, draw: nat, size: nat)
      returns (addr': nat, mask': nat, maxFaults': u64)
      requires size >= 1
      ensures addr' == Step(addr, width, Draw(fixed, draw, size))
      ensures mask' == Step(mask, width, Wild(fixed, size))
      ensures maxFaults' == Scale(maxFaults, fixed, size)
    {
      addr', mask', maxFaults' := ShiftLeft(addr, width), ShiftLeft(mask, width), maxFaults;
      if fixed {
        BitOrZero(mask');
        addr' := BitOr(addr', draw % size);
      } else {
        BitOrZero(addr');
        mask' := BitOr(mask', size - 1);
        maxFaults' := (maxFaults' * size) % Word;
      }
    }

    /** Appends the one range of a fault of class `faultClass`, with that class's pattern. */
    method GenerateRanges(faultClass: nat, transient: bool, d: Fields)
      requires Valid() && faultClass < DramMax
      modifies this`ranges
      ensures ranges == old(ranges) + [Realize(geom, Request(ClassPattern(faultClass), transient, None, false, d))]
    {
      var r := GenRandomRange(ClassPattern(faultClass), transient, None, false, d);
      ranges := ranges + [r];
    }

    /** The device's die-fault counters. */
    function Counts(): Tally
      reads this`faultsTransient, this`faultsPermanent, transientClass, permanentClass
    {
      Tally(faultsTransient, faultsPermanent, transientClass[..], permanentClass[..])
    }

    /** One kind of fault of class `i`, when it fires: bumps the aggregate and per-class
        counters of that kind and appends its range. */
    method InjectKind(fires: bool, i: nat, transient: bool, at: Fields)
      requires Valid() && i < DramMax
      modifies this`ranges, this`faultsTransient, this`faultsPermanent, transientClass, permanentClass
      ensures ranges == old(ranges) + Realized(geom, KindRequests(fires, i, transient, at))
      ensures var hit := if fires then 1 else 0; var c := old(Counts());
        Counts() == if transient then c.(transient := c.transient + hit, transientClass := c.transientClass[i := c.transientClass[i] + hit])
                    else c.(permanent := c.permanent + hit, permanentClass := c.permanentClass[i := c.permanentClass[i] + hit])
    {
      if fires {
        if transient {
          faultsTransient := faultsTransient + 1;
          transientClass[i] := transientClass[i] + 1;
        } else {
          faultsPermanent := faultsPermanent + 1;
          permanentClass[i] := permanentClass[i] + 1;
        }
        GenerateRanges(i, transient, at);
        assert KindRequests(fires, i, transient, at)[..0] == [];
      } else {
        assert transientClass[..][i := transientClass[i]] == transientClass[..];
        assert permanentClass[..][i := permanentClass[i]] == permanentClass[..];
      }
    }

    /** Draws one fault class, given its transient and permanent probabilities: in normal
        mode each kind fires when its draw does not exceed its probability, in test mode k
        both kinds of class k - 1 fire; the transient kind is handled before the permanent
        one. */
    method InjectClass(testMode: nat, d: Draws, i: nat, tp: Chance, pp: Chance) returns (fired: bool)
      requires Valid() && d.Valid() && i < DramMax
      modifies this`ranges, this`faultsTransient, this`faultsPermanent, transientClass, permanentClass
      ensures ranges == old(ranges) + Realized(geom, ClassRequests(testMode, d, i, tp, pp))
      ensures Counts() == ClassTally(old(Counts()), testMode, d, i, tp, pp)
      ensures fired <==> Hit(testMode, i, d.transient[i], tp) + Hit(testMode, i, d.permanent[i], pp) > 0
    {
      var transientFires, permanentFires;
      if testMode == 0 {
        transientFires := d.transient[i] <= tp;
        permanentFires := d.permanent[i] <= pp;
      } else {
        transientFires := i == testMode - 1;
        permanentFires := i == testMode - 1;
      }
      ghost var before := ranges;
      InjectKind(transientFires, i, true, d.transientAt[i]);
      InjectKind(permanentFires, i, false, d.permanentAt[i]);
      var tq, pq := KindRequests(transientFires, i, true, d.transientAt[i]), KindRequests(permanentFires, i, false, d.permanentAt[i]);
      RealizedAppend(geom, tq, pq);
      AppendAssoc(before, Realized(geom, tq), Realized(geom, pq));
      fired := transientFires || permanentFires;
    }

    /** Draws every fault class of one interval, in class order. */
    method InjectDieFaults(testMode: nat, d: Draws) returns (newFault: bool)
      requires Valid() && d.Valid()
      modifies this`ranges, this`faultsTransient, this`faultsPermanent, transientClass, permanentClass
      ensures ranges == old(ranges) + Realized(geom, DieRequests(testMode, d, old(transientFIT[..]), old(permanentFIT[..]), |d.transient|))
      ensures Counts() == DieTally(old(Counts()), testMode, d, old(transientFIT[..]), old(permanentFIT[..]), |d.transient|)
      ensures newFault <==> (Fired(testMode, d.transient, old(transientFIT[..]), |d.transient|)
        + Fired(testMode, d.permanent, old(permanentFIT[..]), |d.transient|) > 0)
      ensures FaultCount() >= old(FaultCount()) && (newFault <==> FaultCount() > old(FaultCount()))
    {
      newFault := false;
      ghost var tp, pp, c0 := transientFIT[..], permanentFIT[..], Counts();
      var i := 0;
      while i < DramMax
        invariant 0 <= i <= DramMax
        invariant ranges == old(ranges) + Realized(geom, DieRequests(testMode, d, tp, pp, i))
        invariant Counts() == DieTally(c0, testMode, d, tp, pp, i)
        invariant newFault <==> (Fired(testMode, d.transient, tp, i) + Fired(testMode, d.permanent, pp, i) > 0)
      {
        ghost var ct := Counts();
        var fired := InjectClass(testMode, d, i, transientFIT[i], permanentFIT[i]);
        assert Counts() == ClassTally(ct, testMode, d, i, tp[i], pp[i]);
        assert fired <==> Hit(testMode, i, d.transient[i], tp[i]) + Hit(testMode, i, d.permanent[i], pp[i]) > 0;
        var done, next := DieRequests(testMode, d, tp, pp, i), ClassRequests(testMode, d, i, tp[i], pp[i]);
        RealizedAppend(geom, done, next);
        AppendAssoc(old(ranges), Realized(geom, done), Realized(geom, next));
        newFault := newFault || fired;
        i := i + 1;
      }
      DieTallyCounts(c0, testMode, d, tp, pp, DramMax);
    }

    /** Appends every range of one TSV fault. */
    method AppendTsvFault(transient: bool, ii: nat)
      requires Valid() && cubeDataTsv > 0
      modifies this`ranges
      ensures ranges == old(ranges) + Realized(geom, TsvFault(geom, transient, ii, cubeDataTsv))
    {
      ghost var qs := TsvFault(geom, transient, ii, cubeDataTsv);
      var jj := 0;
      var count := TsvRangeCount(geom, cubeDataTsv);
      while jj < count
        invariant jj <= count
        invariant ranges == old(ranges) + Realized(geom, qs[..jj])
      {
        RowbitBound(geom, ii, cubeDataTsv, jj);
        var r := GenRandomRange(TsvPattern, transient, Some(ii % cubeDataTsv + jj * cubeDataTsv), true, NoDraws);
        assert qs[..jj + 1][..jj] == qs[..jj];
        AppendAssoc(old(ranges), Realized(geom, qs[..jj]), [r]);
        ranges := ranges + [r];
        jj := jj + 1;
      }
      assert qs[..count] == qs;
    }

    /** Materialises the TSV at index `ii` when it is marked: state 1 appends permanent ranges
        and becomes 3, state 2 appends transient ranges and becomes 4. */
    method InjectTsv(ii: nat) returns (fired: bool)
      requires Valid() && cubeDataTsv > 0 && ii < tsvBitmap.Length && ii < tsvInfo.Length
      modifies this`ranges, this`faultsTransient, this`faultsPermanent,
        this`transientTsv, this`permanentTsv, tsvInfo
      ensures ranges == old(ranges) + Realized(geom, TsvAt(geom, tsvBitmap[ii], old(tsvInfo[ii]), ii, cubeDataTsv))
      ensures tsvInfo[ii] == NewState(tsvBitmap[ii], old(tsvInfo[ii]))
      ensures forall k :: 0 <= k < tsvInfo.Length && k != ii ==> tsvInfo[k] == old(tsvInfo[k])
      ensures faultsPermanent == old(faultsPermanent) + TsvHit(tsvBitmap[ii], old(tsvInfo[ii]), 1)
      ensures permanentTsv == old(permanentTsv) + TsvHit(tsvBitmap[ii], old(tsvInfo[ii]), 1)
      ensures faultsTransient == old(faultsTransient) + TsvHit(tsvBitmap[ii], old(tsvInfo[ii]), 2)
      ensures transientTsv == old(transientTsv) + TsvHit(tsvBitmap[ii], old(tsvInfo[ii]), 2)
      ensures fired <==> TsvHit(tsvBitmap[ii], old(tsvInfo[ii]), 1) + TsvHit(tsvBitmap[ii], old(tsvInfo[ii]), 2) > 0
    {
      fired := false;
      if tsvBitmap[ii] {
        if tsvInfo[ii] == 1 {
          faultsPermanent := faultsPermanent + 1;
          permanentTsv := permanentTsv + 1;
          fired := true;
          AppendTsvFault(false, ii);
          tsvInfo[ii] := 3;
        } else if tsvInfo[ii] == 2 {
          faultsTransient := faultsTransient + 1;
          transientTsv := transientTsv + 1;
          fired := true;
          AppendTsvFault(true, ii);
          tsvInfo[ii] := 4;
        }
      }
    }

    /** Materialises the marked TSV faults at indices `lo` to `hi - 1`, in index order. */
    method InjectTsvFaults(lo: nat, hi: nat) returns (newFault: bool)
      requires Valid() && lo <= hi <= tsvBitmap.Length && hi <= tsvInfo.Length
      requires lo < hi ==> cubeDataTsv > 0
      modifies this`ranges, this`faultsTransient, this`faultsPermanent,
        this`transientTsv, this`permanentTsv, tsvInfo
      ensures ranges == old(ranges) + Realized(geom, TsvRequests(geom, old(tsvBitmap[..]), old(tsvInfo[..]), lo, hi, cubeDataTsv))
      ensures forall k :: 0 <= k < tsvInfo.Length ==>
        tsvInfo[k] == if lo <= k < hi then NewState(tsvBitmap[k], old(tsvInfo[k])) else old(tsvInfo[k])
      ensures faultsPermanent == old(faultsPermanent) + TsvCount(old(tsvBitmap[..]), old(tsvInfo[..]), lo, hi, 1)
      ensures permanentTsv == old(permanentTsv) + TsvCount(old(tsvBitmap[..]), old(tsvInfo[..]), lo, hi, 1)
      ensures faultsTransient == old(faultsTransient) + TsvCount(old(tsvBitmap[..]), old(tsvInfo[..]), lo, hi, 2)
      ensures transientTsv == old(transientTsv) + TsvCount(old(tsvBitmap[..]), old(tsvInfo[..]), lo, hi, 2)
      ensures newFault <==> (TsvCount(old(tsvBitmap[..]), old(tsvInfo[..]), lo, hi, 1)
        + TsvCount(old(tsvBitmap[..]), old(tsvInfo[..]), lo, hi, 2) > 0)
    {
      newFault := false;
      ghost var bitmap, info0 := tsvBitmap[..], tsvInfo[..];
      var ii := lo;
      while ii < hi
        invariant lo <= ii <= hi
        invariant ranges == old(ranges) + Realized(geom, TsvRequests(geom, bitmap, info0, lo, ii, cubeDataTsv))
        invariant forall k :: lo <= k < ii ==> tsvInfo[k] == NewState(bitmap[k], info0[k])
        invariant forall k :: 0 <= k < tsvInfo.Length && !(lo <= k < ii) ==> tsvInfo[k] == info0[k]
        invariant faultsPermanent == old(faultsPermanent) + TsvCount(bitmap, info0, lo, ii, 1)
        invariant permanentTsv == old(permanentTsv) + TsvCount(bitmap, info0, lo, ii, 1)
        invariant faultsTransient == old(faultsTransient) + TsvCount(bitmap, info0, lo, ii, 2)
        invariant transientTsv == old(transientTsv) + TsvCount(bitmap, info0, lo, ii, 2)
        invariant newFault <==> (TsvCount(bitmap, info0, lo, ii, 1) + TsvCount(bitmap, info0, lo, ii, 2) > 0)
      {
        var fired := InjectTsv(ii);
        assert tsvInfo[ii] == NewState(bitmap[ii], info0[ii]);
        var done, next := TsvRequests(geom, bitmap, info0, lo, ii, cubeDataTsv), TsvAt(geom, bitmap[ii], info0[ii], ii, cubeDataTsv);
        RealizedAppend(geom, done, next);
        AppendAssoc(old(ranges), Realized(geom, done), Realized(geom, next));
        newFault := newFault || fired;
        ii := ii + 1;
      }
    }

    /** One interval of the device: die faults of every class, then, in a cube with TSV
        faults enabled, the TSV faults of its slice; the interval counter advances. The
        result says whether any fault was added. */
    method Update(testMode: nat, d: Draws) returns (newFault: bool)
      requires Valid() && d.Valid()
      requires TsvOn() ==> SliceInBounds()
      modifies this`ranges, this`faultsTransient, this`faultsPermanent, transientClass,
        permanentClass, this`transientTsv, this`permanentTsv, this`currInterval, tsvInfo
      ensures currInterval == old(currInterval) + 1
      ensures var die := DieRequests(testMode, d, old(transientFIT[..]), old(permanentFIT[..]), |d.transient|);
        var tsv := if TsvOn() then TsvRequests(geom, old(tsvBitmap[..]), old(tsvInfo[..]), SliceLo(), SliceHi(), cubeDataTsv) else [];
        ranges == old(ranges) + Realized(geom, die) + Realized(geom, tsv)
      ensures forall k :: 0 <= k < tsvInfo.Length ==>
        tsvInfo[k] == if TsvOn() && SliceLo() <= k < SliceHi() then NewState(tsvBitmap[k], old(tsvInfo[k])) else old(tsvInfo[k])
      ensures var t1 := if TsvOn() then TsvCount(old(tsvBitmap[..]), old(tsvInfo[..]), SliceLo(), SliceHi(), 1) else 0;
        var t2 := if TsvOn() then TsvCount(old(tsvBitmap[..]), old(tsvInfo[..]), SliceLo(), SliceHi(), 2) else 0;
        var die := DieTally(old(Counts()), testMode, d, old(transientFIT[..]), old(permanentFIT[..]), |d.transient|);
        && Counts() == die.(transient := die.transient + t2, permanent := die.permanent + t1)
        && transientTsv == old(transientTsv) + t2 && permanentTsv == old(permanentTsv) + t1
        && (newFault <==> (Fired(testMode, d.transient, old(transientFIT[..]), |d.transient|)
              + Fired(testMode, d.permanent, old(permanentFIT[..]), |d.transient|) + t1 + t2 > 0))
      ensures FaultCount() >= old(FaultCount()) && (newFault <==> FaultCount() > old(FaultCount()))
    {
      ghost var bitmap, info := tsvBitmap[..], tsvInfo[..];
      var lo, hi := childrenCounter * cubeDataTsv, (childrenCounter + 1) * cubeDataTsv;
      var newFault1 := InjectDieFaults(testMode, d);
      assert tsvInfo[..] == info && tsvBitmap[..] == bitmap;
      var newFault2 := false;
      if cubeModelEnable > 0 && enableTsv != 0 {
        SliceWidth(childrenCounter, cubeDataTsv);
        newFault2 := InjectTsvFaults(lo, hi);
      }
      currInterval := currInterval + 1;
      newFault := newFault1 || newFault2;
    }

    /** Erases the transient ranges a repair left removable, with the source's iteration. */
    method Scrub()
      requires ScrubScan(ranges).Some?
      modifies this`ranges
      ensures ranges == ScrubScan(old(ranges)).value
    {
      var i := 0;
      while i < |ranges|
        invariant 0 <= i <= |ranges|
        invariant ScrubScan(ranges[i..]).Some?
        invariant ranges[..i] + ScrubScan(ranges[i..]).value == ScrubScan(old(ranges)).value
      {
        ScrubStep(ranges, i);
        if ranges[i].transient {
          if ranges[i].transientRemove {
            ranges := ranges[..i] + ranges[i + 1..];
          }
        }
        i := i + 1;
      }
    }

    /** Starts a trial: zeroes the per-trial counters, counts the trial and deletes every range. */
    method Reset()
      modifies this`faultsTransient, this`faultsPermanent, this`errorsUndetected,
        this`errorsUncorrected, this`statSimulations, this`ranges
      ensures faultsTransient == 0 && faultsPermanent == 0
      ensures errorsUndetected == 0 && errorsUncorrected == 0
      ensures statSimulations == old(statSimulations) + 1 && ranges == []
    {
      faultsTransient, faultsPermanent := 0, 0;
      errorsUndetected, errorsUncorrected := 0, 0;
      statSimulations := statSimulations + 1;
      ranges := [];
    }

    /** Zeroes the cross-trial statistics. */
    method ResetStats()
      modifies this`statSimulations, this`statFailures, this`statFailuresUndetected,
        this`statFailuresUncorrected
      ensures statSimulations == 0 && statFailures == 0
      ensures statFailuresUndetected == 0 && statFailuresUncorrected == 0
    {
      statSimulations, statFailures := 0, 0;
      statFailuresUndetected, statFailuresUncorrected := 0, 0;
    }

    /** Sets the probability of one fault class and kind. */
    method SetFIT(faultClass: nat, transient: bool, fit: Chance)
      requires Valid() && faultClass < DramMax
      modifies transientFIT, permanentFIT
      ensures transient ==> transientFIT[..] == old(transientFIT[..])[faultClass := fit] && permanentFIT[..] == old(permanentFIT[..])
      ensures !transient ==> permanentFIT[..] == old(permanentFIT[..])[faultClass := fit] && transientFIT[..] == old(transientFIT[..])
    {
      if transient {
        transientFIT[faultClass] := fit;
      } else {
        permanentFIT[faultClass] := fit;
      }
    }

    /** Repair of a device, which has no schemes: every fault stays, and a nonzero outcome
        counts as an error of each kind. */
    method Repair() returns (undetectable: nat, uncorrectable: nat)
      modifies this`errorsUndetected, this`errorsUncorrected
      ensures undetectable == FaultCount() && uncorrectable == FaultCount()
      ensures errorsUndetected == old(errorsUndetected) + (if FaultCount() > 0 then 1 else 0)
      ensures errorsUncorrected == old(errorsUncorrected) + (if FaultCount() > 0 then 1 else 0)
    {
      var faultsBeforeRepair := faultsPermanent + faultsTransient;
      undetectable, uncorrectable := faultsBeforeRepair, faultsBeforeRepair;
      if undetectable > 0 {
        errorsUndetected := errorsUndetected + 1;
      }
      if uncorrectable > 0 {
        errorsUncorrected := errorsUncorrected + 1;
      }
    }

    /** Spare-replacement check of a device: every fault stays uncorrected. */
    method FillRepl() returns (uncorrectable: nat)
      modifies this`errorsUncorrected
      ensures uncorrectable == FaultCount()
      ensures errorsUncorrected == old(errorsUncorrected) + (if FaultCount() > 0 then 1 else 0)
    {
      uncorrectable := faultsPermanent + faultsTransient;
      if uncorrectable > 0 {
        errorsUncorrected := errorsUncorrected + 1;
      }
    }

    /** Ends a trial: a device with any fault counts as a failed trial, and the error
        counters decide the undetected and uncorrected trial counts. */
    method Finalize()
      modifies this`statFailures, this`statFailuresUndetected, this`statFailuresUncorrected
      ensures statFailures == old(statFailures) + (if FaultCount() != 0 then 1 else 0)
      ensures statFailuresUndetected == old(statFailuresUndetected) + (if errorsUndetected != 0 then 1 else 0)
      ensures statFailuresUncorrected == old(statFailuresUncorrected) + (if errorsUncorrected != 0 then 1 else 0)
    {
      if faultsPermanent + faultsTransient != 0 {
        statFailures := statFailures + 1;
      }
      if errorsUndetected != 0 {
        statFailuresUndetected := statFailuresUndetected + 1;
      }
      if errorsUncorrected != 0 {
        statFailuresUncorrected := statFailuresUncorrected + 1;
      }
    }
  }
}
