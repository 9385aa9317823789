/** The event-driven trial engine (EventSimulation.cpp). Instead of stepping time in fixed
    intervals, a trial draws every device's fault arrivals up front as timestamped events,
    queues them in a priority queue ordered by timestamp, and handles them one at a time:
    the event's range joins its device, the first domain is repaired, a failure is logged
    in the histogram, and the domains are scrubbed when the event opens a new scrub period. */
module EventSimulations {
  import opened Options
  import opened Layout
  import opened RangeGen
  import DramDomain
  import Simulations

  // ---------------------------------------------------------------- the event kinds

  /** Number of event kinds: each fault class once transient, once permanent. */
  const ErrTypes: nat := 2 * DramMax

  /** The fixed fields and the transient flag the generator passes to genRandomRange for
      event kind `errtype`. */
  function KindArgs(errtype: nat): (Pattern, bool)
    requires errtype < ErrTypes
  {
    if errtype == 0 then (Pattern(true, true, true, true, true), true)
    else if errtype == 1 then (Pattern(true, true, true, true, false), true)
    else if errtype == 2 then (Pattern(true, true, false, true, false), true)
    else if errtype == 3 then (Pattern(true, true, true, false, false), true)
    else if errtype == 4 then (Pattern(true, true, false, false, false), true)
    else if errtype == 5 then (Pattern(true, false, false, false, false), true)
    else if errtype == 6 then (Pattern(false, false, false, false, false), true)
    else if errtype == 7 then (Pattern(true, true, true, true, true), false)
    else if errtype == 8 then (Pattern(true, true, true, true, false), false)
    else if errtype == 9 then (Pattern(true, true, false, true, false), false)
    else if errtype == 10 then (Pattern(true, true, true, false, false), false)
    else if errtype == 11 then (Pattern(true, true, false, false, false), false)
    else if errtype == 12 then (Pattern(true, false, false, false, false), false)
    else (Pattern(false, false, false, false, false), false)
  }

  /** Kinds 0 to 6 are the seven fault classes of a device, transient; kinds 7 to 13 are
      the same classes, permanent. */
  lemma {:induction false} KindTable(errtype: nat)
    requires errtype < ErrTypes
    ensures KindArgs(errtype) == (ClassPattern(errtype % DramMax), errtype < DramMax)
  {
  }

  /** The genRandomRange call of an event of kind `errtype`: no TSV position, not a TSV
      fault, location draws `at`. */
  function KindRequest(errtype: nat, at: Fields): DramDomain.Request
    requires errtype < ErrTypes
  {
    DramDomain.Request(KindArgs(errtype).0, KindArgs(errtype).1, None, false, at)
  }

  // ---------------------------------------------------------------- generating events

  /** One draw of a device's fault process of one kind: the time to its next fault, in
      whole seconds, and the location draws of the range that fault would create. */
  datatype Draw = Draw(period: nat, at: Fields)

  /** A queued fault: the device it strikes, its kind, its time and its range. */
  datatype Event = Event(device: nat, errtype: nat, timestamp: nat, request: DramDomain.Request)

  /** Every device has one draw sequence per event kind. */
  predicate WellDrawn(draws: seq<seq<seq<Draw>>>)
  {
    forall device :: 0 <= device < |draws| ==> |draws[device]| == ErrTypes
  }

  /** Total of the first `n` periods. */
  function Elapsed(ds: seq<Draw>, n: nat): nat
    requires n <= |ds|
  {
    if n == 0 then 0 else ds[0].period + Elapsed(ds[1..], n - 1)
  }

  /** The events of one device and kind, from time `clock` on: each draw advances the
      clock by its period and yields an event while the clock stays within `maxS`. */
  function Stream(device: nat, errtype: nat, ds: seq<Draw>, clock: nat, maxS: nat): seq<Event>
    requires errtype < ErrTypes
    decreases |ds|
  {
    if ds == [] then []
    else
      var t := clock + ds[0].period;
      if t <= maxS then [Event(device, errtype, t, KindRequest(errtype, ds[0].at))] + Stream(device, errtype, ds[1..], t, maxS)
      else []
  }

  /** The `k`-th event of a stream arrives after the first `k + 1` periods, every event is
      within `maxS`, and a stream that leaves draws unused stops because the next arrival
      falls past `maxS`. */
  lemma {:induction false} StreamArrivals(device: nat, errtype: nat, ds: seq<Draw>, clock: nat, maxS: nat)
    requires errtype < ErrTypes
    ensures var s := Stream(device, errtype, ds, clock, maxS);
      |s| <= |ds|
      && (forall k :: 0 <= k < |s| ==>
            s[k] == Event(device, errtype, clock + Elapsed(ds, k + 1), KindRequest(errtype, ds[k].at)))
      && (forall k :: 0 <= k < |s| ==> s[k].timestamp <= maxS)
      && (|s| < |ds| ==> clock + Elapsed(ds, |s| + 1) > maxS)
    decreases |ds|
  {
    if ds != [] {
      var t := clock + ds[0].period;
      if t <= maxS {
        var s := Stream(device, errtype, ds, clock, maxS);
        var s' := Stream(device, errtype, ds[1..], t, maxS);
        StreamArrivals(device, errtype, ds[1..], t, maxS);
        assert s == [Event(device, errtype, t, KindRequest(errtype, ds[0].at))] + s';
        forall k | 1 <= k < |s|
          ensures s[k] == Event(device, errtype, clock + Elapsed(ds, k + 1), KindRequest(errtype, ds[k].at))
        {
          assert s[k] == s'[k - 1];
          assert ds[1..][k - 1] == ds[k];
        }
      }
    }
  }

  /** The events of devices `device` onwards, kinds `errtype` onwards for the first of
      them, in the generator's order: device by device, kind by kind, arrival by arrival. */
  function Generated(draws: seq<seq<seq<Draw>>>, device: nat, errtype: nat, maxS: nat): seq<Event>
    requires WellDrawn(draws) && errtype <= ErrTypes
    decreases |draws| - device, ErrTypes - errtype
  {
    if device >= |draws| then []
    else if errtype == ErrTypes then Generated(draws, device + 1, 0, maxS)
    else Stream(device, errtype, draws[device][errtype], 0, maxS) + Generated(draws, device, errtype + 1, maxS)
  }

  /** What every generated event is: a fault of one of the devices, of one of the kinds,
      no later than `maxS`, whose range has its kind's class pattern and transient flag. */
  ghost predicate Generable(draws: seq<seq<seq<Draw>>>, maxS: nat, e: Event)
  {
    && e.device < |draws| && e.errtype < ErrTypes && e.timestamp <= maxS
    && e.request.pattern == ClassPattern(e.errtype % DramMax) && e.request.transient == (e.errtype < DramMax)
    && e.request.rowbit == None && !e.request.tsv
  }

  /** Only events within `maxS` are queued, each tagged with its device and kind and
      carrying its kind's range. */
  lemma {:induction false} GeneratedEvents(draws: seq<seq<seq<Draw>>>, device: nat, errtype: nat, maxS: nat)
    requires WellDrawn(draws) && errtype <= ErrTypes
    ensures forall e :: e in Generated(draws, device, errtype, maxS) ==> Generable(draws, maxS, e)
    decreases |draws| - device, ErrTypes - errtype
  {
    if device < |draws| {
      if errtype == ErrTypes {
        GeneratedEvents(draws, device + 1, 0, maxS);
      } else {
        GeneratedEvents(draws, device, errtype + 1, maxS);
        var s := Stream(device, errtype, draws[device][errtype], 0, maxS);
        StreamArrivals(device, errtype, draws[device][errtype], 0, maxS);
        KindTable(errtype);
        forall e | e in s
          ensures Generable(draws, maxS, e)
        {
          var k :| 0 <= k < |s| && s[k] == e;
          assert s[k].timestamp <= maxS;
        }
      }
    }
  }

  /** Per device, how many events of the given persistence `q` holds. */
  function Tally(q: seq<Event>, n: nat, transient: bool): (r: seq<nat>)
    ensures |r| == n
  {
    if q == [] then Simulations.Zeros(n)
    else Simulations.Bump(Tally(q[..|q| - 1], n, transient), q[|q| - 1].device, q[|q| - 1].request.transient == transient)
  }

  lemma {:induction false} SumZeros(n: nat)
    ensures Simulations.Sum(Simulations.Zeros(n)) == 0
  {
    if n > 0 {
      var z := Simulations.Zeros(n);
      assert z[..n - 1] == Simulations.Zeros(n - 1);
      SumZeros(n - 1);
    }
  }

  /** Every event of devices below `n` is counted once, as transient or as permanent. */
  lemma {:induction false} TallyTotal(q: seq<Event>, n: nat)
    requires forall k :: 0 <= k < |q| ==> q[k].device < n
    ensures Simulations.Sum(Tally(q, n, true)) + Simulations.Sum(Tally(q, n, false)) == |q|
  {
    if q == [] {
      SumZeros(n);
    } else {
      var init, e := q[..|q| - 1], q[|q| - 1];
      TallyTotal(init, n);
      if e.request.transient {
        Simulations.SumBump(Tally(init, n, true), e.device);
      } else {
        Simulations.SumBump(Tally(init, n, false), e.device);
      }
    }
  }

  // ---------------------------------------------------------------- the event queue

  /** The position of the latest event, the queue's top; among equal times the model
      chooses the first. */
  function Top(q: seq<Event>): (i: nat)
    requires q != []
    ensures i < |q| && forall j :: 0 <= j < |q| ==> q[j].timestamp <= q[i].timestamp
  {
    if |q| == 1 then 0
    else
      var i := Top(q[..|q| - 1]);
      if q[|q| - 1].timestamp > q[i].timestamp then |q| - 1 else i
  }

  /** `q` without its element at `i`. */
  function Remove(q: seq<Event>, i: nat): (r: seq<Event>)
    requires i < |q|
    ensures |r| == |q| - 1 && multiset(r) + multiset{q[i]} == multiset(q)
  {
    assert q == q[..i] + [q[i]] + q[i + 1..];
    q[..i] + q[i + 1..]
  }

  // ---------------------------------------------------------------- handling events

  /** What the first domain's repair reports after an event: undetected and uncorrected errors. */
  datatype Repaired = Repaired(undetected: nat, uncorrected: nat)

  predicate Fails(r: Repaired)
  {
    r.undetected > 0 || r.uncorrected > 0
  }

  /** The domains' answers, which the model takes as given: the first domain's repair
      result after the event handled at step `k`, and domain `d`'s fill_repl result when
      it is scrubbed at step `k`. */
  datatype Oracle = Oracle(repair: nat -> Repaired, fillRepl: (nat, nat) -> nat)

  /** A logged failure: the event's time and the repair's error counts. */
  datatype Failure = Failure(timestamp: nat, undetected: nat, uncorrected: nat)

  /** What a trial asks of its domains, in order. */
  datatype Call =
    | ResetAll
    | Insert(step: nat, device: nat)        // the event of step `step` joins its device
    | RepairFirst(step: nat)                // repair of the first domain
    | ScrubDomain(step: nat, domain: nat)
    | FillRepl(step: nat, domain: nat)
    | FinalizeAll

  /** The engine's settings: scrub interval in seconds, whether to keep going after a
      failure, number of domains. */
  datatype Setup = Setup(scrubInterval: nat, continueRunning: bool, domains: nat)

  /** The state of a trial between events: the error flag, the scrub period of the last
      event, the failures logged, the events handled (in order) and the calls made. */
  datatype Pass = Pass(errors: nat, scrubId: nat, logged: seq<Failure>, popped: seq<Event>, trace: seq<Call>)

  /** The scrub period a time falls in. */
  function ScrubId(cfg: Setup, t: nat): nat
    requires cfg.scrubInterval > 0
  {
    t / cfg.scrubInterval
  }

  /** Scrubbing domains `d` onwards at step `k`: each is scrubbed and asked to fill in its
      replacements, and a nonzero answer finalizes the trial and stops it. */
  function Scrubs(cfg: Setup, o: Oracle, k: nat, d: nat, trace: seq<Call>): (seq<Call>, bool)
    decreases cfg.domains - d
  {
    if d >= cfg.domains then (trace, false)
    else
      var calls := trace + [ScrubDomain(k, d), FillRepl(k, d)];
      if o.fillRepl(k, d) != 0 then (calls + [FinalizeAll], true)
      else Scrubs(cfg, o, k, d + 1, calls)
  }

  /** One turn of the event loop: take the queue's top, insert it into its device, repair
      the first domain; without continue-running a failure finalizes and stops the trial;
      otherwise the error flag becomes this event's outcome, and an event in a new scrub
      period scrubs every domain. Returns the rest of the queue, the new state, and whether
      the trial stopped. */
  function Pop(cfg: Setup, o: Oracle, q: seq<Event>, p: Pass): (seq<Event>, Pass, bool)
    requires q != [] && cfg.scrubInterval > 0
  {
    var i := Top(q);
    var e, k := q[i], |p.popped|;
    var r := o.repair(k);
    var rest, popped := Remove(q, i), p.popped + [e];
    var calls := p.trace + [Insert(k, e.device), RepairFirst(k)];
    var logged := if Fails(r) then p.logged + [Failure(e.timestamp, r.undetected, r.uncorrected)] else p.logged;
    if !cfg.continueRunning && Fails(r) then (rest, Pass(0, p.scrubId, logged, popped, calls + [FinalizeAll]), true)
    else
      var id := ScrubId(cfg, e.timestamp);
      var s := if id != p.scrubId then Scrubs(cfg, o, k, 0, calls) else (calls, false);
      (rest, Pass(if Fails(r) then 1 else 0, id, logged, popped, s.0), s.1)
  }

  /** Handling the queue `q` to the end: a trial that runs out of events finalizes and
      reports whether the error flag is set; a trial that stops reports 1. */
  function Drain(cfg: Setup, o: Oracle, q: seq<Event>, p: Pass): (nat, Pass)
    requires cfg.scrubInterval > 0
    decreases |q|
  {
    if q == [] then (if p.errors > 0 then 1 else 0, p.(trace := p.trace + [FinalizeAll]))
    else
      var v := Pop(cfg, o, q, p);
      if v.2 then (1, v.1) else Drain(cfg, o, v.0, v.1)
  }

  /** A trial over the queued events `q`, from reset. */
  function EventRun(cfg: Setup, o: Oracle, q: seq<Event>): (nat, Pass)
    requires cfg.scrubInterval > 0
  {
    Drain(cfg, o, q, Pass(0, 0, [], [], [ResetAll]))
  }

  // ---------------------------------------------------------------- traces

  /** Step `k`'s event opens a new scrub period: its period differs from the previous
      event's, or from period 0 for the first event. */
  predicate Changed(cfg: Setup, ps: seq<Event>, k: nat)
    requires cfg.scrubInterval > 0 && k < |ps|
  {
    ScrubId(cfg, ps[k].timestamp) != if k == 0 then 0 else ScrubId(cfg, ps[k - 1].timestamp)
  }

  /** A call may follow `prev` when: an insert names a handled event's own device, a
      repair follows the insert of its step, a scrub happens at a step that opens a new
      scrub period and names a domain, and fill_repl follows the scrub of its domain. */
  predicate Legal(cfg: Setup, ps: seq<Event>, prev: Call, c: Call)
    requires cfg.scrubInterval > 0
  {
    match c
    case Insert(k, device) => k < |ps| && device == ps[k].device
    case RepairFirst(k) => k < |ps| && prev == Insert(k, ps[k].device)
    case ScrubDomain(k, d) => k < |ps| && d < cfg.domains && Changed(cfg, ps, k)
    case FillRepl(k, d) => prev == ScrubDomain(k, d)
    case _ => false
  }

  /** A trace in progress: reset first, then legal calls only. */
  ghost predicate Shape(cfg: Setup, cs: seq<Call>, ps: seq<Event>)
    requires cfg.scrubInterval > 0
    decreases |cs|
  {
    if |cs| <= 1 then cs == [ResetAll]
    else Shape(cfg, cs[..|cs| - 1], ps) && Legal(cfg, ps, cs[|cs| - 2], cs[|cs| - 1])
  }

  /** A trace stays legal when more events are handled. */
  lemma {:induction false} ShapeGrows(cfg: Setup, ps: seq<Event>, e: Event, cs: seq<Call>)
    requires cfg.scrubInterval > 0 && Shape(cfg, cs, ps)
    ensures Shape(cfg, cs, ps + [e])
    decreases |cs|
  {
    if |cs| > 1 {
      ShapeGrows(cfg, ps, e, cs[..|cs| - 1]);
      var ps' := ps + [e];
      match cs[|cs| - 1]
      case Insert(k, _) => assert ps'[k] == ps[k];
      case RepairFirst(k) => assert ps'[k] == ps[k];
      case ScrubDomain(k, _) => assert ps'[k] == ps[k]; if k > 0 { assert ps'[k - 1] == ps[k - 1]; }
      case _ =>
    }
  }

  /** The per-position form of a legal trace. */
  lemma {:induction false} ShapeElements(cfg: Setup, ps: seq<Event>, cs: seq<Call>)
    requires cfg.scrubInterval > 0 && Shape(cfg, cs, ps)
    ensures |cs| >= 1 && cs[0] == ResetAll
    ensures forall i :: 0 < i < |cs| ==> Legal(cfg, ps, cs[i - 1], cs[i])
    decreases |cs|
  {
    if |cs| > 1 {
      var init := cs[..|cs| - 1];
      ShapeElements(cfg, ps, init);
      assert forall i :: 0 <= i < |init| ==> init[i] == cs[i];
    }
  }

  /** Handled events come out latest first. */
  ghost predicate Descending(ps: seq<Event>)
    decreases |ps|
  {
    |ps| <= 1 || (Descending(ps[..|ps| - 1]) && ps[|ps| - 1].timestamp <= ps[|ps| - 2].timestamp)
  }

  lemma {:induction false} DescendingOrder(ps: seq<Event>)
    requires Descending(ps)
    ensures forall i, j :: 0 <= i <= j < |ps| ==> ps[j].timestamp <= ps[i].timestamp
    decreases |ps|
  {
    if |ps| > 1 {
      var init := ps[..|ps| - 1];
      DescendingOrder(init);
      assert forall i :: 0 <= i < |init| ==> init[i] == ps[i];
    }
  }

  /** No event in `q` is later than `t`. */
  ghost predicate Below(q: seq<Event>, t: nat)
  {
    forall e :: e in q ==> e.timestamp <= t
  }

  /** The failures the handled events `ps` log: each event whose repair fails, in order. */
  function Failures(o: Oracle, ps: seq<Event>): seq<Failure>
    decreases |ps|
  {
    if ps == [] then []
    else
      var k := |ps| - 1;
      var r := o.repair(k);
      Failures(o, ps[..k]) + if Fails(r) then [Failure(ps[k].timestamp, r.undetected, r.uncorrected)] else []
  }

  /** How many fill_repl calls of `cs` asked for a replacement. */
  function Refills(o: Oracle, cs: seq<Call>): nat
    decreases |cs|
  {
    if cs == [] then 0
    else
      Refills(o, cs[..|cs| - 1]) + match cs[|cs| - 1] case FillRepl(k, d) => (if o.fillRepl(k, d) != 0 then 1 else 0) case _ => 0
  }

  lemma {:induction false} RefillsAppend(o: Oracle, cs: seq<Call>, c: Call)
    ensures Refills(o, cs + [c]) == Refills(o, cs) + match c case FillRepl(k, d) => (if o.fillRepl(k, d) != 0 then 1 else 0) case _ => 0
  {
    assert (cs + [c])[..|cs|] == cs;
  }

  /** The last handled event's repair failed. */
  predicate LastFailed(o: Oracle, ps: seq<Event>)
  {
    ps != [] && Fails(o.repair(|ps| - 1))
  }

  /** A trial between events, over the queue `q0` it started with and the queue `q` left. */
  ghost predicate Open(cfg: Setup, o: Oracle, q0: seq<Event>, q: seq<Event>, p: Pass)
    requires cfg.scrubInterval > 0
  {
    && Shape(cfg, p.trace, p.popped)
    && Descending(p.popped) && (p.popped != [] ==> Below(q, p.popped[|p.popped| - 1].timestamp))
    && multiset(p.popped) + multiset(q) == multiset(q0)
    && p.logged == Failures(o, p.popped)
    && Refills(o, p.trace) == 0
    && p.scrubId == (if p.popped == [] then 0 else ScrubId(cfg, p.popped[|p.popped| - 1].timestamp))
    && p.errors == (if cfg.continueRunning && LastFailed(o, p.popped) then 1 else 0)
    && (!cfg.continueRunning ==> p.logged == [])
  }

  /** A finished trial's calls: legal, then one finalize. */
  ghost predicate ClosedTrace(cfg: Setup, p: Pass)
    requires cfg.scrubInterval > 0
  {
    |p.trace| >= 2 && p.trace[|p.trace| - 1] == FinalizeAll && Shape(cfg, p.trace[..|p.trace| - 1], p.popped)
  }

  /** A finished trial's events: handled latest first, drawn from the queue, and all of
      it when the result is 0. */
  ghost predicate ClosedQueue(q0: seq<Event>, res: nat, p: Pass)
  {
    Descending(p.popped) && multiset(p.popped) <= multiset(q0) && (res == 0 ==> multiset(p.popped) == multiset(q0))
  }

  /** A finished trial's log and result. With continue-running, the result is 1 exactly
      when a replacement was requested or the last handled event failed; without it, at
      most one failure is logged, it is the last event's, and the result is 1 exactly when
      a failure was logged or a replacement requested. */
  ghost predicate ClosedResult(cfg: Setup, o: Oracle, res: nat, p: Pass)
  {
    && p.logged == Failures(o, p.popped)
    && Refills(o, p.trace) <= 1 && res <= 1
    && (cfg.continueRunning ==> (res == 1 <==> Refills(o, p.trace) > 0 || LastFailed(o, p.popped)))
    && (!cfg.continueRunning ==> |p.logged| <= 1 && (res == 1 <==> |p.logged| + Refills(o, p.trace) > 0))
    && (!cfg.continueRunning && p.logged != [] ==>
          |p.trace| >= 4 && p.popped != []
          && p.trace[|p.trace| - 3] == Insert(|p.popped| - 1, p.popped[|p.popped| - 1].device)
          && p.trace[|p.trace| - 2] == RepairFirst(|p.popped| - 1))
  }

  /** A finished trial with result `res`. */
  ghost predicate Closed(cfg: Setup, o: Oracle, q0: seq<Event>, res: nat, p: Pass)
    requires cfg.scrubInterval > 0
  {
    ClosedTrace(cfg, p) && ClosedQueue(q0, res, p) && ClosedResult(cfg, o, res, p)
  }

  /** Scrubbing keeps the trace legal; it stops exactly when one fill_repl asks for a
      replacement, and then finalizes. */
  lemma {:induction false} ScrubsKeep(cfg: Setup, o: Oracle, ps: seq<Event>, k: nat, d: nat, cs: seq<Call>, res: seq<Call>, halted: bool)
    requires cfg.scrubInterval > 0 && k < |ps| && Changed(cfg, ps, k)
    requires Shape(cfg, cs, ps) && Refills(o, cs) == 0
    requires (res, halted) == Scrubs(cfg, o, k, d, cs)
    ensures halted ==> |res| >= 2 && res[|res| - 1] == FinalizeAll && Shape(cfg, res[..|res| - 1], ps) && Refills(o, res) == 1
    ensures !halted ==> Shape(cfg, res, ps) && Refills(o, res) == 0
    decreases cfg.domains - d
  {
    if d < cfg.domains {
      var a := cs + [ScrubDomain(k, d)];
      var calls := a + [FillRepl(k, d)];
      assert cs + [ScrubDomain(k, d), FillRepl(k, d)] == calls;
      assert a[..|a| - 1] == cs;
      assert calls[..|calls| - 1] == a;
      RefillsAppend(o, cs, ScrubDomain(k, d));
      RefillsAppend(o, a, FillRepl(k, d));
      if o.fillRepl(k, d) != 0 {
        var f := calls + [FinalizeAll];
        RefillsAppend(o, calls, FinalizeAll);
        assert f[..|f| - 1] == calls;
      } else {
        ScrubsKeep(cfg, o, ps, k, d + 1, calls, res, halted);
      }
    }
  }

  /** Taking the top keeps the handled events latest first, none of the rest later than
      the last handled one, and the handled and queued events together the starting queue. */
  lemma {:induction false} PopOrder(q0: seq<Event>, q: seq<Event>, ps: seq<Event>)
    requires q != [] && Descending(ps) && (ps != [] ==> Below(q, ps[|ps| - 1].timestamp))
    requires multiset(ps) + multiset(q) == multiset(q0)
    ensures var i := Top(q); var ps' := ps + [q[i]];
      && Descending(ps') && Below(Remove(q, i), q[i].timestamp)
      && multiset(ps') + multiset(Remove(q, i)) == multiset(q0)
  {
    var i := Top(q);
    var ps', rest := ps + [q[i]], Remove(q, i);
    assert ps'[..|ps'| - 1] == ps;
    forall x | x in rest
      ensures x.timestamp <= q[i].timestamp
    {
      assert x in multiset(rest);
      assert x in multiset(q);
    }
  }

  /** The failures of one more handled event. */
  lemma {:induction false} FailuresNext(o: Oracle, ps: seq<Event>, e: Event)
    ensures var r := o.repair(|ps|);
      Failures(o, ps + [e]) == Failures(o, ps) + if Fails(r) then [Failure(e.timestamp, r.undetected, r.uncorrected)] else []
  {
    assert (ps + [e])[..|ps|] == ps;
  }

  /** Inserting the top into its device and repairing keeps the trace legal. */
  lemma {:induction false} PopCalls(cfg: Setup, o: Oracle, ps: seq<Event>, e: Event, cs: seq<Call>)
    requires cfg.scrubInterval > 0 && Shape(cfg, cs, ps) && Refills(o, cs) == 0
    ensures var ps', k := ps + [e], |ps|;
      var calls := cs + [Insert(k, e.device), RepairFirst(k)];
      Shape(cfg, calls, ps') && Refills(o, calls) == 0
  {
    var ps', k := ps + [e], |ps|;
    ShapeGrows(cfg, ps, e, cs);
    var a := cs + [Insert(k, e.device)];
    var calls := a + [RepairFirst(k)];
    assert cs + [Insert(k, e.device), RepairFirst(k)] == calls;
    assert a[..|a| - 1] == cs;
    assert calls[..|calls| - 1] == a;
    assert ps'[k] == e;
    RefillsAppend(o, cs, Insert(k, e.device));
    RefillsAppend(o, a, RepairFirst(k));
  }

  /** A trial without continue-running that logs its first failure closes with result 1. */
  lemma {:induction false} FailureCloses(cfg: Setup, o: Oracle, q0: seq<Event>, ps: seq<Event>, calls: seq<Call>, logged: seq<Failure>, id: nat, p: Pass)
    requires cfg.scrubInterval > 0 && !cfg.continueRunning
    requires Shape(cfg, calls, ps) && Refills(o, calls) == 0
    requires Descending(ps) && multiset(ps) <= multiset(q0)
    requires logged == Failures(o, ps) && |logged| == 1 && ps != [] && |calls| >= 3
    requires calls[|calls| - 2] == Insert(|ps| - 1, ps[|ps| - 1].device) && calls[|calls| - 1] == RepairFirst(|ps| - 1)
    requires p == Pass(0, id, logged, ps, calls + [FinalizeAll])
    ensures Closed(cfg, o, q0, 1, p)
  {
    var f := calls + [FinalizeAll];
    assert f[..|f| - 1] == calls;
    assert f[|f| - 3] == calls[|calls| - 2] && f[|f| - 2] == calls[|calls| - 1];
    RefillsAppend(o, calls, FinalizeAll);
    assert ClosedTrace(cfg, p);
    assert ClosedQueue(q0, 1, p);
    assert ClosedResult(cfg, o, 1, p);
  }

  /** A trial stopped by a replacement request closes with result 1. */
  lemma {:induction false} RefillCloses(cfg: Setup, o: Oracle, q0: seq<Event>, p: Pass)
    requires cfg.scrubInterval > 0
    requires |p.trace| >= 2 && p.trace[|p.trace| - 1] == FinalizeAll && Shape(cfg, p.trace[..|p.trace| - 1], p.popped)
    requires Refills(o, p.trace) == 1
    requires Descending(p.popped) && multiset(p.popped) <= multiset(q0)
    requires p.logged == Failures(o, p.popped) && (!cfg.continueRunning ==> p.logged == [])
    ensures Closed(cfg, o, q0, 1, p)
  {
    assert ClosedTrace(cfg, p);
    assert ClosedQueue(q0, 1, p);
    assert ClosedResult(cfg, o, 1, p);
  }

  /** The facts a turn that does not stop establishes keep the trial open. */
  lemma {:induction false} Reopens(cfg: Setup, o: Oracle, q0: seq<Event>, rest: seq<Event>, popped: seq<Event>, calls: seq<Call>,
                logged: seq<Failure>, errors: nat, id: nat, p: Pass)
    requires cfg.scrubInterval > 0 && popped != []
    requires Shape(cfg, calls, popped) && Refills(o, calls) == 0
    requires Descending(popped) && Below(rest, popped[|popped| - 1].timestamp)
    requires multiset(popped) + multiset(rest) == multiset(q0)
    requires logged == Failures(o, popped) && (!cfg.continueRunning ==> logged == [])
    requires id == ScrubId(cfg, popped[|popped| - 1].timestamp)
    requires errors == if cfg.continueRunning && LastFailed(o, popped) then 1 else 0
    requires p == Pass(errors, id, logged, popped, calls)
    ensures Open(cfg, o, q0, rest, p)
  {
  }

  /** A turn whose event opens a new scrub period: scrubbing either stops the trial with
      result 1 or leaves it open. */
  lemma {:induction false} ScrubTurn(cfg: Setup, o: Oracle, q0: seq<Event>, rest: seq<Event>, popped: seq<Event>, calls: seq<Call>,
                  logged: seq<Failure>, errors: nat, id: nat, p: Pass, halted: bool)
    requires cfg.scrubInterval > 0 && popped != [] && Changed(cfg, popped, |popped| - 1)
    requires Shape(cfg, calls, popped) && Refills(o, calls) == 0
    requires Descending(popped) && Below(rest, popped[|popped| - 1].timestamp)
    requires multiset(popped) + multiset(rest) == multiset(q0)
    requires logged == Failures(o, popped) && (!cfg.continueRunning ==> logged == [])
    requires id == ScrubId(cfg, popped[|popped| - 1].timestamp)
    requires errors == if cfg.continueRunning && LastFailed(o, popped) then 1 else 0
    requires var s := Scrubs(cfg, o, |popped| - 1, 0, calls); p == Pass(errors, id, logged, popped, s.0) && halted == s.1
    ensures halted ==> Closed(cfg, o, q0, 1, p)
    ensures !halted ==> Open(cfg, o, q0, rest, p)
  {
    var s := Scrubs(cfg, o, |popped| - 1, 0, calls);
    ScrubsKeep(cfg, o, popped, |popped| - 1, 0, calls, s.0, s.1);
    assert multiset(popped) <= multiset(q0);
    if s.1 {
      RefillCloses(cfg, o, q0, p);
    } else {
      Reopens(cfg, o, q0, rest, popped, s.0, logged, errors, id, p);
    }
  }

  /** The parts of a turn: the top event `e` of step `k`, its repair `r`, the handled
      events, the calls up to the repair, the log. */
  lemma {:induction false} PopParts(cfg: Setup, o: Oracle, q: seq<Event>, p: Pass, rest: seq<Event>, p': Pass, halted: bool)
    requires cfg.scrubInterval > 0 && q != []
    requires (rest, p', halted) == Pop(cfg, o, q, p)
    ensures var i := Top(q); var e, k := q[i], |p.popped|; var r := o.repair(k);
      var calls := p.trace + [Insert(k, e.device), RepairFirst(k)];
      var id := ScrubId(cfg, e.timestamp);
      && rest == Remove(q, i)
      && p'.popped == p.popped + [e]
      && p'.logged == (if Fails(r) then p.logged + [Failure(e.timestamp, r.undetected, r.uncorrected)] else p.logged)
      && (!cfg.continueRunning && Fails(r) ==> halted && p'.errors == 0 && p'.trace == calls + [FinalizeAll])
      && (!(!cfg.continueRunning && Fails(r)) ==>
            && p'.errors == (if Fails(r) then 1 else 0) && p'.scrubId == id
            && (id == p.scrubId ==> !halted && p'.trace == calls)
            && (id != p.scrubId ==> (p'.trace, halted) == Scrubs(cfg, o, k, 0, calls)))
  {
  }

  /** One turn of the loop keeps a trial open, or closes it with result 1. */
  lemma {:induction false} PopKeeps(cfg: Setup, o: Oracle, q0: seq<Event>, q: seq<Event>, p: Pass, rest: seq<Event>, p': Pass, halted: bool)
    requires cfg.scrubInterval > 0 && q != [] && Open(cfg, o, q0, q, p)
    requires (rest, p', halted) == Pop(cfg, o, q, p)
    ensures halted ==> Closed(cfg, o, q0, 1, p')
    ensures !halted ==> Open(cfg, o, q0, rest, p')
  {
    PopParts(cfg, o, q, p, rest, p', halted);
    var i := Top(q);
    var e, k := q[i], |p.popped|;
    var r := o.repair(k);
    var popped := p.popped + [e];
    var calls := p.trace + [Insert(k, e.device), RepairFirst(k)];
    PopOrder(q0, q, p.popped);
    FailuresNext(o, p.popped, e);
    PopCalls(cfg, o, p.popped, e, p.trace);
    if !cfg.continueRunning && Fails(r) {
      assert calls[|calls| - 2] == Insert(k, e.device) && popped[k] == e;
      FailureCloses(cfg, o, q0, popped, calls, p'.logged, p'.scrubId, p');
    } else {
      var id := ScrubId(cfg, e.timestamp);
      assert p'.errors == if cfg.continueRunning && LastFailed(o, popped) then 1 else 0;
      if id != p.scrubId {
        assert Changed(cfg, popped, k) by {
          if k > 0 { assert popped[k - 1] == p.popped[k - 1]; }
        }
        ScrubTurn(cfg, o, q0, rest, popped, calls, p'.logged, p'.errors, id, p', halted);
      } else {
        Reopens(cfg, o, q0, rest, popped, calls, p'.logged, p'.errors, id, p');
      }
    }
  }

  /** A trial run out of events closes with its error flag as the result. */
  lemma {:induction false} EndCloses(cfg: Setup, o: Oracle, q0: seq<Event>, p: Pass)
    requires cfg.scrubInterval > 0 && Open(cfg, o, q0, [], p)
    ensures Closed(cfg, o, q0, if p.errors > 0 then 1 else 0, p.(trace := p.trace + [FinalizeAll]))
  {
    var f := p.trace + [FinalizeAll];
    assert f[..|f| - 1] == p.trace;
    RefillsAppend(o, p.trace, FinalizeAll);
    assert multiset(p.popped) == multiset(q0);
  }

  /** Every trial closes. */
  lemma {:induction false} DrainCloses(cfg: Setup, o: Oracle, q0: seq<Event>, q: seq<Event>, p: Pass, res: nat, u: Pass)
    requires cfg.scrubInterval > 0 && Open(cfg, o, q0, q, p)
    requires (res, u) == Drain(cfg, o, q, p)
    ensures Closed(cfg, o, q0, res, u)
    decreases |q|
  {
    if q == [] {
      EndCloses(cfg, o, q0, p);
    } else {
      var v := Pop(cfg, o, q, p);
      PopKeeps(cfg, o, q0, q, p, v.0, v.1, v.2);
      if !v.2 {
        DrainCloses(cfg, o, q0, v.0, v.1, res, u);
      }
    }
  }

  /** A trial from reset closes. */
  lemma {:induction false} RunCloses(cfg: Setup, o: Oracle, q0: seq<Event>)
    requires cfg.scrubInterval > 0
    ensures var e := EventRun(cfg, o, q0); Closed(cfg, o, q0, e.0, e.1)
  {
    var p := Pass(0, 0, [], [], [ResetAll]);
    assert Refills(o, [ResetAll]) == 0 by {
      assert [ResetAll][..0] == [];
    }
    assert Open(cfg, o, q0, q0, p);
    var e := Drain(cfg, o, q0, p);
    DrainCloses(cfg, o, q0, q0, p, e.0, e.1);
  }

  // ---------------------------------------------------------------- what a trial does

  /** A trial resets first and finalizes last, and every call in between is legal: each
      handled event joins its own device right before the first domain is repaired, and
      the domains are scrubbed only at a step whose event opens a new scrub period. */
  lemma {:induction false} EventTraceLegal(cfg: Setup, o: Oracle, q0: seq<Event>)
    requires cfg.scrubInterval > 0
    ensures var e := EventRun(cfg, o, q0); var tr := e.1.trace;
      && |tr| >= 2 && tr[0] == ResetAll && tr[|tr| - 1] == FinalizeAll
      && forall i :: 0 < i < |tr| - 1 ==> Legal(cfg, e.1.popped, tr[i - 1], tr[i])
  {
    RunCloses(cfg, o, q0);
    var e := EventRun(cfg, o, q0);
    var tr := e.1.trace;
    var body := tr[..|tr| - 1];
    ShapeElements(cfg, e.1.popped, body);
    forall i | 0 < i < |tr| - 1
      ensures Legal(cfg, e.1.popped, tr[i - 1], tr[i])
    {
      assert body[i] == tr[i] && body[i - 1] == tr[i - 1];
    }
  }

  /** Events are handled latest first, each queued event at most once, and a trial that
      reports 0 has handled every queued event. */
  lemma {:induction false} EventPopOrder(cfg: Setup, o: Oracle, q0: seq<Event>)
    requires cfg.scrubInterval > 0
    ensures var e := EventRun(cfg, o, q0); var ps := e.1.popped;
      && (forall i, j :: 0 <= i <= j < |ps| ==> ps[j].timestamp <= ps[i].timestamp)
      && multiset(ps) <= multiset(q0)
      && (e.0 == 0 ==> multiset(ps) == multiset(q0))
  {
    RunCloses(cfg, o, q0);
    DescendingOrder(EventRun(cfg, o, q0).1.popped);
  }

  /** The log holds exactly the failures of the handled events, in order, and the result
      is 0 or 1. */
  lemma {:induction false} EventFailuresLogged(cfg: Setup, o: Oracle, q0: seq<Event>)
    requires cfg.scrubInterval > 0
    ensures var e := EventRun(cfg, o, q0); e.1.logged == Failures(o, e.1.popped) && e.0 <= 1
  {
    RunCloses(cfg, o, q0);
  }

  /** Without continue-running, a trial stops at its first failure: at most one failure is
      logged, the result is 1 exactly when one is or a replacement was requested, and a
      logged failure ends the trial right after the repair of the last handled event. */
  lemma {:induction false} EventHaltOnFirstFailure(cfg: Setup, o: Oracle, q0: seq<Event>)
    requires cfg.scrubInterval > 0 && !cfg.continueRunning
    ensures var e := EventRun(cfg, o, q0); var tr, ps := e.1.trace, e.1.popped;
      && |e.1.logged| <= 1
      && (e.0 == 1 <==> |e.1.logged| + Refills(o, tr) > 0)
      && (e.1.logged != [] ==>
            |tr| >= 4 && ps != []
            && tr[|tr| - 3] == Insert(|ps| - 1, ps[|ps| - 1].device)
            && tr[|tr| - 2] == RepairFirst(|ps| - 1) && tr[|tr| - 1] == FinalizeAll)
  {
    RunCloses(cfg, o, q0);
  }

  /** With continue-running, the error flag is cleared before every repair, so the result
      is 1 exactly when a replacement was requested or the last handled event failed;
      failures of earlier events are logged but do not count. */
  lemma {:induction false} EventResultIsLastEvent(cfg: Setup, o: Oracle, q0: seq<Event>)
    requires cfg.scrubInterval > 0 && cfg.continueRunning
    ensures var e := EventRun(cfg, o, q0);
      e.0 == 1 <==> Refills(o, e.1.trace) > 0 || LastFailed(o, e.1.popped)
  {
    RunCloses(cfg, o, q0);
  }

  /** An instance: two events in scrub period 0, the later one (handled first) fails, the
      earlier one does not; the trial logs one failure and still reports 0. */
  lemma {:induction false} EarlierFailureForgotten()
    ensures var at := Fields(0, 0, 0, 0, 0);
      var q := [Event(0, 0, 1, KindRequest(0, at)), Event(0, 0, 2, KindRequest(0, at))];
      var o := Oracle(k => if k == 0 then Repaired(1, 0) else Repaired(0, 0), (k, d) => 0);
      var e := EventRun(Setup(10, true, 1), o, q);
      e.0 == 0 && |e.1.logged| == 1
  {
    var at := Fields(0, 0, 0, 0, 0);
    var a, b := Event(0, 0, 1, KindRequest(0, at)), Event(0, 0, 2, KindRequest(0, at));
    var q := [a, b];
    var o := Oracle(k => if k == 0 then Repaired(1, 0) else Repaired(0, 0), (k, d) => 0);
    var cfg := Setup(10, true, 1);
    var p0 := Pass(0, 0, [], [], [ResetAll]);
    assert Top(q) == 1;
    assert Remove(q, 1) == [a];
    var v := Pop(cfg, o, q, p0);
    assert v.0 == [a] && !v.2;
    assert v.1.logged == [Failure(2, 1, 0)];
    assert Top([a]) == 0 && Remove([a], 0) == [];
    var w := Pop(cfg, o, [a], v.1);
    assert !w.2 && w.0 == [] && w.1.errors == 0 && w.1.logged == v.1.logged;
  }

  // ---------------------------------------------------------------- the histogram

  /** The histogram bin of time `t`. */
  function EventBin(t: nat, binLength: nat): nat
    requires binLength > 0
  {
    t / binLength
  }

  /** Every event of `q` has its time's bin among the histograms' `n` bins. */
  predicate Binned(q: seq<Event>, n: nat, binLength: nat)
  {
    binLength > 0 && forall e :: e in q ==> EventBin(e.timestamp, binLength) < n
  }

  /** A failure as the histogram logs it. */
  function AsLogged(f: Failure): Simulations.Failure
  {
    Simulations.Failure(f.timestamp, 0, f.undetected, f.uncorrected)
  }

  /** Logging failures `fs` in order, each in the bin of its time. */
  function LogEvents(h: Simulations.Bins, fs: seq<Failure>, binLength: nat): Simulations.Bins
    requires binLength > 0
  {
    if fs == [] then h
    else
      var f := fs[|fs| - 1];
      Simulations.Log(LogEvents(h, fs[..|fs| - 1], binLength), EventBin(f.timestamp, binLength), AsLogged(f))
  }

  /** Logging failures whose bins exist adds one to the failure total per failure. */
  lemma {:induction false} LogEventsCounts(h: Simulations.Bins, fs: seq<Failure>, binLength: nat)
    requires binLength > 0
    requires forall k :: 0 <= k < |fs| ==> EventBin(fs[k].timestamp, binLength) < |h.faults|
    ensures |LogEvents(h, fs, binLength).faults| == |h.faults|
    ensures Simulations.Sum(LogEvents(h, fs, binLength).faults) == Simulations.Sum(h.faults) + |fs|
  {
    if fs != [] {
      var init, f := fs[..|fs| - 1], fs[|fs| - 1];
      assert forall k :: 0 <= k < |init| ==> init[k] == fs[k];
      LogEventsCounts(h, init, binLength);
      var prev := LogEvents(h, init, binLength);
      Simulations.SumBump(prev.faults, EventBin(f.timestamp, binLength));
    }
  }

  /** `n` bins of `binLength` seconds hold exactly the events before time `n * binLength`. */
  lemma {:induction false} BinnedIff(q: seq<Event>, n: nat, binLength: nat)
    requires binLength > 0
    ensures Binned(q, n, binLength) <==> forall e :: e in q ==> e.timestamp < n * binLength
  {
    forall e | e in q
      ensures EventBin(e.timestamp, binLength) < n <==> e.timestamp < n * binLength
    {
      BinBelow(e.timestamp, n, binLength);
    }
  }

  /** Time `t` falls in one of the first `n` bins iff it is before their end. */
  lemma {:induction false} BinBelow(t: nat, n: nat, binLength: nat)
    requires binLength > 0
    ensures t / binLength < n <==> t < n * binLength
  {
    var d, m := t / binLength, t % binLength;
    assert t == d * binLength + m;
    if d < n {
      assert d + 1 <= n;
      assert (d + 1) * binLength <= n * binLength;
    } else {
      assert n * binLength <= d * binLength;
    }
  }

  /** With the `maxS / binLength` bins that `simulate` allocates, an event at exactly
      `maxS` has no bin: 10-second trials with 5-second bins have bins 0 and 1, and time
      10 falls in bin 2. */
  lemma {:induction false} EventBinAtHorizon(e: Event, maxS: nat, binLength: nat)
    requires binLength > 0 && e.timestamp == maxS
    ensures !Binned([e], maxS / binLength, binLength)
  {
    assert e in [e];
    BinBelow(maxS, maxS / binLength, binLength);
  }

  // ---------------------------------------------------------------- the engine

  /** A stream whose clock is already past `maxS` yields nothing. */
  lemma {:induction false} StreamPast(device: nat, errtype: nat, ds: seq<Draw>, clock: nat, maxS: nat)
    requires errtype < ErrTypes && clock > maxS
    ensures Stream(device, errtype, ds, clock, maxS) == []
  {
  }

  /** Counting one more queued event. */
  lemma {:induction false} TallyNext(q: seq<Event>, e: Event, n: nat, transient: bool)
    ensures Tally(q + [e], n, transient) == Simulations.Bump(Tally(q, n, transient), e.device, e.request.transient == transient)
  {
    assert (q + [e])[..|q|] == q;
  }

  /** The generator's loop for one device and kind: while the clock is within `maxS`, draw
      the next period; an arrival within `maxS` becomes a queued event of that device and
      kind, counted on the device as transient or permanent. */
  method StreamInto(device: nat, errtype: nat, ds: seq<Draw>, maxS: nat, n: nat,
                    queue: seq<Event>, transient: seq<nat>, permanent: seq<nat>)
    returns (queue': seq<Event>, transient': seq<nat>, permanent': seq<nat>)
    requires errtype < ErrTypes
    requires transient == Tally(queue, n, true) && permanent == Tally(queue, n, false)
    ensures queue' == queue + Stream(device, errtype, ds, 0, maxS)
    ensures transient' == Tally(queue', n, true) && permanent' == Tally(queue', n, false)
  {
    queue', transient', permanent' := queue, transient, permanent;
    var clock: nat := 0;
    var k := 0;
    while clock <= maxS && k < |ds|
      invariant k <= |ds|
      invariant queue' + Stream(device, errtype, ds[k..], clock, maxS) == queue + Stream(device, errtype, ds, 0, maxS)
      invariant transient' == Tally(queue', n, true) && permanent' == Tally(queue', n, false)
      decreases |ds| - k
    {
      assert ds[k..][1..] == ds[k + 1..];
      clock := clock + ds[k].period;
      if clock <= maxS {
        var e := Event(device, errtype, clock, KindRequest(errtype, ds[k].at));
        TallyNext(queue', e, n, true);
        TallyNext(queue', e, n, false);
        queue' := queue' + [e];
        transient' := Simulations.Bump(transient', device, e.request.transient);
        permanent' := Simulations.Bump(permanent', device, !e.request.transient);
      } else {
        StreamPast(device, errtype, ds[k + 1..], clock, maxS);
      }
      k := k + 1;
    }
    if clock > maxS {
      StreamPast(device, errtype, ds[k..], clock, maxS);
    }
  }

  /** The generation phase of `runOne`: for every device, for every kind, its stream of
      events, with the devices' transient and permanent fault counts. */
  method Generate(draws: seq<seq<seq<Draw>>>, maxS: nat) returns (queue: seq<Event>, transient: seq<nat>, permanent: seq<nat>)
    requires WellDrawn(draws)
    ensures queue == Generated(draws, 0, 0, maxS)
    ensures transient == Tally(queue, |draws|, true) && permanent == Tally(queue, |draws|, false)
  {
    var n := |draws|;
    queue, transient, permanent := [], Simulations.Zeros(n), Simulations.Zeros(n);
    var device := 0;
    while device < n
      invariant device <= n
      invariant queue + Generated(draws, device, 0, maxS) == Generated(draws, 0, 0, maxS)
      invariant transient == Tally(queue, n, true) && permanent == Tally(queue, n, false)
    {
      var errtype := 0;
      while errtype < ErrTypes
        invariant errtype <= ErrTypes
        invariant queue + Generated(draws, device, errtype, maxS) == Generated(draws, 0, 0, maxS)
        invariant transient == Tally(queue, n, true) && permanent == Tally(queue, n, false)
      {
        ghost var before := queue;
        queue, transient, permanent := StreamInto(device, errtype, draws[device][errtype], maxS, n, queue, transient, permanent);
        GeneratedNext(draws, device, errtype, maxS, before);
        errtype := errtype + 1;
      }
      device := device + 1;
    }
  }

  /** One kind of one device further into the generation order. */
  lemma {:induction false} GeneratedNext(draws: seq<seq<seq<Draw>>>, device: nat, errtype: nat, maxS: nat, q: seq<Event>)
    requires WellDrawn(draws) && device < |draws| && errtype < ErrTypes
    ensures q + Generated(draws, device, errtype, maxS)
         == (q + Stream(device, errtype, draws[device][errtype], 0, maxS)) + Generated(draws, device, errtype + 1, maxS)
    ensures errtype + 1 == ErrTypes ==> Generated(draws, device, errtype + 1, maxS) == Generated(draws, device + 1, 0, maxS)
  {
  }

  /** The scrub of `runOne`: every domain in turn is scrubbed and asked to fill in its
      replacements; a nonzero answer finalizes and stops the trial. */
  method ScrubAll(cfg: Setup, o: Oracle, k: nat, calls: seq<Call>) returns (calls': seq<Call>, halted: bool)
    ensures (calls', halted) == Scrubs(cfg, o, k, 0, calls)
  {
    calls' := calls;
    var d := 0;
    while d < cfg.domains
      invariant Scrubs(cfg, o, k, d, calls') == Scrubs(cfg, o, k, 0, calls)
      decreases cfg.domains - d
    {
      calls' := calls' + [ScrubDomain(k, d), FillRepl(k, d)];
      if o.fillRepl(k, d) != 0 {
        return calls' + [FinalizeAll], true;
      }
      d := d + 1;
    }
    halted := false;
  }

  /** One turn of the event loop of `runOne`, logging a failure in the bin of its event's time. */
  method PopOne(sim: Simulations.Simulation, cfg: Setup, o: Oracle, q: seq<Event>, p: Pass,
                binLength: nat, ghost h0: Simulations.Bins)
    returns (rest: seq<Event>, p': Pass, halted: bool)
    requires sim.Valid() && q != [] && cfg.scrubInterval > 0
    requires Binned(q, sim.failTimeBins.Length, binLength)
    requires sim.Hist() == LogEvents(h0, p.logged, binLength)
    modifies sim.failTimeBins, sim.failUncorrectable, sim.failUndetectable
    ensures (rest, p', halted) == Pop(cfg, o, q, p)
    ensures Binned(rest, sim.failTimeBins.Length, binLength)
    ensures sim.Hist() == LogEvents(h0, p'.logged, binLength)
  {
    var i := Top(q);
    var e, k := q[i], |p.popped|;
    rest := Remove(q, i);
    var calls := p.trace + [Insert(k, e.device), RepairFirst(k)];
    var r := o.repair(k);
    var logged := p.logged;
    if Fails(r) {
      var f := Failure(e.timestamp, r.undetected, r.uncorrected);
      sim.Record(EventBin(e.timestamp, binLength), AsLogged(f));
      assert (logged + [f])[..|logged|] == logged;
      logged := logged + [f];
    }
    forall x | x in rest
      ensures EventBin(x.timestamp, binLength) < sim.failTimeBins.Length
    {
      assert x in multiset(rest);
      assert x in multiset(q);
    }
    if !cfg.continueRunning && Fails(r) {
      return rest, Pass(0, p.scrubId, logged, p.popped + [e], calls + [FinalizeAll]), true;
    }
    var id := ScrubId(cfg, e.timestamp);
    var trace := calls;
    halted := false;
    if id != p.scrubId {
      trace, halted := ScrubAll(cfg, o, k, calls);
    }
    p' := Pass(if Fails(r) then 1 else 0, id, logged, p.popped + [e], trace);
  }

  /** `runOne` of the event-driven engine: reset, queue every device's faults up to
      `maxS`, then handle them latest first until the queue is empty or the trial stops;
      returns the result, the trial's record, and the faults counted per device. */
  method RunOne(sim: Simulations.Simulation, maxS: nat, binLength: nat, draws: seq<seq<seq<Draw>>>, o: Oracle)
    returns (result: nat, pass: Pass, transient: seq<nat>, permanent: seq<nat>)
    requires sim.Valid() && sim.scrubInterval > 0 && sim.domains > 0 && WellDrawn(draws)
    requires Binned(Generated(draws, 0, 0, maxS), sim.failTimeBins.Length, binLength)
    modifies sim.failTimeBins, sim.failUncorrectable, sim.failUndetectable
    ensures var q := Generated(draws, 0, 0, maxS);
      && (result, pass) == EventRun(Setup(sim.scrubInterval, sim.continueRunning, sim.domains), o, q)
      && transient == Tally(q, |draws|, true) && permanent == Tally(q, |draws|, false)
    ensures sim.Hist() == LogEvents(old(sim.Hist()), pass.logged, binLength)
  {
    var queue;
    queue, transient, permanent := Generate(draws, maxS);
    GeneratedEvents(draws, 0, 0, maxS);
    var cfg := Setup(sim.scrubInterval, sim.continueRunning, sim.domains);
    ghost var h0 := sim.Hist();
    var q := queue;
    pass := Pass(0, 0, [], [], [ResetAll]);
    while q != []
      invariant Drain(cfg, o, q, pass) == EventRun(cfg, o, queue)
      invariant Binned(q, sim.failTimeBins.Length, binLength)
      invariant sim.Hist() == LogEvents(h0, pass.logged, binLength)
      decreases |q|
    {
      var rest, next, halted := PopOne(sim, cfg, o, q, pass, binLength, h0);
      if halted {
        return 1, next, transient, permanent;
      }
      q, pass := rest, next;
    }
    result := if pass.errors > 0 then 1 else 0;
    pass := pass.(trace := pass.trace + [FinalizeAll]);
  }
}
