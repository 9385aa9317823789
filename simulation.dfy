/** The interval engine (Simulation.cpp). Time advances in fixed steps. At every step each
    fault domain is updated, and repaired when its update reports a new fault; at every
    scrub step each domain is scrubbed and asked whether it must be replaced. A trial that
    fails is logged in three histograms indexed by the time bin of the failure.

    The domains are abstract here: what each one reports in each interval is an input (a
    `Reply`), and the calls the engine makes on them are its trace. The engine's own
    bookkeeping (halting, cadence, binning, tallies) is modelled as the source does it. */
module Simulations {
  import opened Options

  // ---------------------------------------------------------------- trials as a fold

  /** A call the engine makes: `reset` and `finalize` go to every domain, the others to
      domain `domain` in interval `iter`. */
  datatype Call =
    | ResetAll
    | Update(iter: nat, domain: nat)
    | Repair(iter: nat, domain: nat)
    | Scrub(iter: nat, domain: nat)
    | FillRepl(iter: nat, domain: nat)
    | FinalizeAll

  /** What one domain reports in one interval: whether its update added a fault, the two
      outputs its repair gives, and what its `fill_repl` returns after a scrub. */
  datatype Reply = Reply(newFault: bool, undetected: nat, uncorrected: nat, replace: nat)

  /** The outputs the engine sees for a domain: repair runs only after a new fault, so
      without one both stay 0. */
  function Undetected(r: Reply): nat
  {
    if r.newFault then r.undetected else 0
  }

  function Uncorrected(r: Reply): nat
  {
    if r.newFault then r.uncorrected else 0
  }

  /** The domain's repair left an undetected or an uncorrected error. */
  predicate Fails(r: Reply)
  {
    Undetected(r) > 0 || Uncorrected(r) > 0
  }

  /** A failure written to the histograms: when and where it happened, and the outputs. */
  datatype Failure = Failure(iter: nat, domain: nat, undetected: nat, uncorrected: nat)

  /** The state the trial loop carries: its failure count (`errors`), the failures it
      logged, and the calls made so far. */
  datatype Trial = Trial(errors: nat, logged: seq<Failure>, trace: seq<Call>)

  /** The engine's settings for a trial: scrub every `scrubRatio` intervals; whether to run on
      after a failure. */
  datatype Config = Config(scrubRatio: nat, continueRunning: bool)

  /** Domain `d` in interval `iter`: update, repair after a new fault, and on a failure either
      stop the trial (finalize and log it) or log it, count it and go on. The flag says
      whether the trial stopped. */
  function Visit(cfg: Config, r: Reply, iter: nat, d: nat, t: Trial): (Trial, bool)
  {
    var calls := if r.newFault then t.trace + [Update(iter, d)] + [Repair(iter, d)] else t.trace + [Update(iter, d)];
    if !Fails(r) then (Trial(t.errors, t.logged, calls), false)
    else
      var logged := t.logged + [Failure(iter, d, Undetected(r), Uncorrected(r))];
      if cfg.continueRunning then (Trial(t.errors + 1, logged, calls), false)
      else (Trial(t.errors, logged, calls + [FinalizeAll]), true)
  }

  /** Domains `d` onward of interval `iter`. */
  function Domains(cfg: Config, script: seq<seq<Reply>>, iter: nat, d: nat, t: Trial): (Trial, bool)
    requires iter < |script|
    decreases |script[iter]| - d
  {
    if d >= |script[iter]| then (t, false)
    else
      var v := Visit(cfg, script[iter][d], iter, d, t);
      if v.1 then v else Domains(cfg, script, iter, d + 1, v.0)
  }

  /** The scrub pass over domains `d` onward: scrub, then stop the trial (finalize) if the
      domain must be replaced. */
  function Scrubs(script: seq<seq<Reply>>, iter: nat, d: nat, t: Trial): (Trial, bool)
    requires iter < |script|
    decreases |script[iter]| - d
  {
    if d >= |script[iter]| then (t, false)
    else
      var calls := t.trace + [Scrub(iter, d), FillRepl(iter, d)];
      if script[iter][d].replace != 0 then (Trial(t.errors, t.logged, calls + [FinalizeAll]), true)
      else Scrubs(script, iter, d + 1, Trial(t.errors, t.logged, calls))
  }

  /** Interval `iter`: the domain pass, then at a scrub step the scrub pass. */
  function Interval(cfg: Config, script: seq<seq<Reply>>, iter: nat, t: Trial): (Trial, bool)
    requires iter < |script| && cfg.scrubRatio > 0
  {
    var u := Domains(cfg, script, iter, 0, t);
    if u.1 || iter % cfg.scrubRatio != 0 then u else Scrubs(script, iter, 0, u.0)
  }

  /** Intervals `iter` onward: the trial's return value and final state. A trial that runs
      to the end returns 1 when it counted a failure. */
  function Intervals(cfg: Config, script: seq<seq<Reply>>, iter: nat, t: Trial): (nat, Trial)
    requires cfg.scrubRatio > 0
    decreases |script| - iter
  {
    if iter >= |script| then (if t.errors > 0 then 1 else 0, Trial(t.errors, t.logged, t.trace + [FinalizeAll]))
    else
      var v := Interval(cfg, script, iter, t);
      if v.1 then (1, v.0) else Intervals(cfg, script, iter + 1, v.0)
  }

  /** A whole trial: the domains are reset, then the intervals run. */
  function Run(cfg: Config, script: seq<seq<Reply>>): (nat, Trial)
    requires cfg.scrubRatio > 0
  {
    Intervals(cfg, script, 0, Trial(0, [], [ResetAll]))
  }

  // ---------------------------------------------------------------- what a trace shows

  /** A call to one domain. */
  predicate Middle(c: Call)
  {
    c.Update? || c.Repair? || c.Scrub? || c.FillRepl?
  }

  /** A call the engine may make: on a domain of the script, a repair only after a new fault,
      a scrub or replacement check only at a scrub step. */
  predicate Legal(cfg: Config, script: seq<seq<Reply>>, c: Call)
  {
    match c
    case Update(i, d) => i < |script| && d < |script[i]|
    case Repair(i, d) => i < |script| && d < |script[i]| && script[i][d].newFault
    case Scrub(i, d) => i < |script| && d < |script[i]| && cfg.scrubRatio > 0 && i % cfg.scrubRatio == 0
    case FillRepl(i, d) => i < |script| && d < |script[i]| && cfg.scrubRatio > 0 && i % cfg.scrubRatio == 0
    case _ => true
  }

  /** The failures the calls `cs` reveal, in order: every update of a domain whose repair
      failed. */
  function Logged(script: seq<seq<Reply>>, cs: seq<Call>): seq<Failure>
  {
    if cs == [] then []
    else
      var c := cs[|cs| - 1];
      Logged(script, cs[..|cs| - 1])
      + if c.Update? && c.iter < |script| && c.domain < |script[c.iter]| && Fails(script[c.iter][c.domain]) then
          var r := script[c.iter][c.domain];
          [Failure(c.iter, c.domain, Undetected(r), Uncorrected(r))]
        else []
  }

  /** Number of replacement checks in `cs` that asked for a replacement. */
  function Replacements(script: seq<seq<Reply>>, cs: seq<Call>): nat
  {
    if cs == [] then 0
    else
      var c := cs[|cs| - 1];
      Replacements(script, cs[..|cs| - 1])
      + if c.FillRepl? && c.iter < |script| && c.domain < |script[c.iter]| && script[c.iter][c.domain].replace != 0 then 1 else 0
  }

  /** Number of updates in `cs`. */
  function Updates(cs: seq<Call>): nat
  {
    if cs == [] then 0 else Updates(cs[..|cs| - 1]) + if cs[|cs| - 1].Update? then 1 else 0
  }

  /** Number of (interval, domain) cells in the first `n` intervals of the script. */
  function Cells(script: seq<seq<Reply>>, n: nat): nat
    requires n <= |script|
  {
    if n == 0 then 0 else Cells(script, n - 1) + |script[n - 1]|
  }

  /** The counting functions over one more call. */
  lemma {:induction false} CountsAppend(script: seq<seq<Reply>>, cs: seq<Call>, c: Call)
    ensures Logged(script, cs + [c]) == Logged(script, cs) + Logged(script, [c])
    ensures Replacements(script, cs + [c]) == Replacements(script, cs) + Replacements(script, [c])
    ensures Updates(cs + [c]) == Updates(cs) + Updates([c])
  {
    assert (cs + [c])[..|cs|] == cs;
  }

  /** A trace so far: the reset, then legal calls to domains. */
  ghost predicate Shape(cfg: Config, cs: seq<Call>, script: seq<seq<Reply>>)
    decreases |cs|
  {
    if |cs| <= 1 then cs == [ResetAll]
    else Shape(cfg, cs[..|cs| - 1], script) && Middle(cs[|cs| - 1]) && Legal(cfg, script, cs[|cs| - 1])
  }

  /** A trace of that shape, call by call. */
  lemma {:induction false} ShapeElements(cfg: Config, script: seq<seq<Reply>>, cs: seq<Call>)
    requires Shape(cfg, cs, script)
    ensures |cs| >= 1 && cs[0] == ResetAll
    ensures forall k :: 1 <= k < |cs| ==> Middle(cs[k]) && Legal(cfg, script, cs[k])
    decreases |cs|
  {
    if |cs| > 1 {
      ShapeElements(cfg, script, cs[..|cs| - 1]);
    }
  }

  /** One more legal call to a domain: the trace keeps its shape, and the counts grow by that
      call's share. */
  lemma {:induction false} Extend(cfg: Config, script: seq<seq<Reply>>, cs: seq<Call>, c: Call)
    requires Shape(cfg, cs, script) && Middle(c) && Legal(cfg, script, c)
    ensures Shape(cfg, cs + [c], script)
    ensures Logged(script, cs + [c]) == Logged(script, cs) + Logged(script, [c])
    ensures Replacements(script, cs + [c]) == Replacements(script, cs) + Replacements(script, [c])
    ensures Updates(cs + [c]) == Updates(cs) + Updates([c])
  {
    CountsAppend(script, cs, c);
    assert (cs + [c])[..|cs|] == cs;
  }

  /** A trial still running after `visited` updates: its trace has the running shape; its log
      is exactly the failures its calls reveal; no domain asked for a replacement; without
      continue-running nothing has failed, and with it every failure was counted. */
  ghost predicate Open(cfg: Config, script: seq<seq<Reply>>, t: Trial, visited: nat)
  {
    && Shape(cfg, t.trace, script)
    && t.logged == Logged(script, t.trace)
    && Replacements(script, t.trace) == 0
    && Updates(t.trace) == visited
    && (if cfg.continueRunning then t.errors == |t.logged| else t.logged == [] && t.errors == 0)
  }

  /** A finished trial with return value `res`: the running shape, then the finalize; the
      log is the failures the calls reveal; it returns 1 exactly when something failed or
      asked for a replacement; at most one replacement; without continue-running at most
      one failure, which ends the trial: its update and repair are the last calls before the
      finalize; and a trial that returns 0, or runs on and is never told to replace a
      domain, has updated every domain in every interval. */
  ghost predicate Closed(cfg: Config, script: seq<seq<Reply>>, res: nat, t: Trial)
  {
    && |t.trace| >= 2 && Shape(cfg, t.trace[..|t.trace| - 1], script) && t.trace[|t.trace| - 1] == FinalizeAll
    && t.logged == Logged(script, t.trace)
    && Replacements(script, t.trace) <= 1
    && res == (if |t.logged| + Replacements(script, t.trace) > 0 then 1 else 0)
    && (!cfg.continueRunning ==> |t.logged| <= 1)
    && (!cfg.continueRunning && t.logged != [] ==>
          |t.trace| >= 4 && t.trace[|t.trace| - 3] == Update(t.logged[0].iter, t.logged[0].domain)
          && t.trace[|t.trace| - 2] == Repair(t.logged[0].iter, t.logged[0].domain))
    && (res == 0 || (cfg.continueRunning && Replacements(script, t.trace) == 0) ==>
          Updates(t.trace) == Cells(script, |script|))
  }

  /** The calls of a visit: the update, and the repair after a new fault. They reveal the
      domain's failure, if any. */
  lemma {:induction false} VisitCalls(cfg: Config, script: seq<seq<Reply>>, iter: nat, d: nat, t: Trial, visited: nat)
    requires iter < |script| && d < |script[iter]| && Open(cfg, script, t, visited)
    ensures var r := script[iter][d];
      var calls := if r.newFault then t.trace + [Update(iter, d)] + [Repair(iter, d)] else t.trace + [Update(iter, d)];
      && Shape(cfg, calls, script)
      && Logged(script, calls) == t.logged + (if Fails(r) then [Failure(iter, d, Undetected(r), Uncorrected(r))] else [])
      && Replacements(script, calls) == 0
      && Updates(calls) == visited + 1
  {
    var r := script[iter][d];
    var a := t.trace + [Update(iter, d)];
    Extend(cfg, script, t.trace, Update(iter, d));
    assert [Update(iter, d)][..0] == [];
    if r.newFault {
      Extend(cfg, script, a, Repair(iter, d));
      assert [Repair(iter, d)][..0] == [];
    }
  }

  /** A trial that stops on a failed visit closes with 1. */
  lemma {:induction false} VisitHalts(cfg: Config, script: seq<seq<Reply>>, iter: nat, d: nat, t: Trial, visited: nat)
    requires iter < |script| && d < |script[iter]| && Open(cfg, script, t, visited)
    requires Fails(script[iter][d]) && !cfg.continueRunning
    ensures Closed(cfg, script, 1, Visit(cfg, script[iter][d], iter, d, t).0)
  {
    VisitCalls(cfg, script, iter, d, t, visited);
    var calls := t.trace + [Update(iter, d)] + [Repair(iter, d)];
    CountsAppend(script, calls, FinalizeAll);
    assert (calls + [FinalizeAll])[..|calls|] == calls;
  }

  /** One domain visit keeps a running trial consistent, or closes it with 1. */
  lemma {:induction false} VisitKeeps(cfg: Config, script: seq<seq<Reply>>, iter: nat, d: nat, t: Trial, visited: nat)
    requires iter < |script| && d < |script[iter]| && Open(cfg, script, t, visited)
    ensures var v := Visit(cfg, script[iter][d], iter, d, t);
      if v.1 then Closed(cfg, script, 1, v.0) else Open(cfg, script, v.0, visited + 1)
  {
    if Fails(script[iter][d]) && !cfg.continueRunning {
      VisitHalts(cfg, script, iter, d, t, visited);
    } else {
      VisitCalls(cfg, script, iter, d, t, visited);
    }
  }

  /** Domains `d` onward keep a running trial consistent, or close it with 1 (only without
      continue-running). */
  lemma {:induction false} DomainsKeep(cfg: Config, script: seq<seq<Reply>>, iter: nat, d: nat, t: Trial)
    requires iter < |script| && d <= |script[iter]| && Open(cfg, script, t, Cells(script, iter) + d)
    ensures var u := Domains(cfg, script, iter, d, t);
      if u.1 then Closed(cfg, script, 1, u.0) else Open(cfg, script, u.0, Cells(script, iter + 1))
    decreases |script[iter]| - d
  {
    var u := Domains(cfg, script, iter, d, t);
    if d < |script[iter]| {
      VisitKeeps(cfg, script, iter, d, t, Cells(script, iter) + d);
      var v := Visit(cfg, script[iter][d], iter, d, t);
      if v.1 {
        assert u == v;
      } else {
        assert u == Domains(cfg, script, iter, d + 1, v.0);
        DomainsKeep(cfg, script, iter, d + 1, v.0);
      }
    } else {
      assert u == (t, false);
    }
  }

  /** The calls of one scrub step: scrub, then the replacement check. */
  lemma {:induction false} ScrubCalls(cfg: Config, script: seq<seq<Reply>>, iter: nat, d: nat, t: Trial, visited: nat)
    requires iter < |script| && d < |script[iter]| && cfg.scrubRatio > 0 && iter % cfg.scrubRatio == 0
    requires Open(cfg, script, t, visited)
    ensures var calls := t.trace + [Scrub(iter, d), FillRepl(iter, d)];
      && Shape(cfg, calls, script)
      && Logged(script, calls) == t.logged
      && Replacements(script, calls) == (if script[iter][d].replace != 0 then 1 else 0)
      && Updates(calls) == visited
  {
    var a := t.trace + [Scrub(iter, d)];
    assert t.trace + [Scrub(iter, d), FillRepl(iter, d)] == a + [FillRepl(iter, d)];
    Extend(cfg, script, t.trace, Scrub(iter, d));
    Extend(cfg, script, a, FillRepl(iter, d));
    assert [Scrub(iter, d)][..0] == [];
    assert [FillRepl(iter, d)][..0] == [];
  }

  /** A trial stopped by a replacement closes with 1. */
  lemma {:induction false} ScrubHalts(cfg: Config, script: seq<seq<Reply>>, t: Trial, calls: seq<Call>)
    requires Shape(cfg, calls, script) && |calls| >= 2 && t.logged == Logged(script, calls) && Replacements(script, calls) == 1
    requires if cfg.continueRunning then t.errors == |t.logged| else t.logged == [] && t.errors == 0
    ensures Closed(cfg, script, 1, Trial(t.errors, t.logged, calls + [FinalizeAll]))
  {
    CountsAppend(script, calls, FinalizeAll);
    assert (calls + [FinalizeAll])[..|calls|] == calls;
    assert [FinalizeAll][..0] == [];
  }

  /** The scrub pass keeps a running trial consistent, or closes it with 1 after a
      replacement. */
  lemma {:induction false} ScrubsKeep(cfg: Config, script: seq<seq<Reply>>, iter: nat, d: nat, t: Trial, visited: nat)
    requires iter < |script| && d <= |script[iter]| && cfg.scrubRatio > 0 && iter % cfg.scrubRatio == 0
    requires Open(cfg, script, t, visited)
    ensures var s := Scrubs(script, iter, d, t);
      if s.1 then Closed(cfg, script, 1, s.0) else Open(cfg, script, s.0, visited)
    decreases |script[iter]| - d
  {
    if d < |script[iter]| {
      ScrubCalls(cfg, script, iter, d, t, visited);
      var calls := t.trace + [Scrub(iter, d), FillRepl(iter, d)];
      if script[iter][d].replace != 0 {
        assert Scrubs(script, iter, d, t) == (Trial(t.errors, t.logged, calls + [FinalizeAll]), true);
        ScrubHalts(cfg, script, t, calls);
      } else {
        assert Scrubs(script, iter, d, t) == Scrubs(script, iter, d + 1, Trial(t.errors, t.logged, calls));
        ScrubsKeep(cfg, script, iter, d + 1, Trial(t.errors, t.logged, calls), visited);
      }
    }
  }

  /** A trial that runs through every interval closes with its failure count's verdict. */
  lemma {:induction false} EndCloses(cfg: Config, script: seq<seq<Reply>>, t: Trial)
    requires Open(cfg, script, t, Cells(script, |script|))
    ensures Closed(cfg, script, if t.errors > 0 then 1 else 0, Trial(t.errors, t.logged, t.trace + [FinalizeAll]))
  {
    CountsAppend(script, t.trace, FinalizeAll);
    assert (t.trace + [FinalizeAll])[..|t.trace|] == t.trace;
    assert [FinalizeAll][..0] == [];
  }

  /** One interval keeps a running trial consistent, or closes it with 1. */
  lemma {:induction false} IntervalKeeps(cfg: Config, script: seq<seq<Reply>>, iter: nat, t: Trial)
    requires cfg.scrubRatio > 0 && iter < |script| && Open(cfg, script, t, Cells(script, iter))
    ensures var v := Interval(cfg, script, iter, t);
      if v.1 then Closed(cfg, script, 1, v.0) else Open(cfg, script, v.0, Cells(script, iter + 1))
  {
    DomainsKeep(cfg, script, iter, 0, t);
    var u := Domains(cfg, script, iter, 0, t);
    if !u.1 && iter % cfg.scrubRatio == 0 {
      ScrubsKeep(cfg, script, iter, 0, u.0, Cells(script, iter + 1));
    }
  }

  /** Intervals `iter` onward finish a running trial consistently. */
  lemma {:induction false} IntervalsClose(cfg: Config, script: seq<seq<Reply>>, iter: nat, t: Trial, res: nat, u: Trial)
    requires cfg.scrubRatio > 0 && iter <= |script| && Open(cfg, script, t, Cells(script, iter))
    requires (res, u) == Intervals(cfg, script, iter, t)
    ensures Closed(cfg, script, res, u)
    decreases |script| - iter
  {
    if iter >= |script| {
      EndCloses(cfg, script, t);
    } else {
      IntervalKeeps(cfg, script, iter, t);
      var v := Interval(cfg, script, iter, t);
      if !v.1 {
        IntervalsClose(cfg, script, iter + 1, v.0, res, u);
      }
    }
  }

  /** The calls of a finished trial, one by one. */
  lemma {:induction false} ClosedTrace(cfg: Config, script: seq<seq<Reply>>, res: nat, t: Trial)
    requires Closed(cfg, script, res, t)
    ensures |t.trace| >= 2 && t.trace[0] == ResetAll && t.trace[|t.trace| - 1] == FinalizeAll
    ensures forall k :: 0 < k < |t.trace| - 1 ==> Middle(t.trace[k]) && Legal(cfg, script, t.trace[k])
  {
    var body := t.trace[..|t.trace| - 1];
    ShapeElements(cfg, script, body);
    forall k | 0 <= k < |t.trace| - 1
      ensures t.trace[k] == body[k]
    {
    }
  }

  /** `finalize` runs exactly once per trial, as its last call, and `reset` once, as its
      first. */
  lemma {:induction false} FinalizeOnce(cfg: Config, script: seq<seq<Reply>>)
    requires cfg.scrubRatio > 0
    ensures var tr := Run(cfg, script).1.trace;
      |tr| >= 2 && tr[0] == ResetAll && tr[|tr| - 1] == FinalizeAll
      && forall k :: 0 < k < |tr| - 1 ==> tr[k] != FinalizeAll && tr[k] != ResetAll
  {
    var e := Run(cfg, script);
    IntervalsClose(cfg, script, 0, Trial(0, [], [ResetAll]), e.0, e.1);
    ClosedTrace(cfg, script, e.0, e.1);
  }

  /** A domain is repaired only in an interval whose update reported a new fault, and it is
      scrubbed and checked for replacement only at a scrub step. */
  lemma {:induction false} RepairOnlyAfterNewFault(cfg: Config, script: seq<seq<Reply>>)
    requires cfg.scrubRatio > 0
    ensures var tr := Run(cfg, script).1.trace;
      forall k :: 0 <= k < |tr| && tr[k].Repair? ==>
        tr[k].iter < |script| && tr[k].domain < |script[tr[k].iter]| && script[tr[k].iter][tr[k].domain].newFault
    ensures var tr := Run(cfg, script).1.trace;
      forall k :: 0 <= k < |tr| && (tr[k].Scrub? || tr[k].FillRepl?) ==> tr[k].iter % cfg.scrubRatio == 0
  {
    var e := Run(cfg, script);
    IntervalsClose(cfg, script, 0, Trial(0, [], [ResetAll]), e.0, e.1);
    ClosedTrace(cfg, script, e.0, e.1);
    var tr := e.1.trace;
    forall k | 0 <= k < |tr| && (tr[k].Repair? || tr[k].Scrub? || tr[k].FillRepl?)
      ensures Legal(cfg, script, tr[k])
    {
      assert 0 < k < |tr| - 1;
    }
  }

  /** A trial returns 1 exactly when some domain it visited failed to repair or asked for a
      replacement; what it logs in the histograms is exactly those failures, in order. */
  lemma {:induction false} ResultMeansFailure(cfg: Config, script: seq<seq<Reply>>)
    requires cfg.scrubRatio > 0
    ensures var e := Run(cfg, script);
      e.1.logged == Logged(script, e.1.trace)
      && (e.0 == 1 <==> Logged(script, e.1.trace) != [] || Replacements(script, e.1.trace) > 0)
      && (e.0 == 0 <==> Logged(script, e.1.trace) == [] && Replacements(script, e.1.trace) == 0)
  {
    var e := Run(cfg, script);
    IntervalsClose(cfg, script, 0, Trial(0, [], [ResetAll]), e.0, e.1);
  }

  /** Without continue-running the first failure ends the trial: at most one failure is
      logged, and its domain's update and repair are the last calls before the finalize. */
  lemma {:induction false} HaltOnFirstFailure(cfg: Config, script: seq<seq<Reply>>)
    requires cfg.scrubRatio > 0 && !cfg.continueRunning
    ensures var e := Run(cfg, script); |e.1.logged| <= 1
    ensures var e := Run(cfg, script); var tr := e.1.trace;
      e.1.logged != [] ==>
        e.0 == 1 && |tr| >= 4 && var f := e.1.logged[0];
        tr[|tr| - 3] == Update(f.iter, f.domain) && tr[|tr| - 2] == Repair(f.iter, f.domain) && tr[|tr| - 1] == FinalizeAll
  {
    var e := Run(cfg, script);
    IntervalsClose(cfg, script, 0, Trial(0, [], [ResetAll]), e.0, e.1);
  }

  /** A trial that returns 0, or that runs on after failures and is never told to replace a
      domain, updates every domain in every interval. */
  lemma {:induction false} RunsToTheEnd(cfg: Config, script: seq<seq<Reply>>)
    requires cfg.scrubRatio > 0
    ensures var e := Run(cfg, script);
      e.0 == 0 || (cfg.continueRunning && Replacements(script, e.1.trace) == 0) ==>
        Updates(e.1.trace) == Cells(script, |script|)
  {
    var e := Run(cfg, script);
    IntervalsClose(cfg, script, 0, Trial(0, [], [ResetAll]), e.0, e.1);
  }

  // ---------------------------------------------------------------- histograms

  /** The three per-bin failure counts: all failures, uncorrectable ones, undetectable ones. */
  datatype Bins = Bins(faults: seq<nat>, uncorrectable: seq<nat>, undetectable: seq<nat>)

  /** Bin `b` of `s` counts one more when `when` holds. */
  function Bump(s: seq<nat>, b: nat, when: bool): (r: seq<nat>)
    ensures |r| == |s|
  {
    if when && b < |s| then s[b := s[b] + 1] else s
  }

  /** Logging failure `f` in bin `b`. */
  function Log(h: Bins, b: nat, f: Failure): Bins
  {
    Bins(Bump(h.faults, b, true), Bump(h.uncorrectable, b, f.uncorrected > 0), Bump(h.undetectable, b, f.undetected > 0))
  }

  /** The bin of a failure in interval `iter`: its time over the bin length. */
  function BinOf(iter: nat, interval: nat, binLength: nat): nat
    requires binLength > 0
  {
    iter * interval / binLength
  }

  /** Logging failures `fs` in order. */
  function LogAll(h: Bins, fs: seq<Failure>, interval: nat, binLength: nat): Bins
    requires binLength > 0
  {
    if fs == [] then h
    else Log(LogAll(h, fs[..|fs| - 1], interval, binLength), BinOf(fs[|fs| - 1].iter, interval, binLength), fs[|fs| - 1])
  }

  function Sum(s: seq<nat>): nat
  {
    if s == [] then 0 else Sum(s[..|s| - 1]) + s[|s| - 1]
  }

  lemma {:induction false} SumBump(s: seq<nat>, b: nat)
    requires b < |s|
    ensures Sum(s[b := s[b] + 1]) == Sum(s) + 1
    decreases |s|
  {
    var s' := s[b := s[b] + 1];
    assert s'[..|s| - 1] == if b < |s| - 1 then s[..|s| - 1][b := s[b] + 1] else s[..|s| - 1];
    if b < |s| - 1 {
      SumBump(s[..|s| - 1], b);
    }
  }

  /** A failure in interval `iter` < `maxS / interval` falls in a bin below `n` when the
      histogram covers `maxS`, that is, when `maxS <= n * binLength`. */
  lemma {:induction false} BinInRange(iter: nat, interval: nat, maxS: nat, binLength: nat, n: nat)
    requires interval > 0 && binLength > 0 && iter < maxS / interval && maxS <= n * binLength
    ensures BinOf(iter, interval, binLength) < n
  {
    MulMono(iter + 1, maxS / interval, interval);
    assert (maxS / interval) * interval <= maxS;
    QuotientBelow(iter * interval, binLength, n);
  }

  lemma {:induction false} MulMono(a: nat, b: nat, c: nat)
    requires a <= b
    ensures a * c <= b * c
  {
  }

  /** `x / b < n` when `x < n * b`. */
  lemma {:induction false} QuotientBelow(x: nat, b: nat, n: nat)
    requires b > 0 && x < n * b
    ensures x / b < n
  {
    assert (x / b) * b <= x;
    if x / b >= n {
      MulMono(n, x / b, b);
    }
  }

  /** When `max_time` is not a multiple of the bin length the histogram is one bin short:
      with 10 seconds, 1-second intervals and 4-second bins it has 2 bins, and a failure in
      the last interval falls in bin 2. */
  lemma {:induction false} BinPastEnd()
    ensures var maxS, interval, binLength, iter := 10, 1, 4, 9;
      iter < maxS / interval && BinOf(iter, interval, binLength) == maxS / binLength
  {
  }

  /** A horizon that is not a multiple of the bin length can still give every interval a
      bin: 10 seconds of 5-second intervals with 4-second bins log into bins 0 and 1 of 2. */
  lemma {:induction false} UnevenHorizonFits()
    ensures var maxS, interval, binLength := 10, 5, 4;
      && maxS % binLength != 0
      && forall iter :: 0 <= iter < maxS / interval ==> BinOf(iter, interval, binLength) < maxS / binLength
  {
    assert BinOf(0, 5, 4) == 0 && BinOf(1, 5, 4) == 1;
  }

  /** With every failure's bin in range, logging them adds one to the total of the failure
      histogram per failure. */
  lemma {:induction false} LogAllCounts(h: Bins, fs: seq<Failure>, interval: nat, binLength: nat)
    requires binLength > 0
    requires forall k :: 0 <= k < |fs| ==> BinOf(fs[k].iter, interval, binLength) < |h.faults|
    ensures |LogAll(h, fs, interval, binLength).faults| == |h.faults|
    ensures Sum(LogAll(h, fs, interval, binLength).faults) == Sum(h.faults) + |fs|
  {
    if fs != [] {
      var init, f := fs[..|fs| - 1], fs[|fs| - 1];
      assert forall k :: 0 <= k < |init| ==> init[k] == fs[k];
      LogAllCounts(h, init, interval, binLength);
      var prev := LogAll(h, init, interval, binLength);
      assert LogAll(h, fs, interval, binLength).faults == prev.faults[BinOf(f.iter, interval, binLength) := prev.faults[BinOf(f.iter, interval, binLength)] + 1];
      SumBump(prev.faults, BinOf(f.iter, interval, binLength));
    }
  }

  /** The running sums the output file lists as cumulative columns. */
  function RunningSums(s: seq<nat>): (r: seq<nat>)
    ensures |r| == |s|
  {
    seq(|s|, j requires 0 <= j < |s| => Sum(s[..j + 1]))
  }

  /** The running sums of one more element. */
  lemma {:induction false} RunningSumsNext(s: seq<nat>, j: nat)
    requires j < |s|
    ensures Sum(s[..j + 1]) == Sum(s[..j]) + s[j]
    ensures RunningSums(s[..j + 1]) == RunningSums(s[..j]) + [Sum(s[..j + 1])]
  {
    assert s[..j + 1][..j] == s[..j];
    forall k | 0 <= k < j
      ensures RunningSums(s[..j + 1])[k] == RunningSums(s[..j])[k]
    {
      assert s[..j + 1][..k + 1] == s[..j][..k + 1];
    }
    assert s[..j + 1][..j + 1] == s[..j + 1];
  }

  /** The last cumulative entry is the total. */
  lemma {:induction false} LastRunningSum(s: seq<nat>)
    requires s != []
    ensures RunningSums(s)[|s| - 1] == Sum(s)
  {
    assert s[..|s|] == s;
  }

  // ---------------------------------------------------------------- the engine

  /** A trial's replies: one row per interval, one reply per domain. */
  predicate Shaped(script: seq<seq<Reply>>, intervals: nat, domains: nat)
  {
    |script| == intervals && forall i :: 0 <= i < |script| ==> |script[i]| == domains
  }

  /** `Simulation::Simulation`: a scrub interval that is not a multiple of the time step
      stops the program; otherwise the engine is built. */
  method NewSimulation(interval: nat, scrubInterval: nat, testMode: nat, continueRunning: bool, outputBucket: nat)
    returns (r: Option<Simulation>)
    requires interval > 0
    ensures r.Some? <==> scrubInterval % interval == 0
    ensures r.Some? ==> (fresh(r.value) && r.value.Valid() && r.value.interval == interval
      && r.value.scrubInterval == scrubInterval && r.value.continueRunning == continueRunning
      && r.value.outputBucket == outputBucket && r.value.domains == 0)
  {
    if scrubInterval % interval != 0 {
      return None;
    }
    var s := new Simulation(interval, scrubInterval, testMode, continueRunning, outputBucket);
    r := Some(s);
  }

  class Simulation {
    /** Time step and scrub interval, in seconds. */
    const interval: nat
    const scrubInterval: nat
    const testMode: nat
    const continueRunning: bool
    /** Histogram bin length, in seconds. */
    const outputBucket: nat
    /** Number of attached domains. */
    var domains: nat
    /** Per-bin counts of failed, uncorrectable and undetectable trials. */
    var failTimeBins: array<nat>
    var failUncorrectable: array<nat>
    var failUndetectable: array<nat>
    /** Trials run, trials failed, and the simulated time per trial. */
    var statTotalFailures: nat
    var statTotalSims: nat
    var statSimSeconds: nat

    /** The time step is positive and divides the scrub interval; the three histograms are
        separate arrays of one length. */
    ghost predicate Valid()
      reads this`failTimeBins, this`failUncorrectable, this`failUndetectable
    {
      && interval > 0 && scrubInterval % interval == 0
      && failTimeBins != failUncorrectable && failTimeBins != failUndetectable && failUncorrectable != failUndetectable
      && failUncorrectable.Length == failTimeBins.Length && failUndetectable.Length == failTimeBins.Length
    }

    /** The histograms' contents. */
    function Hist(): Bins
      reads this`failTimeBins, this`failUncorrectable, this`failUndetectable, failTimeBins, failUncorrectable, failUndetectable
    {
      Bins(failTimeBins[..], failUncorrectable[..], failUndetectable[..])
    }

    /** The engine's settings for a trial. */
    function Settings(): (c: Config)
      requires interval > 0
      ensures scrubInterval % interval == 0 && scrubInterval > 0 ==> c.scrubRatio > 0
    {
      Config(scrubInterval / interval, continueRunning)
    }

    /** The checked part of the constructor; the histograms are allocated by `simulate`. */
    constructor(interval: nat, scrubInterval: nat, testMode: nat, continueRunning: bool, outputBucket: nat)
      requires interval > 0 && scrubInterval % interval == 0
      ensures Valid() && this.interval == interval && this.scrubInterval == scrubInterval
      ensures this.testMode == testMode && this.continueRunning == continueRunning && this.outputBucket == outputBucket
      ensures domains == 0 && statTotalFailures == 0 && statTotalSims == 0 && statSimSeconds == 0
    {
      this.interval := interval;
      this.scrubInterval := scrubInterval;
      this.testMode := testMode;
      this.continueRunning := continueRunning;
      this.outputBucket := outputBucket;
      domains := 0;
      failTimeBins := new nat[0];
      failUncorrectable := new nat[0];
      failUndetectable := new nat[0];
      statTotalFailures, statTotalSims, statSimSeconds := 0, 0, 0;
    }

    /** `addDomain`: one more domain. */
    method AddDomain()
      modifies this`domains
      ensures domains == old(domains) + 1
    {
      domains := domains + 1;
    }

    /** `resetStats`: clears the engine's tallies. */
    method ResetStats()
      modifies this`statTotalFailures, this`statTotalSims, this`statSimSeconds
      ensures statTotalFailures == 0 && statTotalSims == 0 && statSimSeconds == 0
    {
      statTotalFailures := 0;
      statTotalSims := 0;
      statSimSeconds := 0;
    }

    /** Logs failure `f` in bin `b`: the failure count always, the uncorrectable and
        undetectable counts when the failure has such errors. */
    method Record(b: nat, f: Failure)
      requires Valid() && b < failTimeBins.Length
      modifies failTimeBins, failUncorrectable, failUndetectable
      ensures Hist() == Log(old(Hist()), b, f)
    {
      failTimeBins[b] := failTimeBins[b] + 1;
      if f.uncorrected > 0 {
        failUncorrectable[b] := failUncorrectable[b] + 1;
      }
      if f.undetected > 0 {
        failUndetectable[b] := failUndetectable[b] + 1;
      }
    }

    /** The histograms have a bin for every interval of a `maxS`-second trial. */
    ghost predicate Covers(maxS: nat, binLength: nat)
      reads this`failTimeBins
    {
      interval > 0 && binLength > 0
      && forall iter :: 0 <= iter < maxS / interval ==> BinOf(iter, interval, binLength) < failTimeBins.Length
    }

    /** The domain pass of interval `iter` in `runOne`: per domain, update, repair after a
        new fault, and on a failure log it in bin `BinOf(iter, ...)`, then either stop the
        trial (finalize) or count it and go on. */
    method VisitDomains(cfg: Config, script: seq<seq<Reply>>, iter: nat, binLength: nat, ghost h0: Bins,
                        errors: nat, ghost logged: seq<Failure>, trace: seq<Call>)
      returns (errors': nat, ghost logged': seq<Failure>, trace': seq<Call>, halted: bool)
      requires Valid() && iter < |script| && |script[iter]| == domains && cfg.continueRunning == continueRunning
      requires binLength > 0 && BinOf(iter, interval, binLength) < failTimeBins.Length
      requires Hist() == LogAll(h0, logged, interval, binLength)
      modifies failTimeBins, failUncorrectable, failUndetectable
      ensures (Trial(errors', logged', trace'), halted) == Domains(cfg, script, iter, 0, Trial(errors, logged, trace))
      ensures Hist() == LogAll(h0, logged', interval, binLength)
    {
      errors', logged', trace' := errors, logged, trace;
      var d := 0;
      while d < domains
        invariant d <= domains
        invariant Domains(cfg, script, iter, d, Trial(errors', logged', trace')) == Domains(cfg, script, iter, 0, Trial(errors, logged, trace))
        invariant Hist() == LogAll(h0, logged', interval, binLength)
      {
        errors', logged', trace', halted := VisitOne(cfg, script[iter][d], iter, d, binLength, h0, errors', logged', trace');
        if halted {
          return;
        }
        d := d + 1;
      }
      halted := false;
    }

    /** One domain of the pass: update, repair after a new fault, and on a failure log it
        in bin `BinOf(iter, ...)`, then either stop the trial (finalize) or count it. */
    method VisitOne(cfg: Config, r: Reply, iter: nat, d: nat, binLength: nat, ghost h0: Bins,
                    errors: nat, ghost logged: seq<Failure>, trace: seq<Call>)
      returns (errors': nat, ghost logged': seq<Failure>, trace': seq<Call>, halted: bool)
      requires Valid() && cfg.continueRunning == continueRunning
      requires binLength > 0 && BinOf(iter, interval, binLength) < failTimeBins.Length
      requires Hist() == LogAll(h0, logged, interval, binLength)
      modifies failTimeBins, failUncorrectable, failUndetectable
      ensures (Trial(errors', logged', trace'), halted) == Visit(cfg, r, iter, d, Trial(errors, logged, trace))
      ensures Hist() == LogAll(h0, logged', interval, binLength)
    {
      errors', logged', halted := errors, logged, false;
      trace' := trace + [Update(iter, d)];
      var nUndetected, nUncorrected := 0, 0;
      if r.newFault {
        trace' := trace' + [Repair(iter, d)];
        nUndetected, nUncorrected := r.undetected, r.uncorrected;
      }
      if nUndetected > 0 || nUncorrected > 0 {
        var f := Failure(iter, d, nUndetected, nUncorrected);
        Record(BinOf(iter, interval, binLength), f);
        assert (logged + [f])[..|logged|] == logged;
        logged' := logged + [f];
        if !continueRunning {
          trace' := trace' + [FinalizeAll];
          halted := true;
        } else {
          errors' := errors + 1;
        }
      }
    }

    /** The scrub pass of interval `iter` in `runOne`: per domain, scrub, then stop the
        trial (finalize) when `fill_repl` asks for a replacement. */
    method ScrubDomains(script: seq<seq<Reply>>, iter: nat, ghost errors: nat, ghost logged: seq<Failure>, trace: seq<Call>)
      returns (trace': seq<Call>, halted: bool)
      requires iter < |script| && |script[iter]| == domains
      ensures (Trial(errors, logged, trace'), halted) == Scrubs(script, iter, 0, Trial(errors, logged, trace))
    {
      trace' := trace;
      var d := 0;
      while d < domains
        invariant d <= domains
        invariant Scrubs(script, iter, d, Trial(errors, logged, trace')) == Scrubs(script, iter, 0, Trial(errors, logged, trace))
      {
        trace' := trace' + [Scrub(iter, d), FillRepl(iter, d)];
        if script[iter][d].replace != 0 {
          trace' := trace' + [FinalizeAll];
          return trace', true;
        }
        d := d + 1;
      }
      halted := false;
    }

    /** `runOne`: one trial of `maxS / interval` intervals, domain by domain, with the
        replies of `script`. Returns the trial's value and the calls it made, and logs its
        failures in the histograms. The histograms must have a bin for every interval (the
        source does not check it) and the scrub interval must be positive (a zero one
        divides by zero). */
    method RunOne(maxS: nat, binLength: nat, script: seq<seq<Reply>>) returns (result: nat, trace: seq<Call>)
      requires Valid() && scrubInterval > 0 && Covers(maxS, binLength)
      requires Shaped(script, maxS / interval, domains)
      modifies failTimeBins, failUncorrectable, failUndetectable
      ensures var e := Run(Settings(), script);
        result == e.0 && trace == e.1.trace && Hist() == LogAll(old(Hist()), e.1.logged, interval, binLength)
    {
      ghost var h0 := Hist();
      var maxIterations := maxS / interval;
      var scrubRatio := scrubInterval / interval;
      var cfg := Config(scrubRatio, continueRunning);
      var errors := 0;
      ghost var logged: seq<Failure> := [];
      trace := [ResetAll];
      var iter := 0;
      while iter < maxIterations
        invariant iter <= maxIterations
        invariant Intervals(cfg, script, iter, Trial(errors, logged, trace)) == Run(cfg, script)
        invariant Hist() == LogAll(h0, logged, interval, binLength)
      {
        var halted;
        errors, logged, trace, halted := VisitDomains(cfg, script, iter, binLength, h0, errors, logged, trace);
        if halted {
          return 1, trace;
        }
        if iter % scrubRatio == 0 {
          trace, halted := ScrubDomains(script, iter, errors, logged, trace);
          if halted {
            return 1, trace;
          }
        }
        iter := iter + 1;
      }
      trace := trace + [FinalizeAll];
      result := if errors > 0 then 1 else 0;
    }

    /** `simulate`: clears the tallies, allocates zeroed histograms of `maxTime / outputBucket`
        bins, and runs `nSims` trials of `maxTime` seconds, counting every trial and every
        trial that returned nonzero. Every interval's failure must have one of those bins,
        which `Covered` shows whenever `maxTime` is a multiple of the bin length. */
    method Simulate(maxTime: nat, nSims: nat, scripts: seq<seq<seq<Reply>>>)
      requires Valid() && scrubInterval > 0 && outputBucket > 0
      requires forall iter :: 0 <= iter < maxTime / interval ==> BinOf(iter, interval, outputBucket) < maxTime / outputBucket
      requires |scripts| == nSims
      requires forall n :: 0 <= n < nSims ==> Shaped(scripts[n], maxTime / interval, domains)
      modifies this`failTimeBins, this`failUncorrectable, this`failUndetectable,
        this`statTotalFailures, this`statTotalSims, this`statSimSeconds
      ensures Valid() && fresh(failTimeBins) && fresh(failUncorrectable) && fresh(failUndetectable)
      ensures statTotalSims == nSims && statSimSeconds == maxTime
      ensures statTotalFailures == FailedTrials(Settings(), scripts, nSims)
      ensures var zero := Zeros(maxTime / outputBucket);
        Hist() == LogAll(Bins(zero, zero, zero), AllLogged(Settings(), scripts, nSims), interval, outputBucket)
    {
      ResetStats();
      var binLength := outputBucket;
      statSimSeconds := maxTime;
      AllocateBins(maxTime / binLength);
      ghost var zero := Zeros(maxTime / binLength);
      ghost var cfg := Settings();
      var i := 0;
      while i < nSims
        invariant i <= nSims && Valid() && Covers(maxTime, binLength)
        invariant fresh(failTimeBins) && fresh(failUncorrectable) && fresh(failUndetectable)
        invariant statTotalSims == i && statSimSeconds == maxTime
        invariant statTotalFailures == FailedTrials(cfg, scripts, i)
        invariant Hist() == LogAll(Bins(zero, zero, zero), AllLogged(cfg, scripts, i), interval, binLength)
      {
        Tally(maxTime, binLength, scripts[i]);
        LogAllAppend(Bins(zero, zero, zero), AllLogged(cfg, scripts, i), Run(cfg, scripts[i]).1.logged, interval, binLength);
        i := i + 1;
      }
    }

    /** Allocates three zeroed histograms of `bins` bins. */
    method AllocateBins(bins: nat)
      requires interval > 0 && scrubInterval % interval == 0
      modifies this`failTimeBins, this`failUncorrectable, this`failUndetectable
      ensures Valid() && fresh(failTimeBins) && fresh(failUncorrectable) && fresh(failUndetectable)
      ensures failTimeBins.Length == bins && Hist() == Bins(Zeros(bins), Zeros(bins), Zeros(bins))
    {
      failTimeBins := new nat[bins](_ => 0);
      failUncorrectable := new nat[bins](_ => 0);
      failUndetectable := new nat[bins](_ => 0);
    }

    /** Histograms of `maxS / binLength` bins cover a trial of `maxS` seconds when `maxS` is
        a multiple of the bin length. */
    lemma {:induction false} Covered(maxS: nat, binLength: nat)
      requires interval > 0 && binLength > 0 && maxS % binLength == 0 && failTimeBins.Length == maxS / binLength
      ensures Covers(maxS, binLength)
    {
      assert maxS <= failTimeBins.Length * binLength by {
        assert maxS == (maxS / binLength) * binLength + maxS % binLength;
      }
      forall iter | 0 <= iter < maxS / interval
        ensures BinOf(iter, interval, binLength) < failTimeBins.Length
      {
        BinInRange(iter, interval, maxS, binLength, failTimeBins.Length);
      }
    }

    /** One trial of `simulate`: run it, count it, and count it as failed when it returns
        nonzero. */
    method Tally(maxS: nat, binLength: nat, script: seq<seq<Reply>>)
      requires Valid() && scrubInterval > 0 && Covers(maxS, binLength)
      requires Shaped(script, maxS / interval, domains)
      modifies failTimeBins, failUncorrectable, failUndetectable, this`statTotalSims, this`statTotalFailures
      ensures var e := Run(Settings(), script);
        && statTotalSims == old(statTotalSims) + 1
        && statTotalFailures == old(statTotalFailures) + (if e.0 != 0 then 1 else 0)
        && Hist() == LogAll(old(Hist()), e.1.logged, interval, binLength)
    {
      var failures, _ := RunOne(maxS, binLength, script);
      statTotalSims := statTotalSims + 1;
      if failures != 0 {
        statTotalFailures := statTotalFailures + 1;
      }
    }

    /** The integer columns of the output file: per bin, the cumulative counts of failed,
        uncorrectable and undetectable trials. */
    method Cumulative() returns (faults: seq<nat>, uncorrectable: seq<nat>, undetectable: seq<nat>)
      requires Valid()
      ensures faults == RunningSums(failTimeBins[..])
      ensures uncorrectable == RunningSums(failUncorrectable[..])
      ensures undetectable == RunningSums(failUndetectable[..])
    {
      var failCumulative, uncorrectableCumulative, undetectableCumulative := 0, 0, 0;
      faults, uncorrectable, undetectable := [], [], [];
      var jj := 0;
      while jj < failTimeBins.Length
        invariant jj <= failTimeBins.Length
        invariant failCumulative == Sum(failTimeBins[..jj]) && faults == RunningSums(failTimeBins[..jj])
        invariant uncorrectableCumulative == Sum(failUncorrectable[..jj]) && uncorrectable == RunningSums(failUncorrectable[..jj])
        invariant undetectableCumulative == Sum(failUndetectable[..jj]) && undetectable == RunningSums(failUndetectable[..jj])
      {
        RunningSumsNext(failTimeBins[..], jj);
        RunningSumsNext(failUncorrectable[..], jj);
        RunningSumsNext(failUndetectable[..], jj);
        assert failTimeBins[..][..jj] == failTimeBins[..jj] && failTimeBins[..][..jj + 1] == failTimeBins[..jj + 1];
        assert failUncorrectable[..][..jj] == failUncorrectable[..jj] && failUncorrectable[..][..jj + 1] == failUncorrectable[..jj + 1];
        assert failUndetectable[..][..jj] == failUndetectable[..jj] && failUndetectable[..][..jj + 1] == failUndetectable[..jj + 1];
        failCumulative := failCumulative + failTimeBins[jj];
        uncorrectableCumulative := uncorrectableCumulative + failUncorrectable[jj];
        undetectableCumulative := undetectableCumulative + failUndetectable[jj];
        faults := faults + [failCumulative];
        uncorrectable := uncorrectable + [uncorrectableCumulative];
        undetectable := undetectable + [undetectableCumulative];
        jj := jj + 1;
      }
      assert failTimeBins[..jj] == failTimeBins[..];
      assert failUncorrectable[..jj] == failUncorrectable[..];
      assert failUndetectable[..jj] == failUndetectable[..];
    }
  }

  /** `n` empty bins. */
  function Zeros(n: nat): (r: seq<nat>)
    ensures |r| == n && forall b :: 0 <= b < n ==> r[b] == 0
  {
    seq(n, _ => 0)
  }

  /** The failures the first `n` trials log, trial after trial. */
  ghost function AllLogged(cfg: Config, scripts: seq<seq<seq<Reply>>>, n: nat): seq<Failure>
    requires n <= |scripts| && cfg.scrubRatio > 0
  {
    if n == 0 then [] else AllLogged(cfg, scripts, n - 1) + Run(cfg, scripts[n - 1]).1.logged
  }

  /** Number of the first `n` trials that return nonzero. */
  ghost function FailedTrials(cfg: Config, scripts: seq<seq<seq<Reply>>>, n: nat): nat
    requires n <= |scripts| && cfg.scrubRatio > 0
  {
    if n == 0 then 0 else FailedTrials(cfg, scripts, n - 1) + if Run(cfg, scripts[n - 1]).0 != 0 then 1 else 0
  }

  /** Logging two runs of failures one after the other. */
  lemma {:induction false} LogAllAppend(h: Bins, a: seq<Failure>, b: seq<Failure>, interval: nat, binLength: nat)
    requires binLength > 0
    ensures LogAll(h, a + b, interval, binLength) == LogAll(LogAll(h, a, interval, binLength), b, interval, binLength)
    decreases |b|
  {
    if b == [] {
      assert a + b == a;
    } else {
      assert (a + b)[..|a + b| - 1] == a + b[..|b| - 1];
      LogAllAppend(h, a, b[..|b| - 1], interval, binLength);
    }
  }
}
