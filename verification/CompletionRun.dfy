// A panel's commands over a whole lifetime: any interleaving of submissions, flushes, engine outcomes
// and refreshes, with any callbacks, ended by teardown.
module CompletionRun {
  import opened Bytes
  import opened TrsBand
  import opened Ownership
  import opened Completion

  datatype Happening =
    | OnSubmit(kind: Kind, ok: bool)
    | OnSubmitEngine(f: Family, ok: bool)
    | OnFlush
    | OnOnline(up: bool)
    | OnSession(pending: bool)
    | OnBandLost
    | OnEngineDone(f: Family, ok: bool)
    | OnBioFragment
    | OnPass(status: bool, bioOwns: bool, marker: bool, translates: bool, own: bool)

  function Gated(p: Holder, g: Gate): Holder { p.(core := p.core.(gate := g)) }

  function Next(p: Holder, e: Happening): Holder {
    match e
    case OnSubmit(kind, ok) => p.(core := AfterSubmit(p.core, kind, ok).0)
    case OnSubmitEngine(f, ok) => if f == BioRead then p else AfterSubmitEngine(p, f, ok).0
    case OnFlush => p.(core := AfterFlush(p.core).0)
    case OnOnline(up) =>
      var q := if up then p else AfterAbort(p, 0);
      Gated(q, q.core.gate.(online := up))
    case OnSession(pending) => Gated(p, p.core.gate.(session := pending))
    case OnBandLost => p.(core := AfterFlushBand(p.core))
    case OnEngineDone(f, ok) => if f in p.live then AfterEngineDone(p, f, ok) else p
    case OnBioFragment => AfterOpenBio(p)
    case OnPass(status, bioOwns, marker, translates, own) =>
      if p.idle then AfterPickUp(p, marker, translates, own) else AfterSettle(p, status, bioOwns && BioRead in p.live)
  }

  function Run(p: Holder, es: seq<Happening>): Holder {
    if es == [] then p else Next(Run(p, es[..|es| - 1]), es[|es| - 1])
  }

  // The whole life of a panel whose application does es from outside and calls from its callbacks.
  function Life(es: seq<Happening>, calls: seq<Call>): Holder { AfterTeardown(Run(AtSetup(calls), es)) }

  lemma NextAccounts(p: Holder, e: Happening, t: nat)
    requires Fit(p)
    ensures Fit(Next(p, e)) && Account(Next(p, e), t) == Account(p, t)
  {
    hide AfterSubmit, AfterSubmitEngine, AfterFlush, AfterAbort, AfterFlushBand, AfterEngineDone, AfterOpenBio, AfterPickUp, AfterSettle;
    hide Balance;
    match e {
      case OnSubmit(kind, ok) => SubmitBalances(p.core, kind, ok, t);
      case OnSubmitEngine(f, ok) => SubmitEngineAccounts(p, f, ok, t);
      case OnFlush => FlushBalances(p.core, t);
      case OnOnline(up) =>
        AbortAccounts(p, 0, t);
        var q := if up then p else AfterAbort(p, 0);
        GateBalances(q.core, Next(p, e).core, t);
      case OnSession(pending) => GateBalances(p.core, Next(p, e).core, t);
      case OnBandLost => FlushBandBalances(p.core, t);
      case OnEngineDone(f, ok) => EngineDoneAccounts(p, f, ok, t);
      case OnBioFragment => OpenBioAccounts(p, t);
      case OnPass(status, bioOwns, marker, translates, own) =>
        if p.idle {
          PickUpAccounts(p, marker, translates, own, t);
        } else {
          SettleAccounts(p, status, bioOwns && BioRead in p.live, t);
        }
    }
  }

  lemma {:induction false} RunAccounts(p: Holder, es: seq<Happening>, t: nat)
    requires Fit(p)
    ensures Fit(Run(p, es)) && Account(Run(p, es), t) == Account(p, t)
    decreases |es|
  {
    hide Next, Account, Fit;
    if es != [] {
      RunAccounts(p, es[..|es| - 1], t);
      NextAccounts(Run(p, es[..|es| - 1]), es[|es| - 1], t);
    }
  }

  // In any run every command the panel accepted is in exactly one place.
  lemma EveryMoment(es: seq<Happening>, calls: seq<Call>)
    ensures Owned(Run(AtSetup(calls), es))
  {
    hide Run, Account;
    forall t: nat ensures Account(Run(AtSetup(calls), es), t) == 0 {
      RunAccounts(AtSetup(calls), es, t);
      NothingYet(calls, t);
    }
    RunAccounts(AtSetup(calls), es, 0);
  }

  lemma NothingYet(calls: seq<Call>, t: nat)
    ensures Account(AtSetup(calls), t) == 0
  {
  }

  // By the end of teardown every command the panel ever accepted has been completed exactly once, and
  // no other has.
  lemma ExactlyOnce(es: seq<Happening>, calls: seq<Call>, t: nat)
    ensures Given(Life(es, calls).core.log, t) == Issued(Life(es, calls).core.next, t)
  {
    hide Run, AfterTeardown;
    EveryMoment(es, calls);
    var p := Run(AtSetup(calls), es);
    TeardownAccounts(p, t);
    assert Account(p, t) == 0;
  }

  // ---- What aborted means ----

  predicate NoneAborted(log: seq<(nat, Status)>) { forall k :: 0 <= k < |log| ==> log[k].1 != CmdAborted }

  lemma Spared(c: Core, r: Core, status: Status)
    requires NoneAborted(c.log) && c.log <= r.log && Says(c, r, status) && status != CmdAborted
    ensures NoneAborted(r.log)
  {
    forall k | 0 <= k < |r.log| ensures r.log[k].1 != CmdAborted {
      if k < |c.log| {
        assert r.log[k] == c.log[k];
      }
    }
  }

  predicate Open(p: Holder) { !p.core.gate.tearingDown && NoneAborted(p.core.log) }

  lemma EngineDoneSpares(p: Holder, f: Family, ok: bool)
    requires Open(p)
    ensures Open(AfterEngineDone(p, f, ok))
  {
    hide AfterCallback, AfterComplete, NoneAborted, Says;
    var c := AfterCallback(p.core);
    Spared(p.core, c, CmdFlushed);
    if p.engine.Some? && p.family == f {
      var status := EngineStatus(c.gate.tearingDown, ok);
      Spared(c, AfterComplete(c, p.engine.value, status), status);
    }
  }

  lemma {:induction false} AbortSpares(p: Holder, i: nat)
    requires Open(p) && i <= |ENGINES|
    ensures Open(AfterAbort(p, i))
    decreases |ENGINES| - i
  {
    hide AfterEngineDone, Open;
    if i < |ENGINES| {
      if ENGINES[i] in p.live {
        EngineDoneSpares(p, ENGINES[i], false);
      }
      AbortSpares(if ENGINES[i] in p.live then AfterEngineDone(p, ENGINES[i], false) else p, i + 1);
    }
  }

  lemma NextSpares(p: Holder, e: Happening)
    requires Open(p)
    ensures Open(Next(p, e))
  {
    hide AfterFlush, AfterFlushBand, AfterAbort, AfterEngineDone, AfterComplete, NoneAborted, Says;
    match e {
      case OnFlush => Spared(p.core, AfterFlush(p.core).0, CmdFlushed);
      case OnOnline(up) => AbortSpares(p, 0);
      case OnBandLost => Spared(p.core, AfterFlushBand(p.core), CmdFlushed);
      case OnEngineDone(f, ok) => EngineDoneSpares(p, f, ok);
      case OnBioFragment => EngineDoneSpares(p, BioRead, false);
      case OnPass(status, bioOwns, marker, translates, own) =>
        if p.idle {
          if p.core.queue != [] {
            var core := p.core.(queue := p.core.queue[1..]);
            var s := if marker then CmdOk else CmdFailed;
            Spared(core, AfterComplete(core, p.core.queue[0], s), s);
          }
        } else if p.active.Some? {
          var s := if status then CmdOk else CmdFailed;
          Spared(p.core, AfterComplete(p.core, p.active.value, s), s);
        }
      case _ =>
    }
  }

  lemma {:induction false} RunSpares(p: Holder, es: seq<Happening>)
    requires Open(p)
    ensures Open(Run(p, es))
    decreases |es|
  {
    hide Next, Open;
    if es != [] {
      RunSpares(p, es[..|es| - 1]);
      NextSpares(Run(p, es[..|es| - 1]), es[|es| - 1]);
    }
  }

  // A command is completed as aborted exactly if it was still outstanding when teardown began.
  lemma AbortedExactly(es: seq<Happening>, calls: seq<Call>, k: nat)
    requires k < |Life(es, calls).core.log|
    ensures Life(es, calls).core.log[k].1 == CmdAborted <==> k >= |Run(AtSetup(calls), es).core.log|
  {
    hide Run, AfterTeardown;
    RunSpares(AtSetup(calls), es);
    var p := Run(AtSetup(calls), es);
    TeardownTells(p);
    if k < |p.core.log| {
      assert AfterTeardown(p).core.log[k] == p.core.log[k];
    }
  }

  // ---- In place ----

  method Step(desk: Desk, e: Happening)
    modifies desk, desk.ledger
    ensures desk.Value() == Next(old(desk.Value()), e)
  {
    hide AfterSubmit, AfterSubmitEngine, AfterFlush, AfterAbort, AfterFlushBand, AfterEngineDone, AfterOpenBio, AfterPickUp, AfterSettle;
    match e
    case OnSubmit(kind, ok) => var _ := desk.ledger.Submit(kind, ok);
    case OnSubmitEngine(f, ok) =>
      if f != BioRead {
        var _ := desk.SubmitEngine(f, ok);
      }
    case OnFlush => var _ := desk.ledger.Flush();
    case OnOnline(up) =>
      if !up {
        desk.AbortEngines();
      }
      desk.ledger.gate := desk.ledger.gate.(online := up);
    case OnSession(pending) => desk.ledger.gate := desk.ledger.gate.(session := pending);
    case OnBandLost => desk.ledger.FlushBand();
    case OnEngineDone(f, ok) =>
      if f in desk.live {
        desk.EngineDone(f, ok);
      }
    case OnBioFragment => desk.OpenBio();
    case OnPass(status, bioOwns, marker, translates, own) =>
      if desk.idle {
        desk.PickUp(marker, translates, own);
      } else {
        desk.Settle(status, bioOwns && BioRead in desk.live);
      }
  }

  // A panel's whole life on the object itself: what it has accepted and what it has given back.
  method Lifetime(events: seq<Happening>, calls: seq<Call>) returns (log: seq<(nat, Status)>, accepted: nat)
    ensures log == Life(events, calls).core.log && accepted == Life(events, calls).core.next
    ensures forall t: nat :: Given(log, t) == Issued(accepted, t)
  {
    hide Next, AfterTeardown;
    var desk := new Desk(calls);
    for i := 0 to |events|
      invariant fresh(desk) && fresh(desk.ledger) && desk.Value() == Run(AtSetup(calls), events[..i])
    {
      assert events[..i + 1][..i] == events[..i];
      Step(desk, events[i]);
    }
    assert events[..|events|] == events;
    desk.Teardown();
    log, accepted := desk.ledger.log, desk.ledger.next;
    forall t: nat ensures Given(log, t) == Issued(accepted, t) {
      ExactlyOnce(events, calls, t);
    }
  }
}
