// Who owns a command the panel accepted: the queue, the active slot, the engine slot, or the
// application again.
module Completion {
  import opened Bytes
  import opened TrsBand
  import opened Ownership

  datatype Family = FileTx | PivData | GenAuth | CrAuth | BioRead

  // family: engine_cmd_mp_type. live: the engines with an operation under way. idle: no command on
  // the wire.
  datatype Holder = Holder(core: Core, active: Option<Command>, engine: Option<Command>, family: Family,
                           live: set<Family>, idle: bool)

  // engine_status
  function EngineStatus(tearingDown: bool, ok: bool): Status {
    if tearingDown then CmdAborted else if ok then CmdOk else CmdFailed
  }

  // A file or PIV command: submitted from outside callbacks, it goes to the engine slot at once.
  function AfterSubmitEngine(p: Holder, f: Family, ok: bool): (Holder, bool) {
    if p.core.gate.tearingDown || !p.core.gate.online || !ok || p.live != {} then (p, false)
    else
      (p.(core := p.core.(next := p.core.next + 1), engine := Some(Command(p.core.next, Other)), family := f, live := {f}), true)
  }

  // The engine slot is cleared before its command is completed.
  function AfterCompleteEngine(p: Holder, status: Status): Holder
    requires p.engine.Some?
  {
    p.(engine := None, core := AfterComplete(p.core, p.engine.value, status))
  }

  // osdp_mp_finish of an operation of family f: the MP_DONE notification, then the completion hook of
  // osdp_mp_pd_notify, which only settles a command of its own family.
  function AfterEngineDone(p: Holder, f: Family, ok: bool): Holder {
    var q := p.(core := AfterCallback(p.core));
    var r := if q.engine.Some? && q.family == f then AfterCompleteEngine(q, EngineStatus(q.core.gate.tearingDown, ok)) else q;
    r.(live := r.live - {f})
  }

  const ENGINES := [FileTx, PivData, GenAuth, CrAuth, BioRead]

  // osdp_engines_abort, from the i-th on
  function AfterAbort(p: Holder, i: nat): Holder
    requires i <= |ENGINES|
    decreases |ENGINES| - i
  {
    if i == |ENGINES| then p
    else AfterAbort(if ENGINES[i] in p.live then AfterEngineDone(p, ENGINES[i], false) else p, i + 1)
  }

  // A BIOREADR that does not fit one packet: reassembly starts, superseding one left behind.
  function AfterOpenBio(p: Holder): Holder {
    var q := if BioRead in p.live then AfterEngineDone(p, BioRead, false) else p;
    q.(live := q.live + {BioRead})
  }

  // The phy-idle arm of state_update: the head of the queue, if any, is translated and becomes the
  // active command, fails, or is a marker the library keeps to itself. Without one the panel may
  // still send something of its own.
  function AfterPickUp(p: Holder, marker: bool, translates: bool, own: bool): Holder {
    if p.core.queue == [] then p.(idle := !own)
    else
      var c := p.core.queue[0];
      var core := p.core.(queue := p.core.queue[1..]);
      if marker || !translates then p.(core := AfterComplete(core, c, if marker then CmdOk else CmdFailed))
      else p.(core := core, active := Some(c), idle := false)
  }

  // The DONE/ERR arm of state_update. A BIOREAD whose reply is still being reassembled moves to the
  // engine slot if that is free.
  function AfterSettle(p: Holder, status: bool, bioOwns: bool): Holder {
    var q :=
      if p.active == None then p
      else if status && p.engine == None && bioOwns then p.(engine := p.active, family := BioRead)
      else p.(core := AfterComplete(p.core, p.active.value, if status then CmdOk else CmdFailed));
    q.(active := None, idle := true)
  }

  // osdp_cp_teardown, as far as commands go.
  function AfterTeardown(p: Holder): Holder {
    var core := p.core.(gate := p.core.gate.(tearingDown := true));
    var q := p.(core := AfterDrain(core, CmdAborted).0);
    var r := if q.engine.Some? then AfterCompleteEngine(q, CmdAborted) else q;
    if r.active.Some? then r.(core := AfterComplete(r.core, r.active.value, CmdAborted), active := None) else r
  }

  // ---- In one place ----

  function Slot(c: Option<Command>, t: nat): nat { if c.Some? then One(c.value, t) else 0 }

  // 0 when the panel accounts for t: it waits, is active, is the engine's or has been given back.
  function Account(p: Holder, t: nat): int {
    Balance(p.core, t) + Slot(p.active, t) + Slot(p.engine, t)
  }

  // Nothing is active on an idle phy, and the engine slot belongs to an operation under way.
  predicate Fit(p: Holder) {
    (p.idle ==> p.active == None) && (p.engine.Some? ==> p.family in p.live)
  }

  ghost predicate Owned(p: Holder) { Fit(p) && forall t: nat :: Account(p, t) == 0 }

  lemma SubmitEngineAccounts(p: Holder, f: Family, ok: bool, t: nat)
    requires Fit(p)
    ensures var q := AfterSubmitEngine(p, f, ok).0; Fit(q) && Account(q, t) == Account(p, t)
  {
    hide Queued, Given;
  }

  lemma CompleteEngineAccounts(p: Holder, status: Status, t: nat)
    requires p.engine.Some?
    ensures Account(AfterCompleteEngine(p, status), t) == Account(p, t)
  {
    hide AfterComplete, Balance;
    CompleteBalances(p.core, p.engine.value, status, t);
  }

  lemma EngineDoneAccounts(p: Holder, f: Family, ok: bool, t: nat)
    requires Fit(p)
    ensures var q := AfterEngineDone(p, f, ok); Fit(q) && Account(q, t) == Account(p, t)
  {
    hide AfterCallback, Balance, EngineStatus;
    CallbackBalances(p.core, t);
    var q := p.(core := AfterCallback(p.core));
    if q.engine.Some? && q.family == f {
      CompleteEngineAccounts(q, EngineStatus(q.core.gate.tearingDown, ok), t);
    }
  }

  lemma {:induction false} AbortAccounts(p: Holder, i: nat, t: nat)
    requires Fit(p) && i <= |ENGINES|
    ensures var q := AfterAbort(p, i);
            && Fit(q) && Account(q, t) == Account(p, t) && q.live <= p.live && q.active == p.active && q.idle == p.idle
            && (forall k :: i <= k < |ENGINES| ==> ENGINES[k] !in q.live)
    decreases |ENGINES| - i
  {
    hide AfterEngineDone, Account;
    if i < |ENGINES| {
      if ENGINES[i] in p.live {
        EngineDoneAccounts(p, ENGINES[i], false, t);
        EngineDoneLeaves(p, ENGINES[i], false);
        AbortAccounts(AfterEngineDone(p, ENGINES[i], false), i + 1, t);
      } else {
        AbortAccounts(p, i + 1, t);
      }
    }
  }

  lemma EngineDoneLeaves(p: Holder, f: Family, ok: bool)
    ensures var q := AfterEngineDone(p, f, ok); q.live == p.live - {f} && q.active == p.active && q.idle == p.idle
  {
  }

  lemma OpenBioAccounts(p: Holder, t: nat)
    requires Fit(p)
    ensures var q := AfterOpenBio(p); Fit(q) && Account(q, t) == Account(p, t)
  {
    hide AfterEngineDone, Account;
    EngineDoneAccounts(p, BioRead, false, t);
    SetsLive(if BioRead in p.live then AfterEngineDone(p, BioRead, false) else p, t);
  }

  lemma SetsLive(p: Holder, t: nat)
    ensures Account(p.(live := p.live + {BioRead}), t) == Account(p, t)
  {
  }

  lemma PickUpAccounts(p: Holder, marker: bool, translates: bool, own: bool, t: nat)
    requires Fit(p) && p.idle
    ensures var q := AfterPickUp(p, marker, translates, own); Fit(q) && Account(q, t) == Account(p, t)
  {
    hide AfterComplete, Given;
    if p.core.queue != [] {
      var c := p.core.queue[0];
      CompleteBalances(p.core.(queue := p.core.queue[1..]), c, if marker then CmdOk else CmdFailed, t);
    }
  }

  lemma SettleAccounts(p: Holder, status: bool, bioOwns: bool, t: nat)
    requires Fit(p) && (bioOwns ==> BioRead in p.live)
    ensures var q := AfterSettle(p, status, bioOwns); Fit(q) && Account(q, t) == Account(p, t)
  {
    hide AfterComplete, Balance;
    if p.active.Some? {
      CompleteBalances(p.core, p.active.value, if status then CmdOk else CmdFailed, t);
    }
  }

  lemma TeardownAccounts(p: Holder, t: nat)
    requires Fit(p)
    ensures var q := AfterTeardown(p);
            && Account(q, t) == Account(p, t) && q.core.queue == [] && q.active == q.engine == None
            && q.core.next == p.core.next
  {
    hide AfterDrain, AfterComplete, Balance;
    var core := p.core.(gate := p.core.gate.(tearingDown := true));
    GateBalances(p.core, core, t);
    DrainBalances(core, CmdAborted, t);
    var q := p.(core := AfterDrain(core, CmdAborted).0);
    if q.engine.Some? {
      CompleteEngineAccounts(q, CmdAborted, t);
    }
    var r := if q.engine.Some? then AfterCompleteEngine(q, CmdAborted) else q;
    if r.active.Some? {
      CompleteBalances(r.core, r.active.value, CmdAborted, t);
    }
  }

  // ---- With what status it comes back ----

  // A command is completed by the end of its own family only, as that end says; another family's
  // leaves it where it is.
  lemma EngineDoneTells(p: Holder, f: Family, ok: bool)
    ensures var q := AfterEngineDone(p, f, ok);
            if p.engine.Some? && p.family == f
            then q.engine == None
                 && Since(p.engine.value, if p.core.gate.tearingDown then CmdAborted else if ok then CmdOk else CmdFailed,
                          p.core.log, q.core.log)
            else q.engine == p.engine && q.family == p.family
  {
    hide AfterCallback, AfterComplete, Since;
    if p.engine.Some? && p.family == f {
      var core := AfterCallback(p.core);
      var status := EngineStatus(p.core.gate.tearingDown, ok);
      CompleteTells(core, p.engine.value, status);
      SinceGrows(p.core.log, core.log, AfterComplete(core, p.engine.value, status).log, p.engine.value, status);
    }
  }

  // The end of an exchange gives its command back as it went, except a BIOREAD still being reassembled
  // that finds the engine slot free: that one waits for its engine.
  lemma SettleTells(p: Holder, status: bool, bioOwns: bool)
    ensures var q := AfterSettle(p, status, bioOwns);
            && q.idle && q.active == None
            && (p.active.Some? ==>
                  if status && bioOwns && p.engine == None then q.engine == p.active && q.family == BioRead && q.core == p.core
                  else Since(p.active.value, if status then CmdOk else CmdFailed, p.core.log, q.core.log))
            && (p.active == None ==> q.core == p.core)
  {
    hide AfterComplete, Since;
    if p.active.Some? {
      CompleteTells(p.core, p.active.value, if status then CmdOk else CmdFailed);
    }
  }

  // A read that has to be reassembled takes the place of one left behind, whose command has failed.
  lemma OpenBioTells(p: Holder)
    ensures var q := AfterOpenBio(p);
            && q.live == p.live + {BioRead} && q.active == p.active
            && (if BioRead in p.live && p.engine.Some? && p.family == BioRead && !p.core.gate.tearingDown
                then q.engine == None && Since(p.engine.value, CmdFailed, p.core.log, q.core.log)
                else p.core.gate.tearingDown || (q.engine == p.engine && (BioRead !in p.live ==> q.core == p.core)))
  {
    hide AfterEngineDone, Since;
    EngineDoneTells(p, BioRead, false);
    EngineDoneLeaves(p, BioRead, false);
  }

  // With nothing waiting nothing changes hands; the phy is busy only if the panel has something of its own.
  lemma NothingToPickUp(p: Holder, marker: bool, translates: bool, own: bool)
    requires p.core.queue == []
    ensures AfterPickUp(p, marker, translates, own) == p.(idle := !own)
  {
  }

  // The head of the queue goes on the wire, or comes back: a marker as done, what has no translation
  // as failed.
  lemma PickUpTells(p: Holder, marker: bool, translates: bool, own: bool)
    requires p.core.queue != []
    ensures var q, c := AfterPickUp(p, marker, translates, own), p.core.queue[0];
            if marker || !translates
            then q.idle == p.idle && Since(c, if marker then CmdOk else CmdFailed, p.core.log, q.core.log)
            else q.active == Some(c) && !q.idle && q.core == p.core.(queue := p.core.queue[1..])
  {
    hide AfterComplete, Since;
    CompleteTells(p.core.(queue := p.core.queue[1..]), p.core.queue[0], if marker then CmdOk else CmdFailed);
  }

  // Teardown gives back everything outstanding, aborted, and nothing any other way.
  lemma TeardownTells(p: Holder)
    ensures var was, log := p.core.log, AfterTeardown(p).core.log;
            && was <= log && AllSince(p.core.queue, CmdAborted, was, log)
            && (p.active.Some? ==> Since(p.active.value, CmdAborted, was, log))
            && (p.engine.Some? ==> Since(p.engine.value, CmdAborted, was, log))
            && forall k :: |was| <= k < |log| ==> log[k].1 == CmdAborted
  {
    hide AfterComplete, Since, AfterGiveBack;
    var core := p.core.(gate := p.core.gate.(tearingDown := true));
    GiveBackTells(core.(queue := []), core.queue, CmdAborted);
    var q := p.(core := AfterDrain(core, CmdAborted).0);
    var r := if q.engine.Some? then AfterCompleteEngine(q, CmdAborted) else q;
    var z := AfterTeardown(p);
    if q.engine.Some? {
      CompleteTells(q.core, q.engine.value, CmdAborted);
      SinceGrows(p.core.log, q.core.log, r.core.log, q.engine.value, CmdAborted);
      SinceGrows(p.core.log, r.core.log, z.core.log, q.engine.value, CmdAborted);
    }
    if r.active.Some? {
      CompleteTells(r.core, r.active.value, CmdAborted);
      SinceGrows(p.core.log, r.core.log, z.core.log, r.active.value, CmdAborted);
    }
    forall i | 0 <= i < |p.core.queue| ensures Since(p.core.queue[i], CmdAborted, p.core.log, z.core.log) {
      SinceGrows(p.core.log, q.core.log, z.core.log, p.core.queue[i], CmdAborted);
    }
  }

  // ---- In place ----

  class Desk {
    const ledger: Ledger
    var active: Option<Command>
    var engine: Option<Command>
    var family: Family
    var live: set<Family>
    var idle: bool

    function Value(): Holder
      reads this, ledger
    {
      Holder(ledger.Value(), active, engine, family, live, idle)
    }

    ghost predicate Valid()
      reads this, ledger
    {
      Owned(Value())
    }

    constructor (calls: seq<Call>)
      ensures fresh(ledger) && Value() == AtSetup(calls)
    {
      active, engine, family, live, idle := None, None, FileTx, {}, true;
      ledger := new Ledger(calls, Gate(false, false, false));
    }

    method SubmitEngine(f: Family, ok: bool) returns (accepted: bool)
      modifies this, ledger
      ensures (Value(), accepted) == AfterSubmitEngine(old(Value()), f, ok)
    {
      if ledger.gate.tearingDown || !ledger.gate.online || !ok || live != {} {
        return false;
      }
      live, family, engine := {f}, f, Some(Command(ledger.next, Other));
      ledger.next := ledger.next + 1;
      return true;
    }

    method CompleteEngine(status: Status)
      requires engine.Some?
      modifies this`engine, ledger
      ensures Value() == AfterCompleteEngine(old(Value()), status)
    {
      hide AfterComplete;
      var c := engine.value;
      engine := None;
      ledger.Complete(c, status);
    }

    method EngineDone(f: Family, ok: bool)
      modifies this`engine, this`live, ledger
      ensures Value() == AfterEngineDone(old(Value()), f, ok)
    {
      hide AfterComplete, AfterCallback;
      ledger.Callback();
      if engine.Some? && family == f {
        CompleteEngine(EngineStatus(ledger.gate.tearingDown, ok));
      }
      live := live - {f};
    }

    method AbortEngines()
      modifies this`engine, this`live, ledger
      ensures Value() == AfterAbort(old(Value()), 0)
    {
      hide AfterEngineDone;
      for i := 0 to |ENGINES|
        invariant AfterAbort(Value(), i) == AfterAbort(old(Value()), 0)
      {
        if ENGINES[i] in live {
          EngineDone(ENGINES[i], false);
        }
      }
    }

    method OpenBio()
      modifies this`engine, this`live, ledger
      ensures Value() == AfterOpenBio(old(Value()))
    {
      hide AfterEngineDone;
      if BioRead in live {
        EngineDone(BioRead, false);
      }
      live := live + {BioRead};
    }

    method PickUp(marker: bool, translates: bool, own: bool)
      modifies this`active, this`idle, ledger
      ensures Value() == AfterPickUp(old(Value()), marker, translates, own)
    {
      hide AfterComplete;
      if ledger.queue == [] {
        idle := !own;
        return;
      }
      var c := ledger.queue[0];
      ledger.queue := ledger.queue[1..];
      if marker || !translates {
        ledger.Complete(c, if marker then CmdOk else CmdFailed);
      } else {
        active, idle := Some(c), false;
      }
    }

    method Settle(status: bool, bioOwns: bool)
      modifies this`active, this`engine, this`family, this`idle, ledger
      ensures Value() == AfterSettle(old(Value()), status, bioOwns)
    {
      hide AfterComplete;
      if active.Some? {
        if status && engine == None && bioOwns {
          engine, family := active, BioRead;
        } else {
          ledger.Complete(active.value, if status then CmdOk else CmdFailed);
        }
      }
      active, idle := None, true;
    }

    method Teardown()
      modifies this`active, this`engine, ledger
      ensures Value() == AfterTeardown(old(Value()))
    {
      hide AfterComplete, AfterDrain;
      ledger.gate := ledger.gate.(tearingDown := true);
      var _ := ledger.Drain(CmdAborted);
      if engine.Some? {
        CompleteEngine(CmdAborted);
      }
      if active.Some? {
        ledger.Complete(active.value, CmdAborted);
        active := None;
      }
    }
  }

  function AtSetup(calls: seq<Call>): Holder {
    Holder(Core([], false, 0, [], calls, Gate(false, false, false)), None, None, FileTx, {}, true)
  }

  // At any moment every command a panel accepted is in exactly one place: waiting, on the wire, with an
  // engine, or back with the application; and it never accounts for one it did not accept.
  lemma InOnePlace(desk: Desk, t: nat)
    requires desk.Valid()
    ensures Queued(desk.ledger.queue, t) + Slot(desk.active, t) + Slot(desk.engine, t) + Given(desk.ledger.log, t)
         == Issued(desk.ledger.next, t)
  {
    assert Account(desk.Value(), t) == 0;
  }
}
