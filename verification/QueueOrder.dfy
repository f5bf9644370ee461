// First come, first served: the order in which commands and events wait, leave and come back, with
// callbacks submitting and flushing in between.
module QueueOrder {
  import opened Bytes
  import opened TrsBand
  import opened Ownership
  import opened Completion
  import opened CompletionRun

  // Tickets rise strictly from head to tail, none below `from` and none not handed out yet.
  predicate InOrder(q: seq<Command>, from: nat, next: nat) {
    && (forall i, j :: 0 <= i < j < |q| ==> q[i].ticket < q[j].ticket)
    && forall i :: 0 <= i < |q| ==> from <= q[i].ticket < next
  }

  // ---- Submitting ----

  // A submission is accepted exactly if every check passes; it then takes the next ticket and waits
  // behind everything that waited before it. A refused one changes nothing.
  lemma SubmitWaitsLast(c: Core, kind: Kind, ok: bool)
    ensures var (r, accepted) := AfterSubmit(c, kind, ok);
            && (accepted <==> ok && c.gate.online && !c.gate.tearingDown && Admit(kind, c.bandOpen).Some?)
            && (!accepted ==> r == c)
            && (accepted ==>
                  && r.next == c.next + 1 && |r.queue| == |c.queue| + 1 && c.queue < r.queue
                  && r.queue[|c.queue|] == Command(c.next, kind)
                  && Some(r.bandOpen) == Admit(kind, c.bandOpen))
  {
    hide Admit;
  }

  // An engine's command is accepted exactly if every check passes and no engine is at work, and then is with
  // its engine at once, under the next ticket.
  lemma EngineTakesNext(p: Holder, f: Family, ok: bool)
    ensures var (q, accepted) := AfterSubmitEngine(p, f, ok);
            && (accepted <==> ok && p.core.gate.online && !p.core.gate.tearingDown && p.live == {})
            && (!accepted ==> q == p)
            && (accepted ==>
                  && q.engine.Some? && q.engine.value.ticket == p.core.next && q.core.next == p.core.next + 1
                  && q.core.queue == p.core.queue && q.core.log == p.core.log
                  && q.live == {f} && q.family == f && q.active == p.active)
  {
  }

  lemma SubmitOrders(c: Core, kind: Kind, ok: bool, from: nat)
    requires from <= c.next && InOrder(c.queue, from, c.next)
    ensures var r := AfterSubmit(c, kind, ok).0; InOrder(r.queue, from, r.next)
  {
    hide Admit;
  }

  // ---- Callbacks ----

  lemma {:induction false} CompleteOrders(c: Core, cmd: Command, status: Status, from: nat)
    requires from <= c.next && InOrder(c.queue, from, c.next)
    ensures var r := AfterComplete(c, cmd, status); InOrder(r.queue, from, r.next)
    decreases |c.script|, 1
  {
    hide InOrder, AfterCallback;
    CallbackOrders(c.(log := c.log + [(cmd.ticket, status)]), from);
  }

  // Whatever a callback submits and flushes, what waits after it waits in order.
  lemma {:induction false} CallbackOrders(c: Core, from: nat)
    requires from <= c.next && InOrder(c.queue, from, c.next)
    ensures var r := AfterCallback(c); InOrder(r.queue, from, r.next)
    decreases |c.script|, 0
  {
    hide InOrder, AfterSubmit, AfterFlush;
    if c.script != [] {
      var d := c.(script := c.script[1..]);
      match c.script[0] {
        case Leave =>
        case Queue(kind, ok) =>
          SubmitOrders(d, kind, ok, from);
          SubmitLater(d, kind, ok);
          CallbackOrders(AfterSubmit(d, kind, ok).0, from);
        case FlushAll =>
          FlushOrders(d, from);
          CallbackOrders(AfterFlush(d).0, from);
      }
    }
  }

  lemma {:induction false} FlushOrders(c: Core, from: nat)
    requires from <= c.next && InOrder(c.queue, from, c.next)
    ensures var r := AfterFlush(c).0; InOrder(r.queue, from, r.next)
    decreases |c.script|, 4
  {
    hide InOrder, AfterDrain;
    if !c.gate.tearingDown {
      DrainOrders(c, CmdFlushed);
      var r := AfterFlush(c).0;
      Lower(r.queue, c.next, from, r.next);
    }
  }

  // What waits after the queue was drained has all been submitted since.
  lemma {:induction false} DrainOrders(c: Core, status: Status)
    ensures var r := AfterDrain(c, status).0; InOrder(r.queue, c.next, r.next)
    decreases |c.script|, 3
  {
    hide AfterGiveBack;
    GiveBackOrders(c.(queue := []), c.queue, status, c.next);
  }

  lemma {:induction false} GiveBackOrders(c: Core, q: seq<Command>, status: Status, from: nat)
    requires from <= c.next && InOrder(c.queue, from, c.next)
    ensures var r := AfterGiveBack(c, q, status); InOrder(r.queue, from, r.next)
    decreases |c.script|, 2, |q|
  {
    hide AfterComplete, InOrder;
    if q != [] {
      CompleteOrders(c, q[0], status, from);
      GiveBackOrders(AfterComplete(c, q[0], status), q[1..], status, from);
    }
  }

  lemma Lower(q: seq<Command>, from: nat, lower: nat, next: nat)
    requires lower <= from && InOrder(q, from, next)
    ensures InOrder(q, lower, next)
  {
  }

  lemma {:induction false} DropBandOrders(c: Core, q: seq<Command>, from: nat)
    requires from <= c.next && InOrder(c.queue, from, c.next)
    ensures var (r, rest, _) := AfterDropBand(c, q);
            InOrder(r.queue, from, r.next) && rest == AfterBand(q)
    decreases |q|
  {
    hide AfterComplete, InOrder;
    if q != [] {
      CompleteOrders(c, q[0], CmdFlushed, from);
      if q[0].kind != Stop {
        DropBandOrders(AfterComplete(c, q[0], CmdFlushed), q[1..], from);
      }
    }
  }

  // What a dropped band leaves behind still goes before what completions submitted meanwhile.
  lemma FlushBandOrders(c: Core, from: nat)
    requires from <= c.next && InOrder(c.queue, from, c.next)
    ensures var r := AfterFlushBand(c); InOrder(r.queue, from, r.next)
  {
    hide AfterDropBand, AfterBand;
    var d := c.(queue := []);
    var (r, rest, _) := AfterDropBand(d, c.queue);
    DropBandOrders(d, c.queue, c.next);
    BandIsSuffix(c.queue);
  }

  lemma {:induction false} BandIsSuffix(q: seq<Command>)
    ensures |AfterBand(q)| <= |q| && AfterBand(q) == q[|q| - |AfterBand(q)|..]
    decreases |q|
  {
    if q != [] {
      BandIsSuffix(q[1..]);
    }
  }

  // ---- Whole runs ----

  predicate Waits(p: Holder, from: nat) { from <= p.core.next && InOrder(p.core.queue, from, p.core.next) }

  lemma EngineDoneOrders(p: Holder, f: Family, ok: bool, from: nat)
    requires Waits(p, from)
    ensures Waits(AfterEngineDone(p, f, ok), from)
  {
    hide InOrder, AfterCallback, AfterComplete, EngineStatus;
    CallbackOrders(p.core, from);
    var q := p.(core := AfterCallback(p.core));
    if q.engine.Some? && q.family == f {
      CompleteOrders(q.core, q.engine.value, EngineStatus(q.core.gate.tearingDown, ok), from);
    }
  }

  lemma {:induction false} AbortOrders(p: Holder, i: nat, from: nat)
    requires i <= |ENGINES| && Waits(p, from)
    ensures Waits(AfterAbort(p, i), from)
    decreases |ENGINES| - i
  {
    hide AfterEngineDone, Waits;
    if i < |ENGINES| {
      if ENGINES[i] in p.live {
        EngineDoneOrders(p, ENGINES[i], false, from);
      }
      AbortOrders(if ENGINES[i] in p.live then AfterEngineDone(p, ENGINES[i], false) else p, i + 1, from);
    }
  }

  lemma PickUpOrders(p: Holder, marker: bool, translates: bool, own: bool, from: nat)
    requires Waits(p, from)
    ensures var q := AfterPickUp(p, marker, translates, own);
            && Waits(q, from)
            && (q.active.Some? && q.active != p.active ==> q.active.value.ticket >= from && Waits(q, q.active.value.ticket + 1))
  {
    hide AfterComplete;
    if p.core.queue != [] {
      CompleteOrders(p.core.(queue := p.core.queue[1..]), p.core.queue[0], if marker then CmdOk else CmdFailed, from);
    }
  }

  lemma SettleOrders(p: Holder, status: bool, bioOwns: bool, from: nat)
    requires Waits(p, from)
    ensures Waits(AfterSettle(p, status, bioOwns), from)
  {
    hide InOrder, AfterComplete;
    if p.active.Some? {
      CompleteOrders(p.core, p.active.value, if status then CmdOk else CmdFailed, from);
    }
  }

  // Whatever happens, what waits waits in order, and what becomes active was the oldest waiting.
  lemma NextOrders(p: Holder, e: Happening, from: nat)
    requires Waits(p, from)
    ensures var q := CompletionRun.Next(p, e);
            && Waits(q, from)
            && (q.active.Some? && q.active != p.active ==> q.active.value.ticket >= from && Waits(q, q.active.value.ticket + 1))
  {
    hide AfterSubmit, AfterFlush, AfterAbort, AfterFlushBand, AfterEngineDone, AfterPickUp, AfterSettle, InOrder;
    match e {
      case OnSubmit(kind, ok) =>
        SubmitOrders(p.core, kind, ok, from);
        SubmitLater(p.core, kind, ok);
      case OnSubmitEngine(f, ok) => SubmitEngineOrders(p, f, ok, from);
      case OnFlush => FlushOrders(p.core, from);
      case OnOnline(up) =>
        AbortOrders(p, 0, from);
        AbortLeavesActive(p, 0);
      case OnSession(pending) =>
      case OnBandLost =>
        FlushBandOrders(p.core, from);
        FlushBandLater(p.core);
      case OnEngineDone(f, ok) =>
        EngineDoneOrders(p, f, ok, from);
        EngineDoneLeaves(p, f, ok);
      case OnBioFragment =>
        EngineDoneOrders(p, BioRead, false, from);
        EngineDoneLeaves(p, BioRead, false);
      case OnPass(status, bioOwns, marker, translates, own) =>
        PickUpOrders(p, marker, translates, own, from);
        SettleOrders(p, status, bioOwns && BioRead in p.live, from);
        SettleLeavesNone(p, status, bioOwns && BioRead in p.live);
    }
  }

  lemma SubmitEngineOrders(p: Holder, f: Family, ok: bool, from: nat)
    requires Waits(p, from)
    ensures var q := AfterSubmitEngine(p, f, ok).0; Waits(q, from) && q.active == p.active
  {
  }

  lemma SettleLeavesNone(p: Holder, status: bool, bioOwns: bool)
    ensures AfterSettle(p, status, bioOwns).active == None
  {
    hide AfterComplete;
  }

  lemma FlushBandLater(c: Core)
    ensures c.next <= AfterFlushBand(c).next
  {
    hide AfterDropBand;
  }

  lemma {:induction false} AbortLeavesActive(p: Holder, i: nat)
    requires i <= |ENGINES|
    ensures AfterAbort(p, i).active == p.active
    decreases |ENGINES| - i
  {
    hide AfterEngineDone;
    if i < |ENGINES| {
      EngineDoneLeaves(p, ENGINES[i], false);
      AbortLeavesActive(if ENGINES[i] in p.live then AfterEngineDone(p, ENGINES[i], false) else p, i + 1);
    }
  }

  lemma {:induction false} RunOrders(p: Holder, es: seq<Happening>, from: nat)
    requires Waits(p, from)
    ensures Waits(Run(p, es), from)
    decreases |es|
  {
    hide Waits, CompletionRun.Next;
    if es != [] {
      RunOrders(p, es[..|es| - 1], from);
      NextOrders(Run(p, es[..|es| - 1]), es[|es| - 1], from);
    }
  }

  // In every run the queue holds its commands in the order they were accepted.
  lemma QueueInOrder(es: seq<Happening>, calls: seq<Call>)
    ensures var c := Run(AtSetup(calls), es).core; InOrder(c.queue, 0, c.next)
  {
    hide Run;
    RunOrders(AtSetup(calls), es, 0);
  }

  // Step i of a run puts the command with ticket t on the wire.
  predicate Starts(p: Holder, es: seq<Happening>, i: nat, t: nat)
    requires i < |es|
  {
    var was, now := Run(p, es[..i]).active, Run(p, es[..i + 1]).active;
    now.Some? && now != was && now.value.ticket == t
  }

  lemma {:induction false} StillYounger(p: Holder, es: seq<Happening>, i: nat, j: nat, from: nat)
    requires i <= j <= |es| && Waits(Run(p, es[..i]), from)
    ensures Waits(Run(p, es[..j]), from)
    decreases j
  {
    hide Waits, CompletionRun.Next;
    if i < j {
      StillYounger(p, es, i, j - 1, from);
      assert es[..j][..j - 1] == es[..j - 1];
      NextOrders(Run(p, es[..j - 1]), es[j - 1], from);
    }
  }

  // In every run commands go out in the order they were accepted.
  lemma SentInOrder(es: seq<Happening>, calls: seq<Call>, i: nat, j: nat, t: nat, u: nat)
    requires i < j < |es| && Starts(AtSetup(calls), es, i, t) && Starts(AtSetup(calls), es, j, u)
    ensures t < u
  {
    hide Run, CompletionRun.Next;
    var p := AtSetup(calls);
    RunOrders(p, es[..i], 0);
    StepOf(p, es, i);
    NextOrders(Run(p, es[..i]), es[i], 0);
    StillYounger(p, es, i + 1, j, t + 1);
    StepOf(p, es, j);
    NextOrders(Run(p, es[..j]), es[j], t + 1);
  }

  lemma StepOf(p: Holder, es: seq<Happening>, i: nat)
    requires i < |es|
    ensures Run(p, es[..i + 1]) == CompletionRun.Next(Run(p, es[..i]), es[i])
  {
    hide CompletionRun.Next;
    assert es[..i + 1][..i] == es[..i];
  }

  // ---- When submissions are accepted ----

  // What the run was last told: the panel is ONLINE, and a card session owes its STOP.
  predicate Up(es: seq<Happening>) {
    es != [] && (if es[|es| - 1].OnOnline? then es[|es| - 1].up else Up(es[..|es| - 1]))
  }

  predicate Pending(es: seq<Happening>) {
    es != [] && (if es[|es| - 1].OnSession? then es[|es| - 1].pending else Pending(es[..|es| - 1]))
  }

  lemma {:induction false} AbortGate(p: Holder, i: nat)
    requires i <= |ENGINES|
    ensures AfterAbort(p, i).core.gate == p.core.gate
    decreases |ENGINES| - i
  {
    hide AfterCallback, AfterComplete;
    if i < |ENGINES| {
      AbortGate(if ENGINES[i] in p.live then AfterEngineDone(p, ENGINES[i], false) else p, i + 1);
    }
  }

  lemma NextGate(p: Holder, e: Happening)
    ensures CompletionRun.Next(p, e).core.gate == p.core.gate.(
              online := if e.OnOnline? then e.up else p.core.gate.online,
              session := if e.OnSession? then e.pending else p.core.gate.session)
  {
    hide AfterFlush, AfterFlushBand, AfterAbort, AfterCallback, AfterComplete;
    AbortGate(p, 0);
  }

  lemma {:induction false} RunGate(es: seq<Happening>, calls: seq<Call>)
    ensures Run(AtSetup(calls), es).core.gate == Gate(Up(es), false, Pending(es))
    decreases |es|
  {
    hide CompletionRun.Next;
    if es != [] {
      RunGate(es[..|es| - 1], calls);
      NextGate(Run(AtSetup(calls), es[..|es| - 1]), es[|es| - 1]);
    }
  }

  // In every run a submission gets the next ticket and waits last if and only if its own checks pass, the
  // panel is ONLINE and the queue stays a legal word with it.
  lemma AcceptedExactly(es: seq<Happening>, calls: seq<Call>, kind: Kind, ok: bool)
    ensures var c, r := Run(AtSetup(calls), es).core, Run(AtSetup(calls), es + [OnSubmit(kind, ok)]).core;
            if ok && Up(es) && Admit(kind, c.bandOpen).Some?
            then r.next == c.next + 1 && r.queue == c.queue + [Command(c.next, kind)] && r.log == c.log
            else r == c
  {
    hide Run, Admit;
    RunGate(es, calls);
    LastStep(AtSetup(calls), es, OnSubmit(kind, ok));
  }

  lemma LastStep(p: Holder, es: seq<Happening>, e: Happening)
    ensures Run(p, es + [e]) == CompletionRun.Next(Run(p, es), e)
  {
    hide CompletionRun.Next;
    assert (es + [e])[..|es|] == es;
  }

  // A new panel is idle with nothing under way: once ONLINE it takes any command that is not part of a card
  // session, or a session's START, and the next pass sends it.
  lemma FirstCommandGoesOut(calls: seq<Call>, kind: Kind, status: bool, bioOwns: bool, own: bool)
    ensures var es := [OnOnline(true), OnSubmit(kind, true)];
            var p := Run(AtSetup(calls), es);
            && (p.core.next == 1 <==> kind == Start || kind == Other)
            && (kind == Start || kind == Other ==>
                  Run(AtSetup(calls), es + [OnPass(status, bioOwns, false, true, own)]).active == Some(Command(0, kind)))
  {
    hide CompletionRun.Next;
    var a := AtSetup(calls);
    assert [] + [OnOnline(true)] == [OnOnline(true)] && [OnOnline(true)] + [OnSubmit(kind, true)] == [OnOnline(true), OnSubmit(kind, true)];
    LastStep(a, [], OnOnline(true));
    LastStep(a, [OnOnline(true)], OnSubmit(kind, true));
    LastStep(a, [OnOnline(true), OnSubmit(kind, true)], OnPass(status, bioOwns, false, true, own));
    FirstSteps(a, kind, status, bioOwns, own);
  }

  lemma FirstSteps(p: Holder, kind: Kind, status: bool, bioOwns: bool, own: bool)
    requires p == AtSetup(p.core.script)
    ensures var q := CompletionRun.Next(CompletionRun.Next(p, OnOnline(true)), OnSubmit(kind, true));
            && (q.core.next == 1 <==> kind == Start || kind == Other)
            && (kind == Start || kind == Other ==>
                  CompletionRun.Next(q, OnPass(status, bioOwns, false, true, own)).active == Some(Command(0, kind)))
  {
    assert CompletionRun.Next(p, OnOnline(true)) == p.(core := p.core.(gate := Gate(true, false, false)));
  }

  // ---- Coming back ----

  // From the k-th completion on, the commands of q came back in the order of q, each with `status`;
  // others may have come back in between.
  predicate BackInOrder(q: seq<Command>, status: Status, k: nat, log: seq<(nat, Status)>) {
    q == [] || exists i :: k <= i < |log| && log[i] == (q[0].ticket, status) && BackInOrder(q[1..], status, i + 1, log)
  }

  lemma {:induction false} BackEarlier(q: seq<Command>, status: Status, k: nat, later: nat, log: seq<(nat, Status)>)
    requires k <= later && BackInOrder(q, status, later, log)
    ensures BackInOrder(q, status, k, log)
  {
    if q != [] {
      var i :| later <= i < |log| && log[i] == (q[0].ticket, status) && BackInOrder(q[1..], status, i + 1, log);
    }
  }

  lemma {:induction false} BackGrows(q: seq<Command>, status: Status, k: nat, log: seq<(nat, Status)>, more: seq<(nat, Status)>)
    requires log <= more && BackInOrder(q, status, k, log)
    ensures BackInOrder(q, status, k, more)
    decreases |q|
  {
    if q != [] {
      var i :| k <= i < |log| && log[i] == (q[0].ticket, status) && BackInOrder(q[1..], status, i + 1, log);
      BackGrows(q[1..], status, i + 1, log, more);
      assert more[i] == log[i];
    }
  }

  lemma HeadBack(q: seq<Command>, status: Status, log: seq<(nat, Status)>, mid: seq<(nat, Status)>, end: seq<(nat, Status)>)
    requires q != [] && log + [(q[0].ticket, status)] <= mid <= end && BackInOrder(q[1..], status, |mid|, end)
    ensures BackInOrder(q, status, |log|, end)
  {
    var k := |log|;
    assert end[k] == mid[k] == (log + [(q[0].ticket, status)])[k];
    BackEarlier(q[1..], status, k + 1, |mid|, end);
  }

  lemma {:induction false} GiveBackInOrder(c: Core, q: seq<Command>, status: Status)
    ensures BackInOrder(q, status, |c.log|, AfterGiveBack(c, q, status).log)
    decreases |q|
  {
    hide AfterComplete, BackInOrder;
    if q != [] {
      var d := AfterComplete(c, q[0], status);
      GiveBackInOrder(d, q[1..], status);
      HeadBack(q, status, c.log, d.log, AfterGiveBack(c, q, status).log);
    } else {
      Nothing(status, |c.log|, c.log);
    }
  }

  lemma Nothing(status: Status, k: nat, log: seq<(nat, Status)>)
    ensures BackInOrder([], status, k, log)
  {
  }

  // A flush gives back what waits in the order it waits in.
  lemma FlushInOrder(c: Core)
    requires !c.gate.tearingDown
    ensures BackInOrder(c.queue, CmdFlushed, |c.log|, AfterFlush(c).0.log)
  {
    hide AfterGiveBack, BackInOrder;
    GiveBackInOrder(c.(queue := []), c.queue, CmdFlushed);
  }

  // In every run a flush brings back all that waits, in order.
  lemma FlushedInRuns(es: seq<Happening>, calls: seq<Call>)
    ensures var c, r := Run(AtSetup(calls), es).core, Run(AtSetup(calls), es + [OnFlush]).core;
            BackInOrder(c.queue, CmdFlushed, |c.log|, r.log) && InOrder(r.queue, c.next, r.next)
  {
    hide Run, AfterDrain, BackInOrder, InOrder;
    RunGate(es, calls);
    LastStep(AtSetup(calls), es, OnFlush);
    FlushInOrder(Run(AtSetup(calls), es).core);
    DrainOrders(Run(AtSetup(calls), es).core, CmdFlushed);
  }

  // A band that is lost in the course of a run comes back so too, and what it did not claim goes first.
  lemma BandLostInRuns(es: seq<Happening>, calls: seq<Call>)
    ensures var c, r := Run(AtSetup(calls), es).core, Run(AtSetup(calls), es + [OnBandLost]).core;
            BackInOrder(c.queue[..BandLen(c.queue)], CmdFlushed, |c.log|, r.log) && AfterBand(c.queue) <= r.queue
  {
    hide Run, AfterFlushBand, BackInOrder;
    LastStep(AtSetup(calls), es, OnBandLost);
    FlushBandInOrder(Run(AtSetup(calls), es).core);
    FlushBandTells(Run(AtSetup(calls), es).core);
  }

  // In every run an engine's end brings its own command back, as it ended, and no other's; and an engine
  // takes a command exactly if the panel is ONLINE and no engine is at work.
  lemma EnginesInRuns(es: seq<Happening>, calls: seq<Call>, f: Family, ok: bool)
    ensures var p, q := Run(AtSetup(calls), es), Run(AtSetup(calls), es + [OnEngineDone(f, ok)]);
            if f !in p.live then q == p
            else
              && q.live == p.live - {f}
              && (if p.engine.Some? && p.family == f
                  then q.engine == None && Since(p.engine.value, if ok then CmdOk else CmdFailed, p.core.log, q.core.log)
                  else q.engine == p.engine)
    ensures f != BioRead ==>
              var p, q := Run(AtSetup(calls), es), Run(AtSetup(calls), es + [OnSubmitEngine(f, ok)]);
              if ok && Up(es) && p.live == {}
              then q.live == {f} && q.engine == Some(Command(p.core.next, Other)) && q.core.next == p.core.next + 1
              else q == p
  {
    hide Run, AfterEngineDone, Since;
    RunGate(es, calls);
    LastStep(AtSetup(calls), es, OnEngineDone(f, ok));
    LastStep(AtSetup(calls), es, OnSubmitEngine(f, ok));
    EngineDoneTells(Run(AtSetup(calls), es), f, ok);
    EngineDoneLeaves(Run(AtSetup(calls), es), f, ok);
  }

  // From inside a callback too: what waits when it flushes is back, in order, before it returns.
  lemma CallbackFlushes(c: Core)
    requires c.script != [] && c.script[0] == FlushAll && !c.gate.tearingDown
    ensures BackInOrder(c.queue, CmdFlushed, |c.log|, AfterCallback(c).log)
  {
    hide AfterFlush, BackInOrder;
    var d := c.(script := c.script[1..]);
    FlushInOrder(d);
    BackGrows(c.queue, CmdFlushed, |c.log|, AfterFlush(d).0.log, AfterCallback(c).log);
  }

  // And what it submits is in, if the checks let it.
  lemma CallbackSubmits(c: Core, kind: Kind)
    requires c.script != [] && c.script[0] == Queue(kind, true) && c.gate.online && !c.gate.tearingDown
    requires Admit(kind, c.bandOpen).Some?
    ensures AfterCallback(c).next > c.next
  {
    hide Admit;
  }

  // A dropped band comes back in the order it waited in, up to its STOP.
  lemma {:induction false} DropBandInOrder(c: Core, q: seq<Command>)
    ensures BackInOrder(q[..BandLen(q)], CmdFlushed, |c.log|, AfterDropBand(c, q).0.log)
    decreases |q|
  {
    hide AfterComplete, BackInOrder;
    if q == [] {
      Nothing(CmdFlushed, |c.log|, c.log);
    } else {
      var d, r, band := AfterComplete(c, q[0], CmdFlushed), AfterDropBand(c, q).0, q[..BandLen(q)];
      if q[0].kind == Stop {
        assert band[1..] == [];
        Nothing(CmdFlushed, |d.log|, r.log);
      } else {
        DropBandInOrder(d, q[1..]);
        assert band[1..] == q[1..][..BandLen(q[1..])];
      }
      HeadBack(band, CmdFlushed, c.log, d.log, r.log);
    }
  }

  lemma FlushBandInOrder(c: Core)
    ensures BackInOrder(c.queue[..BandLen(c.queue)], CmdFlushed, |c.log|, AfterFlushBand(c).log)
  {
    hide AfterDropBand, BackInOrder, BandLen;
    DropBandInOrder(c.(queue := []), c.queue);
  }

  // And teardown, which gives back what waits before what is with an engine or on the wire.
  lemma TeardownInOrder(p: Holder)
    ensures BackInOrder(p.core.queue, CmdAborted, |p.core.log|, AfterTeardown(p).core.log)
  {
    hide AfterGiveBack, AfterComplete, BackInOrder;
    var core := p.core.(gate := p.core.gate.(tearingDown := true));
    var r := AfterDrain(core, CmdAborted).0;
    GiveBackInOrder(core.(queue := []), core.queue, CmdAborted);
    BackGrows(p.core.queue, CmdAborted, |p.core.log|, r.log, AfterTeardown(p).core.log);
  }
}
