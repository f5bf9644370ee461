// A device's events wait, are answered and are reported in the order the application submitted them.
module EventOrder {
  import opened Bytes
  import opened Link
  import opened Ownership
  import opened QueueOrder
  import TrsBand
  import P = PdEvents

  // A completion that says how the reply carrying an event fared.
  predicate Reports(x: (nat, Status)) { x.1 == CmdOk || x.1 == CmdFailed }

  // So far events were reported in the order of their tickets, all of them below `floor`.
  predicate Reported(log: seq<(nat, Status)>, floor: nat) {
    && (forall k, l :: 0 <= k < l < |log| && Reports(log[k]) && Reports(log[l]) ==> log[k].0 < log[l].0)
    && forall k :: 0 <= k < |log| && Reports(log[k]) ==> log[k].0 < floor
  }

  // Where the events that wait begin: after the one being answered, if there is one.
  function Start(d: P.Sender, floor: nat): nat { if d.active.Some? then d.active.value.ticket + 1 else floor }

  predicate Orderly(d: P.Sender, floor: nat) {
    && Reported(d.core.log, floor) && floor <= Start(d, floor) <= d.core.next
    && (d.active.Some? ==> floor <= d.active.value.ticket)
    && InOrder(d.core.queue, Start(d, floor), d.core.next)
  }

  // A callback reports nothing: all it can make come back is flushed.
  lemma Unreported(c: Core, r: Core, floor: nat)
    requires Reported(c.log, floor) && c.log <= r.log && Says(c, r, CmdFlushed)
    ensures Reported(r.log, floor)
  {
    forall k | 0 <= k < |r.log| && Reports(r.log[k]) ensures k < |c.log| && r.log[k] == c.log[k] {
    }
  }

  lemma CallbackOrderly(d: P.Sender, floor: nat)
    requires Orderly(d, floor)
    ensures Orderly(d.(core := AfterCallback(d.core)), floor)
  {
    hide InOrder, Reported, AfterCallback;
    CallbackOrders(d.core, Start(d, floor));
    Unreported(d.core, AfterCallback(d.core), floor);
  }

  lemma TakeOrderly(d: P.Sender, floor: nat)
    requires Orderly(d, floor) && d.active == None
    ensures Orderly(P.AfterTake(d), floor)
  {
    hide Reported;
  }

  lemma ReportGrows(log: seq<(nat, Status)>, floor: nat, t: nat, status: Status)
    requires Reported(log, floor) && floor <= t
    ensures Reported(log + [(t, status)], t + 1)
  {
  }

  lemma ReturnOrderly(d: P.Sender, status: Status, floor: nat) returns (above: nat)
    requires Orderly(d, floor)
    ensures Orderly(P.AfterReturn(d, status), above)
  {
    hide InOrder, Reported, AfterCallback;
    above := Start(d, floor);
    if d.active.Some? {
      var t := d.active.value.ticket;
      var c := d.core.(log := d.core.log + [(t, status)]);
      ReportGrows(d.core.log, floor, t, status);
      CallbackOrders(c, above);
      Unreported(c, AfterCallback(c), above);
    }
  }

  lemma DispatchOrderly(d: P.Sender, x: P.Dispatch, floor: nat)
    requires Orderly(d, floor) && d.active == None
    ensures Orderly(P.AfterDispatch(d, x), floor)
  {
    hide InOrder, Reported, AfterCallback, P.AfterTake;
    CallbackOrderly(d, floor);
    TakeOrderly(d, floor);
    TakeOrderly(d.(core := AfterCallback(d.core)), floor);
  }

  lemma SendOrderly(d: P.Sender, send: SendRc, floor: nat) returns (above: nat)
    requires Orderly(d, floor)
    ensures Orderly(P.AfterSend(d, send), above)
  {
    hide InOrder, Reported, P.AfterReturn;
    above := floor;
    if send != NotReady {
      above := ReturnOrderly(d.(parked := false), if send == Sent then CmdOk else CmdFailed, floor);
    }
  }

  lemma UpdateOrderly(d: P.Sender, rx: P.Rx, send: SendRc, floor: nat) returns (above: nat)
    requires Orderly(d, floor) && P.Fit(d)
    ensures Orderly(P.AfterUpdate(d, rx, send), above)
  {
    hide InOrder, Reported, P.AfterReturn, P.AfterDispatch, P.AfterSend;
    above := floor;
    if d.parked {
      above := SendOrderly(d, send, floor);
    } else {
      match rx {
        case Quiet =>
        case Bad => above := ReturnOrderly(d, CmdFailed, floor);
        case Packet(x, b) =>
          DispatchOrderly(d, x, floor);
          var e := P.AfterDispatch(d, x);
          if e.parked {
            above := SendOrderly(e, send, floor);
          } else {
            if b != P.Fine {
              above := ReturnOrderly(e, CmdFailed, floor);
            }
            var g := P.AfterBuild(e, b);
            if g.1 {
              above := SendOrderly(g.0, send, above);
            }
          }
      }
    }
  }

  lemma NextOrderly(d: P.Sender, e: P.Happening, floor: nat) returns (above: nat)
    requires Orderly(d, floor) && P.Fit(d)
    ensures Orderly(P.Next(d, e), above)
  {
    hide InOrder, Reported, AfterSubmit, AfterFlush, P.AfterUpdate;
    above := floor;
    match e {
      case OnSubmit(ok) =>
        SubmitOrders(d.core, TrsBand.Other, ok, Start(d, floor));
        SubmitReports(d.core, ok);
      case OnFlush =>
        FlushOrders(d.core, Start(d, floor));
        Unreported(d.core, AfterFlush(d.core).0, floor);
      case OnUpdate(rx, send) => above := UpdateOrderly(d, rx, send, floor);
    }
  }

  lemma SubmitReports(c: Core, ok: bool)
    ensures AfterSubmit(c, TrsBand.Other, ok).0.log == c.log && c.next <= AfterSubmit(c, TrsBand.Other, ok).0.next
  {
  }

  lemma {:induction false} RunOrderly(es: seq<P.Happening>, calls: seq<Call>) returns (floor: nat)
    ensures Orderly(P.Run(P.AtSetup(calls), es), floor) && P.Fit(P.Run(P.AtSetup(calls), es))
    decreases |es|
  {
    hide Orderly, P.Next;
    var d := P.AtSetup(calls);
    P.RunFits(d, es);
    if es == [] {
      NothingYet(calls);
      floor := 0;
    } else {
      floor := RunOrderly(es[..|es| - 1], calls);
      floor := NextOrderly(P.Run(d, es[..|es| - 1]), es[|es| - 1], floor);
    }
  }

  lemma NothingYet(calls: seq<Call>)
    ensures Orderly(P.AtSetup(calls), 0)
  {
  }

  // In every run events wait in the order they were accepted, and the one being answered was accepted
  // before all that wait.
  lemma OldestFirst(es: seq<P.Happening>, calls: seq<Call>)
    ensures var d := P.Run(P.AtSetup(calls), es);
            InOrder(d.core.queue, if d.active.Some? then d.active.value.ticket + 1 else 0, d.core.next)
  {
    hide P.Run;
    var floor := RunOrderly(es, calls);
  }

  // In every run the application hears how events fared in the order it submitted them; only flushing
  // can bring an event back out of turn.
  lemma ReportedInOrder(es: seq<P.Happening>, calls: seq<Call>, k: nat, l: nat)
    requires var log := P.Run(P.AtSetup(calls), es).core.log;
             k < l < |log| && Reports(log[k]) && Reports(log[l])
    ensures var log := P.Run(P.AtSetup(calls), es).core.log; log[k].0 < log[l].0
  {
    hide P.Run;
    var floor := RunOrderly(es, calls);
  }

  // ---- When events are accepted ----

  // A device always takes events, and no band is ever open in its queue.
  predicate Taking(c: Core) {
    && c.gate == Gate(true, false, false) && !c.bandOpen
    && forall i :: 0 <= i < |c.script| && c.script[i].Queue? ==> c.script[i].kind == TrsBand.Other
  }

  lemma {:induction false} CallbackTaking(c: Core)
    requires Taking(c)
    ensures Taking(AfterCallback(c))
    decreases |c.script|, 0
  {
    hide AfterFlush;
    if c.script != [] {
      var d := c.(script := c.script[1..]);
      match c.script[0] {
        case Leave =>
        case Queue(kind, ok) => CallbackTaking(AfterSubmit(d, kind, ok).0);
        case FlushAll =>
          FlushTaking(d);
          CallbackTaking(AfterFlush(d).0);
      }
    }
  }

  lemma {:induction false} FlushTaking(c: Core)
    requires Taking(c)
    ensures Taking(AfterFlush(c).0)
    decreases |c.script|, 4
  {
    hide AfterGiveBack;
    GiveBackTaking(c.(queue := []), c.queue, CmdFlushed);
  }

  lemma {:induction false} GiveBackTaking(c: Core, q: seq<TrsBand.Command>, status: Status)
    requires Taking(c)
    ensures Taking(AfterGiveBack(c, q, status))
    decreases |c.script|, 2, |q|
  {
    hide AfterCallback, Taking;
    if q != [] {
      CompleteTaking(c, q[0], status);
      GiveBackTaking(AfterComplete(c, q[0], status), q[1..], status);
    }
  }

  lemma {:induction false} CompleteTaking(c: Core, cmd: TrsBand.Command, status: Status)
    requires Taking(c)
    ensures Taking(AfterComplete(c, cmd, status))
    decreases |c.script|, 1
  {
    hide AfterCallback;
    CallbackTaking(c.(log := c.log + [(cmd.ticket, status)]));
  }

  lemma UpdateTaking(d: P.Sender, rx: P.Rx, send: SendRc)
    requires Taking(d.core)
    ensures Taking(P.AfterUpdate(d, rx, send).core)
  {
    hide AfterCallback, AfterComplete, Taking;
    CallbackTaking(d.core);
    forall c: Core, cmd, status | Taking(c) ensures Taking(AfterComplete(c, cmd, status)) {
      CompleteTaking(c, cmd, status);
    }
    forall c: Core, q | Taking(c) ensures Taking(c.(queue := q)) {
      Requeued(c, q);
    }
  }

  lemma Requeued(c: Core, q: seq<TrsBand.Command>)
    requires Taking(c)
    ensures Taking(c.(queue := q))
  {
  }

  lemma {:induction false} RunTaking(es: seq<P.Happening>, calls: seq<Call>)
    ensures Taking(P.Run(P.AtSetup(calls), es).core)
    decreases |es|
  {
    hide AfterFlush, P.AfterUpdate;
    if es != [] {
      var d := P.Run(P.AtSetup(calls), es[..|es| - 1]);
      RunTaking(es[..|es| - 1], calls);
      match es[|es| - 1] {
        case OnSubmit(ok) =>
        case OnFlush => FlushTaking(d.core);
        case OnUpdate(rx, send) => UpdateTaking(d, rx, send);
      }
    }
  }

  // In every run an event that passes its checks is accepted and waits last, and a flush brings back all
  // that wait, in order.
  lemma AcceptedAlways(es: seq<P.Happening>, calls: seq<Call>, ok: bool)
    ensures var c, r := P.Run(P.AtSetup(calls), es).core, P.Run(P.AtSetup(calls), es + [P.OnSubmit(ok)]).core;
            if ok then r == c.(queue := c.queue + [TrsBand.Command(c.next, TrsBand.Other)], next := c.next + 1) else r == c
    ensures var c, r := P.Run(P.AtSetup(calls), es).core, P.Run(P.AtSetup(calls), es + [P.OnFlush]).core;
            BackInOrder(c.queue, CmdFlushed, |c.log|, r.log)
  {
    hide AfterFlush, BackInOrder;
    RunTaking(es, calls);
    assert (es + [P.OnSubmit(ok)])[..|es|] == es && (es + [P.OnFlush])[..|es|] == es;
    FlushInOrder(P.Run(P.AtSetup(calls), es).core);
  }

  // A new device holds nothing back: its first event goes out with the first poll.
  lemma FirstEventGoesOut(calls: seq<Call>)
    ensures var es := [P.OnSubmit(true), P.OnUpdate(P.Packet(P.PollReply, P.Fine), Sent)];
            P.Run(P.AtSetup(calls), es).core.log != [] && P.Run(P.AtSetup(calls), es).core.log[0] == (0, CmdOk)
  {
    hide AfterCallback;
    var first, second := P.OnSubmit(true), P.OnUpdate(P.Packet(P.PollReply, P.Fine), Sent);
    var d := P.AtSetup(calls);
    assert [first, second][..1] == [first] && [first][..0] == [];
    assert P.Run(d, []) == d && P.Run(d, [first]) == P.Next(d, first);
    var e := P.Next(d, first);
    assert e.core.queue == [TrsBand.Command(0, TrsBand.Other)] && !e.parked && e.core.log == [];
    assert P.Run(d, [first, second]) == P.Next(e, second);
    P.PollTells(e, P.Fine, Sent);
    var log := P.Next(e, second).core.log;
    assert [(0, CmdOk)] <= log;
  }
}
