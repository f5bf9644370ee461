// Who owns an event the device's application submitted: the queue, the reply being sent for it, or the
// application again. An event leaves the queue to be the answer to a poll or to the command it answers,
// and comes back when that answer has gone out, has failed, or never will go.
module PdEvents {
  import opened Bytes
  import opened TrsBand
  import opened Link
  import opened Ownership

  // active: active_event. parked: reply_prebuilt, a finalized reply the channel was not ready for.
  datatype Sender = Sender(core: Core, active: Option<Command>, parked: bool)

  // How dispatching a command ends: what it takes for its answer from the queue, after running the
  // application's command callback if it has one (POLL has none). matches: the head of the queue is an
  // answer to the command in flight.
  datatype Dispatch =
    | PollReply                     // POLL: whatever is at the head
    | Inline(matches: bool)         // pd_take_inline_reply, and the card-command arm
    | NoEvent(callback: bool)       // any other answer
    | Staged                        // a status reply finalized during dispatch

  // The reply is built, or rewritten as a NAK, or not to be had.
  datatype Built = Fine | Nak | NoReply

  // What one osdp_pd_update meets when no reply is parked: nothing for it, a packet it cannot use, or
  // a command; and what the channel makes of the reply.
  datatype Rx = Quiet | Bad | Packet(dispatch: Dispatch, built: Built)

  // pd_event_dequeue into active_event
  function AfterTake(d: Sender): Sender {
    if d.core.queue == [] then d
    else d.(active := Some(d.core.queue[0]), core := d.core.(queue := d.core.queue[1..]))
  }

  // pd_complete_event on active_event, if there is one
  function AfterReturn(d: Sender, status: Status): Sender {
    if d.active == None then d
    else d.(active := None, core := AfterComplete(d.core, d.active.value, status))
  }

  function AfterDispatch(d: Sender, x: Dispatch): Sender {
    match x
    case PollReply => AfterTake(d)
    case Inline(matches) =>
      var e := d.(core := AfterCallback(d.core));
      if matches then AfterTake(e) else e
    case NoEvent(callback) => if callback then d.(core := AfterCallback(d.core)) else d
    case Staged => d.(core := AfterCallback(d.core), parked := true)
  }

  // pd_build_reply_packet: a reply that cannot be built is rewritten as a NAK and its event handed
  // back, or the update gives up.
  function AfterBuild(d: Sender, b: Built): (Sender, bool) {
    match b
    case Fine => (d.(parked := true), true)
    case Nak => (AfterReturn(d, CmdFailed).(parked := true), true)
    case NoReply => (AfterReturn(d, CmdFailed), false)
  }

  // pd_send_reply and what follows it
  function AfterSend(d: Sender, send: SendRc): Sender {
    match send
    case NotReady => d
    case Sent => AfterReturn(d.(parked := false), CmdOk)
    case Broken => AfterReturn(d.(parked := false), CmdFailed)
  }

  // osdp_pd_update
  function AfterUpdate(d: Sender, rx: Rx, send: SendRc): Sender {
    if d.parked then AfterSend(d, send)
    else
      match rx
      case Quiet => d
      case Bad => AfterReturn(d, CmdFailed)
      case Packet(x, b) =>
        var e := AfterDispatch(d, x);
        if e.parked then AfterSend(e, send)
        else
          var (g, ok) := AfterBuild(e, b);
          if ok then AfterSend(g, send) else g
  }

  // osdp_pd_teardown
  function AfterTeardown(d: Sender): Sender {
    var core := d.core.(gate := d.core.gate.(tearingDown := true));
    AfterReturn(d.(core := AfterDrain(core, CmdAborted).0), CmdAborted)
  }

  datatype Happening =
    | OnSubmit(ok: bool)                   // osdp_pd_submit_event
    | OnFlush                              // osdp_pd_flush_events
    | OnUpdate(rx: Rx, send: SendRc)       // osdp_pd_refresh

  function Next(d: Sender, e: Happening): Sender {
    match e
    case OnSubmit(ok) => d.(core := AfterSubmit(d.core, Other, ok).0)
    case OnFlush => d.(core := AfterFlush(d.core).0)
    case OnUpdate(rx, send) => AfterUpdate(d, rx, send)
  }

  function Run(d: Sender, es: seq<Happening>): Sender {
    if es == [] then d else Next(Run(d, es[..|es| - 1]), es[|es| - 1])
  }

  // What callbacks submit are events, which no band keeps out.
  function AsEvents(calls: seq<Call>): seq<Call> {
    seq(|calls|, i requires 0 <= i < |calls| => if calls[i].Queue? then Queue(Other, calls[i].ok) else calls[i])
  }

  function AtSetup(calls: seq<Call>): Sender {
    Sender(Core([], false, 0, [], AsEvents(calls), Gate(true, false, false)), None, false)
  }

  function Life(es: seq<Happening>, calls: seq<Call>): Sender { AfterTeardown(Run(AtSetup(calls), es)) }

  // ---- The slot ----

  // Between updates an event is held only by a reply the channel was not ready for.
  predicate Fit(d: Sender) { d.active.Some? ==> d.parked }

  lemma UpdateFits(d: Sender, rx: Rx, send: SendRc)
    requires Fit(d)
    ensures Fit(AfterUpdate(d, rx, send))
  {
    hide AfterCallback, AfterComplete;
  }

  lemma {:induction false} RunFits(d: Sender, es: seq<Happening>)
    requires Fit(d)
    ensures Fit(Run(d, es))
    decreases |es|
  {
    hide AfterSubmit, AfterFlush, AfterUpdate;
    if es != [] {
      RunFits(d, es[..|es| - 1]);
      if es[|es| - 1].OnUpdate? {
        UpdateFits(Run(d, es[..|es| - 1]), es[|es| - 1].rx, es[|es| - 1].send);
      }
    }
  }

  // In any run: whenever an update is about to take an event off the queue to be its reply, the slot it
  // goes to is empty; it is only ever filled while no reply is parked.
  lemma SlotEmptyWhenFilled(es: seq<Happening>, calls: seq<Call>)
    ensures Run(AtSetup(calls), es).active.Some? ==> Run(AtSetup(calls), es).parked
  {
    RunFits(AtSetup(calls), es);
  }

  // ---- In one place ----

  function Slot(c: Option<Command>, t: nat): nat { if c.Some? then One(c.value, t) else 0 }

  function Account(d: Sender, t: nat): int { Balance(d.core, t) + Slot(d.active, t) }

  lemma TakeAccounts(d: Sender, t: nat)
    requires d.active == None
    ensures Account(AfterTake(d), t) == Account(d, t)
  {
    hide Given;
  }

  lemma ReturnAccounts(d: Sender, status: Status, t: nat)
    ensures Account(AfterReturn(d, status), t) == Account(d, t)
  {
    hide AfterComplete, Balance;
    if d.active.Some? {
      CompleteBalances(d.core, d.active.value, status, t);
    }
  }

  lemma DispatchAccounts(d: Sender, x: Dispatch, t: nat)
    requires d.active == None
    ensures Account(AfterDispatch(d, x), t) == Account(d, t)
  {
    hide AfterCallback, AfterTake, Balance;
    CallbackBalances(d.core, t);
    TakeAccounts(d, t);
    TakeAccounts(d.(core := AfterCallback(d.core)), t);
  }

  lemma UpdateAccounts(d: Sender, rx: Rx, send: SendRc, t: nat)
    requires Fit(d)
    ensures Account(AfterUpdate(d, rx, send), t) == Account(d, t)
  {
    hide AfterReturn, AfterDispatch, Balance;
    if d.parked {
      SendAccounts(d, send, t);
    } else {
      match rx {
        case Quiet =>
        case Bad => ReturnAccounts(d, CmdFailed, t);
        case Packet(x, b) =>
          DispatchAccounts(d, x, t);
          var e := AfterDispatch(d, x);
          ReturnAccounts(e, CmdFailed, t);
          SendAccounts(if e.parked then e else AfterBuild(e, b).0, send, t);
      }
    }
  }

  lemma SendAccounts(d: Sender, send: SendRc, t: nat)
    ensures Account(AfterSend(d, send), t) == Account(d, t)
  {
    hide AfterReturn, Balance;
    ReturnAccounts(d.(parked := false), CmdOk, t);
    ReturnAccounts(d.(parked := false), CmdFailed, t);
  }

  lemma {:induction false} RunAccounts(d: Sender, es: seq<Happening>, t: nat)
    requires Fit(d)
    ensures Account(Run(d, es), t) == Account(d, t)
    decreases |es|
  {
    hide AfterSubmit, AfterFlush, AfterUpdate, Balance;
    if es != [] {
      var p := Run(d, es[..|es| - 1]);
      RunAccounts(d, es[..|es| - 1], t);
      RunFits(d, es[..|es| - 1]);
      match es[|es| - 1] {
        case OnSubmit(ok) => SubmitBalances(p.core, Other, ok, t);
        case OnFlush => FlushBalances(p.core, t);
        case OnUpdate(rx, send) => UpdateAccounts(p, rx, send, t);
      }
    }
  }

  // At any moment every event the device accepted is in exactly one place: waiting, in the reply being
  // sent, or back with the application.
  lemma InOnePlace(es: seq<Happening>, calls: seq<Call>, t: nat)
    ensures var d := Run(AtSetup(calls), es);
            Queued(d.core.queue, t) + Slot(d.active, t) + Given(d.core.log, t) == Issued(d.core.next, t)
  {
    hide Run;
    RunAccounts(AtSetup(calls), es, t);
  }

  // By the end of teardown every event has been completed exactly once.
  lemma ExactlyOnce(es: seq<Happening>, calls: seq<Call>, t: nat)
    ensures Given(Life(es, calls).core.log, t) == Issued(Life(es, calls).core.next, t)
  {
    hide Run, AfterDrain, AfterComplete, Balance;
    RunAccounts(AtSetup(calls), es, t);
    var d := Run(AtSetup(calls), es);
    var core := d.core.(gate := d.core.gate.(tearingDown := true));
    GateBalances(d.core, core, t);
    DrainBalances(core, CmdAborted, t);
    ReturnAccounts(d.(core := AfterDrain(core, CmdAborted).0), CmdAborted, t);
    NothingYet(calls, t);
    AllBack(Life(es, calls), t);
  }

  lemma NothingYet(calls: seq<Call>, t: nat)
    ensures Account(AtSetup(calls), t) == 0
  {
  }

  lemma AllBack(d: Sender, t: nat)
    requires d.core.queue == [] && d.active == None && Account(d, t) == 0
    ensures Given(d.core.log, t) == Issued(d.core.next, t)
  {
  }

  // ---- With what status it comes back ----

  lemma ReturnTells(d: Sender, status: Status)
    ensures d.active.Some? ==> Since(d.active.value, status, d.core.log, AfterReturn(d, status).core.log)
  {
    hide AfterComplete, Since;
    if d.active.Some? {
      CompleteTells(d.core, d.active.value, status);
    }
  }

  // An event that was parked with its reply comes back as that reply fares: OK once it is out, FAILED
  // if the channel refuses it for good, not at all while the channel is not ready.
  lemma ParkedTells(d: Sender, rx: Rx, send: SendRc)
    requires d.parked && d.active.Some?
    ensures var r := AfterUpdate(d, rx, send);
            match send
            case NotReady => r == d
            case Sent => r.active == None && !r.parked && Since(d.active.value, CmdOk, d.core.log, r.core.log)
            case Broken => r.active == None && !r.parked && Since(d.active.value, CmdFailed, d.core.log, r.core.log)
  {
    hide AfterComplete, Since;
    ReturnTells(d.(parked := false), CmdOk);
    ReturnTells(d.(parked := false), CmdFailed);
  }

  // The event a poll takes comes back OK only if the reply that carries it was built and is out;
  // rewritten as a NAK, or given up, it comes back FAILED, and it never stays with the device unless
  // its reply does.
  lemma PollTells(d: Sender, b: Built, send: SendRc)
    requires Fit(d) && !d.parked && d.core.queue != []
    ensures var c, r := d.core.queue[0], AfterUpdate(d, Packet(PollReply, b), send);
            && (r.active.Some? <==> b == Fine && send == NotReady) && (r.parked <==> b != NoReply && send == NotReady)
            && (r.active.Some? ==> r.active == Some(c))
            && (r.active == None ==>
                  Since(c, if b == Fine && send == Sent then CmdOk else CmdFailed, d.core.log, r.core.log))
  {
    hide AfterComplete, Since;
    var e := AfterTake(d);
    ReturnTells(e, CmdFailed);
    ReturnTells(e.(parked := false), CmdFailed);
    ReturnTells(e.(parked := true).(parked := false), CmdOk);
    ReturnTells(e.(parked := true).(parked := false), CmdFailed);
  }

  // A command that an event can answer: the application's callback runs first, then the head of the queue, if
  // it is an answer, goes out as one and comes back as that fares; if it is not, it stays where it is.
  lemma InlineTells(d: Sender, matches: bool, b: Built, send: SendRc)
    requires Fit(d) && !d.parked
    ensures var c, r := AfterCallback(d.core), AfterUpdate(d, Packet(Inline(matches), b), send);
            && (r.parked <==> b != NoReply && send == NotReady)
            && if matches && c.queue != [] then
              && (r.active.Some? <==> b == Fine && send == NotReady)
              && (r.active.Some? ==> r.active == Some(c.queue[0]) && r.core == c.(queue := c.queue[1..]))
              && (r.active == None ==>
                    Since(c.queue[0], if b == Fine && send == Sent then CmdOk else CmdFailed, c.log, r.core.log))
            else r.active == None && r.core == c
  {
    hide AfterCallback, AfterComplete, Since;
    var c := AfterCallback(d.core);
    if matches && c.queue != [] {
      var e := AfterTake(d.(core := c));
      ReturnTells(e, CmdFailed);
      ReturnTells(e.(parked := false), CmdFailed);
      ReturnTells(e.(parked := true).(parked := false), CmdOk);
      ReturnTells(e.(parked := true).(parked := false), CmdFailed);
    }
  }

  // Any other command, and a poll with nothing to tell, costs no event. Its reply is parked exactly if there is one, finalized in dispatch
  // or built after it, that the channel is not ready for.
  lemma OthersTakeNothing(d: Sender, x: Dispatch, b: Built, send: SendRc)
    requires Fit(d) && !d.parked && (x.NoEvent? || x.Staged? || (x.PollReply? && d.core.queue == []))
    ensures var r := AfterUpdate(d, Packet(x, b), send);
            && r.active == None
            && r.core == (if x == NoEvent(false) || x == PollReply then d.core else AfterCallback(d.core))
            && (r.parked <==> send == NotReady && (x.Staged? || b != NoReply))
  {
    hide AfterCallback;
  }

  // ---- In place ----

  class EventDesk {
    const ledger: Ledger
    var active: Option<Command>
    var parked: bool

    function Value(): Sender
      reads this, ledger
    {
      Sender(ledger.Value(), active, parked)
    }

    constructor (calls: seq<Call>)
      ensures fresh(ledger) && Value() == AtSetup(calls)
    {
      active, parked := None, false;
      ledger := new Ledger(AsEvents(calls), Gate(true, false, false));
    }

    // pd_event_dequeue
    method TakeHead()
      modifies this`active, ledger
      ensures Value() == AfterTake(old(Value()))
    {
      if ledger.queue != [] {
        active := Some(ledger.queue[0]);
        ledger.queue := ledger.queue[1..];
      }
    }

    // The slot is cleared only after the completion, whose callbacks cannot see it.
    method CompleteActive(status: Status)
      modifies this`active, ledger
      ensures Value() == AfterReturn(old(Value()), status)
    {
      hide AfterComplete;
      if active.Some? {
        ledger.Complete(active.value, status);
        active := None;
      }
    }

    method DispatchCommand(x: Dispatch)
      modifies this, ledger
      ensures Value() == AfterDispatch(old(Value()), x)
    {
      hide AfterCallback, AfterTake;
      match x
      case PollReply => TakeHead();
      case Inline(matches) =>
        ledger.Callback();
        if matches {
          TakeHead();
        }
      case NoEvent(callback) =>
        if callback {
          ledger.Callback();
        }
      case Staged =>
        ledger.Callback();
        parked := true;
    }

    method BuildReply(b: Built) returns (ok: bool)
      modifies this, ledger
      ensures (Value(), ok) == AfterBuild(old(Value()), b)
    {
      hide AfterReturn;
      ok := b != NoReply;
      if b != Fine {
        CompleteActive(CmdFailed);
      }
      if ok {
        parked := true;
      }
    }

    method Send(send: SendRc)
      modifies this, ledger
      ensures Value() == AfterSend(old(Value()), send)
    {
      hide AfterReturn;
      if send == NotReady {
        return;
      }
      parked := false;
      CompleteActive(if send == Sent then CmdOk else CmdFailed);
    }

    method Refresh(rx: Rx, send: SendRc)
      modifies this, ledger
      ensures Value() == AfterUpdate(old(Value()), rx, send)
    {
      hide AfterReturn, AfterDispatch, AfterBuild, AfterSend;
      if !parked {
        match rx {
          case Quiet => return;
          case Bad =>
            CompleteActive(CmdFailed);
            return;
          case Packet(x, b) =>
            DispatchCommand(x);
            if !parked {
              var ok := BuildReply(b);
              if !ok {
                return;
              }
            }
        }
      }
      Send(send);
    }

    method TearDown()
      modifies this, ledger
      ensures Value() == AfterTeardown(old(Value()))
    {
      hide AfterDrain, AfterReturn;
      ledger.gate := ledger.gate.(tearingDown := true);
      var _ := ledger.Drain(CmdAborted);
      CompleteActive(CmdAborted);
    }
  }

  // A device's whole life on the object itself.
  method Lifetime(events: seq<Happening>, calls: seq<Call>) returns (log: seq<(nat, Status)>, accepted: nat)
    ensures log == Life(events, calls).core.log && accepted == Life(events, calls).core.next
    ensures forall t: nat :: Given(log, t) == Issued(accepted, t)
  {
    hide AfterUpdate, AfterTeardown, AfterSubmit, AfterFlush;
    var desk := new EventDesk(calls);
    for i := 0 to |events|
      invariant fresh(desk) && fresh(desk.ledger) && desk.Value() == Run(AtSetup(calls), events[..i])
    {
      assert events[..i + 1][..i] == events[..i];
      match events[i]
      case OnSubmit(ok) => var _ := desk.ledger.Submit(Other, ok);
      case OnFlush => var _ := desk.ledger.Flush();
      case OnUpdate(rx, send) => desk.Refresh(rx, send);
    }
    assert events[..|events|] == events;
    desk.TearDown();
    log, accepted := desk.ledger.log, desk.ledger.next;
    forall t: nat ensures Given(log, t) == Issued(accepted, t) {
      ExactlyOnce(events, calls, t);
    }
  }
}
