// Transparent card sessions at the panel: the queue of application commands with its START..STOP
// bands (decided at the tail, consumed at the head), and the session state machine of src/osdp_trs.c
// run by state_update of src/osdp_cp.c.
module TrsBand {
  import opened Bytes

  // As cp_band_admit tells them apart: the two markers, card commands, everything else.
  datatype Kind = Start | Stop | Card | Other

  datatype Command = Command(ticket: nat, kind: Kind)

  datatype Role = Online | Setup | Session | Away

  datatype Stage = SetMode | Xmit | DisconnectCard | Teardown | Ended

  // What the panel has on the wire; Own is a poll or a fragment of a staged transfer.
  datatype Sent = ModeOn | ModeOff | Terminate | Ask | Own | App(c: Command)

  // Session notifications to the application.
  datatype Told = Opened | Closed | SessionFailed | ScanSuspended

  datatype Panel = Panel(
    role: Role,
    stage: Stage,         // trs.state
    mode: byte,           // trs.mode
    failed: bool,
    bandOpen: bool,
    stopPending: bool,
    probe: bool,
    asking: bool,         // trs.scan.asking
    queue: seq<Command>,
    wire: Option<Sent>,   // phy busy with this
    told: seq<Told>,
    owes: bool)           // mode 01 was asked for and neither taken back nor reported refused

  predicate InSession(s: Panel) { s.role == Setup || s.role == Session }

  // Is the head of the queue inside a band?
  predicate Inside(s: Panel) { InSession(s) && s.stopPending }

  // ---- The queue as a word ----

  // Where a legal word leaves the band, None for a word that is not legal.
  function Walk(q: seq<Command>, inside: bool): Option<bool> {
    if q == [] then Some(inside)
    else match q[0].kind
      case Start => if inside then None else Walk(q[1..], true)
      case Stop => if inside then Walk(q[1..], false) else None
      case Card => if inside then Walk(q[1..], true) else None
      case Other => if inside then None else Walk(q[1..], false)
  }

  lemma {:induction false} WalkAppend(q: seq<Command>, r: seq<Command>, inside: bool)
    ensures Walk(q + r, inside) == match Walk(q, inside) case None => None case Some(b) => Walk(r, b)
    decreases |q|
  {
    if q == [] {
      assert q + r == r;
    } else {
      assert (q + r)[1..] == q[1..] + r;
      WalkAppend(q[1..], r, true);
      WalkAppend(q[1..], r, false);
    }
  }

  // cp_band_admit, the checks on the command itself apart: admitted, and the band after it.
  function Admit(kind: Kind, bandOpen: bool): Option<bool> {
    match kind
    case Start => if bandOpen then None else Some(true)
    case Stop => if bandOpen then Some(false) else None
    case Card => if bandOpen then Some(true) else None
    case Other => if bandOpen then None else Some(false)
  }

  // A submission is let in exactly if the queue stays a legal word with it at the end.
  lemma AdmitsLegal(q: seq<Command>, inside: bool, bandOpen: bool, c: Command)
    requires Walk(q, inside) == Some(bandOpen)
    ensures Admit(c.kind, bandOpen) == Walk(q + [c], inside)
  {
    WalkAppend(q, [c], inside);
  }

  // What is left when a session dies before its STOP: cp_flush_trs_band.
  function AfterBand(q: seq<Command>): seq<Command> {
    if q == [] then [] else if q[0].kind == Stop then q[1..] else AfterBand(q[1..])
  }

  predicate HasStop(q: seq<Command>) { exists i :: 0 <= i < |q| && q[i].kind == Stop }

  // How many commands the band at the front has left.
  function BandLen(q: seq<Command>): (n: nat)
    ensures n <= |q|
  {
    if q == [] then 0 else if q[0].kind == Stop then 1 else 1 + BandLen(q[1..])
  }

  lemma HasStopTail(q: seq<Command>)
    requires q != [] && q[0].kind != Stop
    ensures HasStop(q) <==> HasStop(q[1..])
  {
    if HasStop(q[1..]) {
      var i :| 0 <= i < |q[1..]| && q[1..][i].kind == Stop;
      assert q[i + 1].kind == Stop;
    }
    if HasStop(q) {
      var i :| 0 <= i < |q| && q[i].kind == Stop;
      assert q[1..][i - 1].kind == Stop;
    }
  }

  // A dead session takes exactly its own band with it: cards only, up to and including the first
  // STOP, and what follows keeps its order.
  lemma {:induction false} DropsItsBand(q: seq<Command>)
    requires Walk(q, true).Some?
    ensures AfterBand(q) == q[BandLen(q)..]
    ensures forall i :: 0 <= i < BandLen(q) ==> q[i].kind == (if i == BandLen(q) - 1 && HasStop(q) then Stop else Card)
    ensures HasStop(q) ==> BandLen(q) > 0 && Walk(AfterBand(q), false) == Walk(q, true)
    ensures !HasStop(q) ==> BandLen(q) == |q| && Walk(q, true) == Some(true)
    decreases |q|
  {
    if q != [] && q[0].kind != Stop {
      DropsItsBand(q[1..]);
      HasStopTail(q);
      forall i | 0 <= i < BandLen(q)
        ensures q[i].kind == (if i == BandLen(q) - 1 && HasStop(q) then Stop else Card)
      {
        if i > 0 {
          assert q[i] == q[1..][i - 1];
        }
      }
    }
  }

  // cp_flush_trs_band. live is what completions submitted while the band was being completed, and
  // bandOpen already accounts for it.
  function FlushBand(s: Panel, live: seq<Command>): Panel {
    s.(queue := AfterBand(s.queue) + live, bandOpen := s.bandOpen && HasStop(s.queue))
  }

  // With completions that submit, the queue stays a legal word exactly when the band had its STOP
  // or nothing was submitted: a card command or a STOP queued at the end of a band that is being
  // dropped is left behind with no session to run in.
  lemma FlushKeepsWord(s: Panel, before: bool, live: seq<Command>)
    requires Walk(s.queue, true) == Some(before) && Walk(live, before) == Some(s.bandOpen)
    ensures var t := FlushBand(s, live);
            Walk(t.queue, false) == Some(t.bandOpen) <==> HasStop(s.queue) || live == []
  {
    DropsItsBand(s.queue);
    WalkAppend(AfterBand(s.queue), live, false);
    if !HasStop(s.queue) {
      assert AfterBand(s.queue) + live == live;
    }
  }

  // ---- Steps ----

  datatype Reply = ReplyAck | ReplyMode(mode: byte) | ReplyOther

  datatype Event =
    | Submit(c: Command)                       // osdp_cp_submit_command, its other checks passed
    | Flush                                    // osdp_cp_flush_commands
    | Idle(due: bool, ask: bool, own: bool, sendable: bool)   // a pass with nothing on the wire
    | Answered(reply: Reply)                   // a pass that found the command answered, or failed softly
    | Failed(refused: bool)                    // a pass that found it failed
    | Drop                                     // ONLINE is left for a handshake or OFFLINE
    | Return                                   // ... and come back to
  
  function Send(s: Panel, w: Sent): Panel {
    s.(wire := Some(w), owes := if w == ModeOn then true else if w == ModeOff then false else s.owes)
  }

  // cp_state_change to ONLINE from a session.
  function Close(s: Panel): Panel {
    var t := s.(role := Online, wire := None);
    if s.probe then
      t.(probe := false, asking := false, told := if s.failed then s.told + [ScanSuspended] else s.told)
    else
      var u := if s.stopPending then FlushBand(t, []) else t;
      u.(told := s.told + [if s.failed then SessionFailed else Closed])
  }

  // cp_state_change to TRS_SETUP, and osdp_trs_probe_note_open for a probe.
  function Open(s: Panel, probe: bool): Panel {
    s.(role := Setup, stage := SetMode, mode := 0, failed := false, stopPending := !probe, wire := None,
       probe := s.probe || probe, asking := if probe then false else s.asking)
  }

  // cp_state_change to TRS_RUN: leaving TRS_SETUP opens the session, as far as the application hears.
  function Enter(s: Panel): Panel {
    s.(role := Session, told := if s.role == Setup && !s.probe then s.told + [Opened] else s.told)
  }

  // cp_get_online_command; due: osdp_trs_scan_probe_due.
  function IdleOnline(s: Panel, due: bool, own: bool, sendable: bool): Panel {
    if s.queue != [] then
      var c, t := s.queue[0], s.(queue := s.queue[1..]);
      if c.kind == Start then Open(t, false)
      else if sendable || c.kind != Other then Send(t, App(c))
      else t
    else if due && !s.bandOpen then Open(s, true)
    else if own then Send(s, Own)
    else s
  }

  // A START that finds a probe's session open takes it over.
  function Adopt(s: Panel): Panel
    requires s.queue != []
  {
    s.(queue := s.queue[1..], probe := false, stopPending := true, asking := false, told := s.told + [Opened])
  }

  // cp_get_trs_command in TRS_STATE_XMIT; due: osdp_trs_probe_expired, ask: osdp_trs_scan_ask_due.
  function IdleXmit(s: Panel, due: bool, ask: bool, own: bool, sendable: bool): Panel
    decreases |s.queue|
  {
    if s.queue == [] then
      if s.probe && due then Send(s.(stage := Teardown), ModeOff)
      else if s.probe && ask && !s.asking then Send(s.(asking := true), Ask)
      else if own then Send(s, Own)
      else s.(asking := false)
    else
      var c, t := s.queue[0], s.(queue := s.queue[1..]);
      if s.probe && c.kind == Start then
        IdleXmit(Adopt(s), due, ask, own, sendable)
      else if c.kind == Stop then Send(t.(stopPending := false, stage := DisconnectCard), Terminate)
      else if sendable || c.kind != Other then Send(t, App(c))
      else t.(asking := false)
  }

  function IdleStep(s: Panel, due: bool, ask: bool, own: bool, sendable: bool): Panel {
    match s.role
    case Away => s
    case Online => IdleOnline(s, due, own, sendable)
    case _ =>
      match s.stage
      case Xmit => IdleXmit(s, due, ask, own, sendable)
      case SetMode => Send(s, ModeOn)
      case DisconnectCard => Send(s, Terminate)
      case Teardown => Send(s, ModeOff)
      case Ended => Close(s)
  }

  // osdp_trs_state_update after a usable reply. A mode report is recorded as it is decoded.
  function TrsOk(s: Panel, reply: Reply): Panel {
    var t := s.(wire := None, mode := if reply.ReplyMode? then reply.mode else s.mode);
    match s.stage
    case SetMode =>
      var m := if reply == ReplyAck then 1 else t.mode;
      if m != 1 then Close(t.(stage := Ended, failed := true, owes := t.owes && !reply.ReplyMode?))
      else Enter(t.(mode := 1, stage := Xmit))
    case Xmit => Enter(t.(asking := false))
    case DisconnectCard => Enter(t.(stage := Teardown))
    case _ => Close(t.(stage := Ended))
  }

  // osdp_trs_state_update_err; refused: the reader answered, just not with what was asked for.
  function TrsErr(s: Panel, refused: bool): Panel {
    var t := s.(wire := None, asking := false);
    if s.asking && refused then Enter(t)
    else
      var f := t.(failed := true);
      if s.stage == Teardown || s.stage == Ended then Close(f.(stage := Ended))
      else Enter(f.(stage := Teardown))
  }

  function Next(s: Panel, e: Event): Panel {
    match e
    case Submit(c) =>
      if s.role == Away then s
      else
        (match Admit(c.kind, s.bandOpen)
         case None => s
         case Some(b) => s.(queue := s.queue + [c], bandOpen := b))
    case Flush => s.(queue := [], bandOpen := Inside(s))
    case Idle(due, ask, own, sendable) => if s.wire == None then IdleStep(s, due, ask, own, sendable) else s
    case Answered(reply) =>
      if s.wire == None then s
      else if InSession(s) then TrsOk(s, reply)
      else s.(wire := None)
    case Failed(refused) =>
      if s.wire == None then s
      else if InSession(s) then TrsErr(s, refused)
      else s.(wire := None, role := Away)
    case Drop => if s.role == Online && s.wire == None then s.(role := Away) else s
    case Return => if s.role == Away then s.(role := Online) else s
  }

  // ---- Invariant ----

  predicate OnWire(s: Panel) {
    match s.wire
    case None => true
    case Some(w) =>
      && s.role != Away
      && (InSession(s) ==>
            match s.stage
            case SetMode => w == ModeOn
            case DisconnectCard => w == Terminate
            case Teardown => w == ModeOff && !s.owes
            case _ => w == Ask || w == Own || w.App?)
      && (s.role == Online ==> w == Own || w.App?)
      && (w.App? && w.c.kind == Card ==> s.role == Session && s.stage == Xmit && s.stopPending && !s.probe)
      && (w == Ask ==> s.probe)
  }

  predicate Inv(s: Panel) {
    && Walk(s.queue, Inside(s)) == Some(s.bandOpen)
    && (s.probe ==> InSession(s) && !s.stopPending)
    && (s.asking ==> s.wire == Some(Ask) && s.stage == Xmit && InSession(s))
    && (s.role == Setup ==> s.stage == SetMode && s.mode == 0)
    && (s.role == Session ==> s.stage in {Xmit, DisconnectCard, Teardown})
    && (InSession(s) && s.stopPending ==> s.stage in {SetMode, Xmit, Teardown})
    && (InSession(s) && !s.stopPending && !s.probe ==> s.stage in {DisconnectCard, Teardown})
    && OnWire(s)
  }

  lemma CloseKeeps(s: Panel)
    requires Walk(s.queue, Inside(s)) == Some(s.bandOpen) && InSession(s)
    requires s.probe ==> !s.stopPending
    requires s.asking ==> s.probe
    ensures Inv(Close(s)) && Close(s).owes == s.owes && Close(s).role == Online
  {
    if !s.probe && s.stopPending {
      var t := s.(role := Online, wire := None);
      assert AfterBand(s.queue) + [] == AfterBand(s.queue);
      FlushKeepsWord(t, s.bandOpen, []);
    }
    assert Walk(Close(s).queue, false) == Some(Close(s).bandOpen);
    assert !Close(s).asking && !Close(s).probe && !Inside(Close(s));
  }

  lemma IdleXmitKeeps(s: Panel, due: bool, ask: bool, own: bool, sendable: bool)
    requires Inv(s) && s.role == Session && s.stage == Xmit && s.wire == None
    ensures var t := IdleXmit(s, due, ask, own, sendable);
            Inv(t) && t.role == Session && (t.owes ==> s.owes)
    decreases |s.queue|
  {
    if s.queue != [] && s.probe && s.queue[0].kind == Start {
      AdoptKeeps(s);
      IdleXmitKeeps(Adopt(s), due, ask, own, sendable);
    } else if s.queue != [] {
      PlainHeadKeeps(s, due, ask, own, sendable);
    }
  }

  lemma AdoptKeeps(s: Panel)
    requires Inv(s) && s.role == Session && s.stage == Xmit && s.wire == None && s.probe
    requires s.queue != [] && s.queue[0].kind == Start
    ensures Inv(Adopt(s))
  {
  }

  lemma PlainHeadKeeps(s: Panel, due: bool, ask: bool, own: bool, sendable: bool)
    requires Inv(s) && s.role == Session && s.stage == Xmit && s.wire == None
    requires s.queue != [] && !(s.probe && s.queue[0].kind == Start)
    ensures var t := IdleXmit(s, due, ask, own, sendable); Inv(t) && t.role == Session && t.owes == s.owes
  {
  }

  lemma IdleKeeps(s: Panel, due: bool, ask: bool, own: bool, sendable: bool)
    requires Inv(s) && s.wire == None
    ensures Inv(IdleStep(s, due, ask, own, sendable))
  {
    hide IdleXmit, Close;
    if s.role == Session && s.stage == Xmit {
      IdleXmitKeeps(s, due, ask, own, sendable);
    }
  }

  lemma OkKeeps(s: Panel, reply: Reply)
    requires Inv(s) && s.wire.Some? && InSession(s)
    ensures Inv(TrsOk(s, reply))
  {
    hide Close, Walk;
    var t := s.(wire := None, mode := if reply.ReplyMode? then reply.mode else s.mode, stage := Ended);
    if s.stage == Teardown {
      CloseKeeps(t);
    } else if s.stage == SetMode {
      CloseKeeps(t.(failed := true, owes := s.owes && !reply.ReplyMode?));
    }
  }

  lemma ErrKeeps(s: Panel, refused: bool)
    requires Inv(s) && s.wire.Some? && InSession(s)
    ensures Inv(TrsErr(s, refused))
  {
    hide Close, Walk;
    if s.stage == Teardown {
      CloseKeeps(s.(wire := None, asking := false, failed := true, stage := Ended));
    }
  }

  lemma StepKeeps(s: Panel, e: Event)
    requires Inv(s)
    ensures Inv(Next(s, e))
  {
    hide TrsOk, TrsErr, IdleStep;
    match e
    case Submit(c) => WalkAppend(s.queue, [c], Inside(s));
    case Idle(due, ask, own, sendable) =>
      if s.wire == None {
        IdleKeeps(s, due, ask, own, sendable);
      }
    case Answered(reply) =>
      if s.wire.Some? && InSession(s) {
        OkKeeps(s, reply);
      }
    case Failed(refused) =>
      if s.wire.Some? && InSession(s) {
        ErrKeeps(s, refused);
      }
    case _ =>
  }

  // ---- Runs ----

  predicate Path(ss: seq<Panel>, es: seq<Event>) {
    |ss| == |es| + 1 && forall i :: 0 <= i < |es| ==> ss[i + 1] == Next(ss[i], es[i])
  }

  lemma PathStep(ss: seq<Panel>, es: seq<Event>, i: nat)
    requires Path(ss, es) && i < |es|
    ensures |ss| == |es| + 1 && ss[i + 1] == Next(ss[i], es[i])
  {
  }

  predicate Fresh(s: Panel) {
    s.role == Away && s.queue == [] && !s.bandOpen && !s.probe && !s.asking && s.wire == None && !s.owes
  }

  // At every point of every run the queue, read from where the session stands, is a legal word that
  // ends where the next submission is judged from.
  lemma {:induction false} QueueIsLegal(ss: seq<Panel>, es: seq<Event>, i: nat)
    requires Path(ss, es) && Fresh(ss[0]) && i < |ss|
    ensures Inv(ss[i])
    ensures Walk(ss[i].queue, Inside(ss[i])) == Some(ss[i].bandOpen)
  {
    hide Next;
    if i > 0 {
      QueueIsLegal(ss, es, i - 1);
      StepKeeps(ss[i - 1], es[i - 1]);
    }
  }

  // A card command leaves the queue only into an open session of its own band, never during a
  // probe nobody has adopted, and goes on the wire next.
  lemma {:induction false} CardsStayInBand(ss: seq<Panel>, es: seq<Event>, i: nat, c: Command)
    requires Path(ss, es) && Fresh(ss[0]) && i < |es| && c.kind == Card
    requires |ss| == |es| + 1 && ss[i + 1].wire == Some(App(c)) && ss[i].wire == None
    ensures var s, t := ss[i], ss[i + 1];
            && t.role == Session && t.stage == Xmit && Inside(t) && !t.probe
            && s.queue != [] && (s.queue == [c] + t.queue || (s.probe && s.queue[0].kind == Start && s.queue[1..] == [c] + t.queue))
  {
    hide Next, Inv, Path;
    QueueIsLegal(ss, es, i);
    QueueIsLegal(ss, es, i + 1);
    PathStep(ss, es, i);
    CardTaken(ss[i], es[i], c);
  }

  lemma CardTaken(s: Panel, e: Event, c: Command)
    requires c.kind == Card && s.wire == None && Inv(s) && Inv(Next(s, e)) && Next(s, e).wire == Some(App(c))
    ensures var t := Next(s, e);
            && t.role == Session && t.stage == Xmit && Inside(t) && !t.probe
            && s.queue != [] && (s.queue == [c] + t.queue || (s.probe && s.queue[0].kind == Start && s.queue[1..] == [c] + t.queue))
  {
    hide IdleXmit, FlushBand, Walk, Admit;
    assert e.Idle?;
    var Idle(due, ask, own, sendable) := e;
    if s.role == Session && s.stage == Xmit {
      XmitTakesHead(s, due, ask, own, sendable, c);
    }
  }

  lemma XmitTakesHead(s: Panel, due: bool, ask: bool, own: bool, sendable: bool, c: Command)
    requires s.wire == None && IdleXmit(s, due, ask, own, sendable).wire == Some(App(c))
    decreases |s.queue|
    ensures var t := IdleXmit(s, due, ask, own, sendable);
            s.queue != [] && (s.queue == [c] + t.queue || (s.probe && s.queue[0].kind == Start && s.queue[1..] == [c] + t.queue))
  {
    if s.queue != [] && s.probe && s.queue[0].kind == Start {
      XmitTakesHead(Adopt(s), due, ask, own, sendable, c);
    }
  }

  lemma {:induction false} BandSplit(q: seq<Command>)
    ensures AfterBand(q) == q[BandLen(q)..]
  {
    if q != [] && q[0].kind != Stop {
      BandSplit(q[1..]);
    }
  }

  // What closing leaves of a panel.
  predicate Left(s: Panel, t: Panel) {
    && t.role == Online && t.failed == s.failed
    && t.queue == (if !s.probe && s.stopPending then s.queue[BandLen(s.queue)..] else s.queue)
    && t.told == s.told + (if s.probe then (if s.failed then [ScanSuspended] else [])
                           else [if s.failed then SessionFailed else Closed])
  }

  lemma CloseLeaves(s: Panel)
    ensures Left(s, Close(s))
  {
    BandSplit(s.queue);
    assert AfterBand(s.queue) + [] == AfterBand(s.queue);
    assert s.told + [] == s.told;
  }

  // When a session ends the queue loses what its STOP had not yet claimed of the band, and nothing
  // else; the application hears of a session it opened, and of a probe only that it was refused.
  lemma SessionEnds(s: Panel, e: Event)
    requires Inv(s) && InSession(s) && !InSession(Next(s, e))
    ensures var t := Next(s, e);
            && t.role == Online && t.queue == (if s.stopPending then s.queue[BandLen(s.queue)..] else s.queue)
            && t.told == s.told + (if s.probe then (if t.failed then [ScanSuspended] else [])
                                   else [if t.failed then SessionFailed else Closed])
  {
    hide Walk, IdleStep, BandLen, Close;
    if e.Idle? && s.wire == None {
      IdleKeepsSession(s, e.due, e.ask, e.own, e.sendable);
    }
    forall p: Panel ensures Left(p, Close(p)) {
      CloseLeaves(p);
    }
  }

  lemma IdleKeepsSession(s: Panel, due: bool, ask: bool, own: bool, sendable: bool)
    requires Inv(s) && InSession(s) && s.wire == None
    ensures InSession(IdleStep(s, due, ask, own, sendable))
  {
    hide Walk, IdleXmit;
    if s.role == Session && s.stage == Xmit {
      IdleXmitKeeps(s, due, ask, own, sendable);
    }
  }

  // Did the reader answer a mode-set(01) with an XRD that says nothing about its mode?
  predicate Vague(s: Panel, e: Event) {
    e == Answered(ReplyOther) && s.wire == Some(ModeOn)
  }

  // Unless such an answer came in, a panel back ONLINE never leaves a reader it asked into mode 01
  // unattended: it has asked it back to mode 00, or been told it is in some other mode.
  lemma {:induction false} ModeTakenBack(ss: seq<Panel>, es: seq<Event>, i: nat)
    requires Path(ss, es) && Fresh(ss[0]) && i < |ss|
    requires forall k :: 0 <= k < i ==> !Vague(ss[k], es[k])
    ensures !InSession(ss[i]) ==> !ss[i].owes
  {
    if i > 0 {
      ModeTakenBack(ss, es, i - 1);
      QueueIsLegal(ss, es, i - 1);
      DebtStep(ss[i - 1], es[i - 1]);
    }
  }

  lemma DebtStep(s: Panel, e: Event)
    requires Inv(s) && (!InSession(s) ==> !s.owes) && !Vague(s, e)
    ensures !InSession(Next(s, e)) ==> !Next(s, e).owes
  {
    hide Walk, IdleStep, TrsOk, TrsErr;
    match e
    case Idle(due, ask, own, sendable) =>
      if s.wire == None {
        IdlePays(s, due, ask, own, sendable);
      }
    case Answered(reply) =>
      if s.wire.Some? && InSession(s) {
        OkPays(s, reply);
      }
    case Failed(refused) =>
      if s.wire.Some? && InSession(s) {
        ErrPays(s, refused);
      }
    case _ =>
  }

  lemma IdlePays(s: Panel, due: bool, ask: bool, own: bool, sendable: bool)
    requires Inv(s) && (!InSession(s) ==> !s.owes) && s.wire == None
    ensures var t := IdleStep(s, due, ask, own, sendable); !InSession(t) ==> !t.owes
  {
    hide Walk, IdleXmit;
    if s.role == Session && s.stage == Xmit {
      IdleXmitKeeps(s, due, ask, own, sendable);
    }
  }

  lemma OkPays(s: Panel, reply: Reply)
    requires Inv(s) && s.wire.Some? && InSession(s) && (s.wire == Some(ModeOn) ==> reply != ReplyOther)
    ensures !InSession(TrsOk(s, reply)) ==> !TrsOk(s, reply).owes
  {
    hide Walk, AfterBand;
  }

  lemma ErrPays(s: Panel, refused: bool)
    requires Inv(s) && s.wire.Some? && InSession(s)
    ensures !InSession(TrsErr(s, refused)) ==> !TrsErr(s, refused).owes
  {
    hide Walk, AfterBand;
  }

  // ... and such an answer does leave it unattended, every time.
  lemma VagueAnswerLeavesMode(s: Panel, reply: Reply)
    requires Inv(s) && s.wire == Some(ModeOn) && s.owes
    ensures var t := Next(s, Answered(reply)); t.role == Online && t.owes <==> reply == ReplyOther
  {
    hide Walk, AfterBand;
  }

  // A session whose mode-set failed is still announced as opened: the announcement hangs on leaving
  // TRS_SETUP, and the error path leaves it for TRS_RUN.
  lemma OpenedWithoutMode01(s: Panel, e: Event)
    requires Inv(s) && s.role == Setup && !s.probe && s.wire == Some(ModeOn) && (e.Answered? || e.Failed?)
    ensures var t := Next(s, e);
            t.told == s.told + [Opened] && t.mode != 1 <==> e.Failed?
  {
    hide Walk, AfterBand;
    assert (s.told + [SessionFailed])[|s.told|] == SessionFailed && (s.told + [Opened])[|s.told|] == Opened;
  }

  // ---- Winding down ----

  predicate Winding(s: Panel) { InSession(s) && (s.stage == DisconnectCard || s.stage == Teardown) }

  predicate Turn(s: Panel, e: Event) {
    if s.wire == None then e.Idle? else e.Answered? || e.Failed?
  }

  function TurnsLeft(s: Panel): nat {
    if !Winding(s) then 0
    else (if s.stage == DisconnectCard then 3 else 1) + (if s.wire == None then 1 else 0)
  }

  function SendsLeft(s: Panel): nat {
    if !Winding(s) then 0
    else (if s.stage == DisconnectCard then 1 else 0) + (if s.wire == None then 1 else 0)
  }

  function Count(ss: seq<Panel>, es: seq<Event>, sends: bool): nat
    requires |ss| == |es| + 1
  {
    if es == [] then 0
    else
      (if Turn(ss[0], es[0]) && (!sends || ss[0].wire == None) then 1 else 0) + Count(ss[1..], es[1..], sends)
  }

  // Once a session has had its STOP or failed, two commands of the library's own and four passes
  // with news bring the panel back ONLINE, whatever the reader answers.
  lemma {:induction false} WindsDown(ss: seq<Panel>, es: seq<Event>)
    requires Path(ss, es) && Inv(ss[0]) && forall i :: 0 <= i < |es| ==> Winding(ss[i])
    ensures Count(ss, es, false) <= TurnsLeft(ss[0]) <= 4
    ensures Count(ss, es, true) <= SendsLeft(ss[0]) <= 2
    ensures Winding(ss[0]) && Count(ss, es, false) == TurnsLeft(ss[0]) ==> ss[|es|].role == Online
    decreases |es|
  {
    hide Walk, AfterBand, Inv;
    if es != [] {
      StepKeeps(ss[0], es[0]);
      WindingStep(ss[0], es[0]);
      assert Path(ss[1..], es[1..]);
      WindsDown(ss[1..], es[1..]);
      if |es| > 1 {
        assert Winding(ss[1]);
      }
    }
  }

  lemma WindingStep(s: Panel, e: Event)
    requires Inv(s) && Winding(s)
    ensures var t := Next(s, e);
            && (Winding(t) || t.role == Online)
            && TurnsLeft(t) + (if Turn(s, e) then 1 else 0) == TurnsLeft(s)
            && SendsLeft(t) + (if Turn(s, e) && s.wire == None then 1 else 0) <= SendsLeft(s)
  {
    hide Walk, AfterBand;
  }

  // Commands that go out under the one id CMD_XWR.
  predicate IsXwr(w: Sent) {
    w in {ModeOn, ModeOff, Terminate} || (w.App? && w.c.kind == Card)
  }

  // A card command or mode-set that gets no usable answer does not take the panel off the link: the
  // next thing it sends is mode-set(00), under the same id (LinkAbandon says what the device makes of
  // it).
  lemma FailureGoesOn(ss: seq<Panel>, es: seq<Event>, i: nat, refused: bool, due: bool, ask: bool, own: bool, sendable: bool)
    requires Path(ss, es) && Fresh(ss[0]) && i < |ss|
    requires InSession(ss[i]) && ss[i].wire.Some? && IsXwr(ss[i].wire.value) && ss[i].wire != Some(ModeOff)
    ensures var t := Next(ss[i], Failed(refused));
            && t.role == Session && t.wire == None
            && Next(t, Idle(due, ask, own, sendable)).wire == Some(ModeOff) && IsXwr(ModeOff)
  {
    hide Path, Fresh, Walk;
    QueueIsLegal(ss, es, i);
  }
}
