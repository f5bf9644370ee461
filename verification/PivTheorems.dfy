// A smartcard operation from end to end: every fragment is built, framed, checked and decoded as a
// packet of an established link.
module PivTheorems {
  import opened Bytes
  import opened Packet
  import opened Fragments
  import opened Multipart
  import opened Notices
  import opened Piv
  import opened PivFragments

  function CommandId(f: Family): byte {
    match f
    case PivData => 0xA3
    case GenAuth => 0xA4
    case CrAuth => 0xA5
  }

  function ReplyId(f: Family): byte {
    match f
    case PivData => 0x80
    case GenAuth => 0x81
    case CrAuth => 0x82
  }

  function FamilyOf(id: byte): Option<Family> {
    if id == 0xA3 then Some(PivData) else if id == 0xA4 then Some(GenAuth) else if id == 0xA5 then Some(CrAuth) else None
  }

  // Where a leg stands: the link, both engines, and what an application was handed.
  datatype Leg<T> = Leg(x: Ends, cp: Piv, pd: Piv, got: Option<T>)

  ghost predicate LegReady(a: Algorithms, x: Ends, cp: Piv, pd: Piv) {
    a.Valid() && x.Valid() && CpFit(cp) && PdFit(pd)
  }

  // ---- Command leg ----

  // At most n packets, each acknowledged before the next. One that cannot be built fails its
  // exchange, and the panel aborts its operations on the way to OFFLINE. The last one is not
  // acknowledged yet.
  function SendCommand(a: Algorithms, x: Ends, cp: Piv, pd: Piv, n: nat): (leg: Leg<Request>)
    requires LegReady(a, x, cp, pd)
    ensures LegReady(a, leg.x, leg.cp, leg.pd)
    decreases n
  {
    if n == 0 then Leg(x, cp, pd, None)
    else
      match BuildCommand(cp, Room(x.cp, x.cpSize))
      case None => Leg(x, Abort(cp), pd, None)
      case Some((cp1, frame)) =>
        match CrossCommand(a, x, Msg(CommandId(cp.family), frame))
        case None => Leg(x, Abort(cp1), pd, None)
        case Some((x1, m)) =>
          if FamilyOf(m.id) == None then Leg(x1, cp1, pd, None)
          else
            var (pd1, taken) := TakeCommand(pd, FamilyOf(m.id).value, m.data);
            match taken
            case Nak => Leg(x1, cp1, pd1, None)
            case Deliver(r) => Leg(x1, cp1, pd1, Some(r))
            case Ack =>
              match CrossReply(a, x1, ACK)
              case None => Leg(x1, Abort(cp1), pd1, None)
              case Some((x2, _)) => SendCommand(a, x2, Acked(cp1), pd1, n - 1)
  }

  // Data bytes of the first packet of a command, and of a reply: no later one is longer.
  function FirstCommand(e: End, size: int, r: Request): int {
    if r.f == PivData then PIVDATA_LEN else Min(Fragments.Fragment(e, size), 8 + |r.challenge|)
  }

  function FirstReply(e: End, size: int, d: seq<byte>): int {
    Min(Fragments.Fragment(e, size), 6 + |d|)
  }

  // What a caller can check beforehand: the first packet fits with its padding.
  predicate CommandFits(x: Ends, r: Request) {
    var n := FirstCommand(x.cp, x.cpSize, r);
    n >= 0 && FrameLen(x.cp, n) <= x.cpSize
  }

  predicate ReplyFits(x: Ends, d: seq<byte>) {
    var e := x.pd.(mark := x.cp.mark);
    var n := FirstReply(e, x.pdSize, d);
    n >= 0 && FrameLen(e, n) <= x.pdSize
  }

  lemma SameFits(x: Ends, y: Ends, r: Request, d: seq<byte>)
    requires SameEnds(x, y)
    ensures CommandFits(y, r) <==> CommandFits(x, r)
    ensures ReplyFits(y, d) <==> ReplyFits(x, d)
  {
    hide FrameLen;
    var ex, ey := x.pd.(mark := x.cp.mark), y.pd.(mark := y.cp.mark);
    SameLen(x.cp, y.cp, FirstCommand(x.cp, x.cpSize, r));
    SameLen(ex, ey, FirstReply(ex, x.pdSize, d));
  }

  // No packet of a command is longer than its first.
  lemma CommandWithin(x: Ends, r: Request, n: nat, rest: nat)
    requires CommandFits(x, r) && r.f != PivData && rest <= 8 + |r.challenge|
    requires 0 < n == Min(Fragments.Fragment(x.cp, x.cpSize), rest)
    ensures FrameLen(x.cp, n) <= x.cpSize
  {
    hide FrameLen;
    LongerIsLonger(x.cp, n, FirstCommand(x.cp, x.cpSize, r));
  }

  lemma ReplyWithin(x: Ends, d: seq<byte>, n: nat, rest: nat)
    requires ReplyFits(x, d) && rest <= 6 + |d| && x.pd.mark == x.cp.mark
    requires 0 < n == Min(Fragments.Fragment(x.pd, x.pdSize), rest)
    ensures FrameLen(x.pd, n) <= x.pdSize
  {
    hide FrameLen;
    assert x.pd.(mark := x.cp.mark) == x.pd;
    LongerIsLonger(x.pd, n, FirstReply(x.pd, x.pdSize, d));
  }

  // A challenge whose first packet fits reaches the device's application as it was submitted, once, at
  // the last fragment.
  lemma {:induction false} CommandArrives(a: Algorithms, x: Ends, cp: Piv, pd: Piv, r: Request, n: nat)
    requires a.Valid() && Coupled(x) && Sending(cp, r) && Taking(pd, cp, r) && cp.mp.offset < cp.mp.total
    requires n >= cp.mp.total - cp.mp.offset && CommandFits(x, r)
    ensures LegReady(a, x, cp, pd)
    ensures var leg := SendCommand(a, x, cp, pd, n);
            && leg.got == Some(r) && Sending(leg.cp, r) && leg.cp.mp.offset + leg.cp.mp.lastLen == leg.cp.mp.total
            && Ready(leg.pd, r) && Moved(x, leg.x)
    decreases n
  {
    hide BuildCommand, TakeCommand, Acked, Sending, Taking, CrossCommand, CrossReply, Coupled, FrameLen, CommandFits;
    hide Fragments.Fragment, Room, Ready, SameEnds;
    SendingValid(cp, pd, r);
    CoupledFacts(x);
    CommandRoom(x.cp, x.cpSize);
    CommandFragment(cp, pd, r, Room(x.cp, x.cpSize));
    var (cp1, frame) := BuildCommand(cp, Room(x.cp, x.cpSize)).value;
    CommandWithin(x, r, |frame|, (if cp.mp.offset == 0 then 8 else 6) + cp.mp.total - cp.mp.offset);
    var m := Msg(CommandId(r.f), frame);
    CommandMoves(a, x, m);
    var x1 := CrossCommand(a, x, m).value.0;
    var (pd1, taken) := TakeCommand(pd, r.f, frame);
    SendingValid(cp1, pd1, r);
    if taken == Ack {
      SendingValid(Acked(cp1), pd1, r);
      CoupledFacts(x1);
      ShortFits(x1.pd, x1.pdSize);
      ReplyMoves(a, x1, ACK);
      var x2 := CrossReply(a, x1, ACK).value.0;
      MovedOn(x, x1, x2);
      SameFits(x, x2, r, []);
      CommandArrives(a, x2, Acked(cp1), pd1, r, n - 1);
      MovedOn(x, x2, SendCommand(a, x2, Acked(cp1), pd1, n - 1).x);
    }
  }

  // One whose first packet does not fit goes nowhere: the operation is aborted at the panel.
  lemma CommandRefused(a: Algorithms, x: Ends, cp: Piv, pd: Piv, r: Request, n: nat)
    requires a.Valid() && Coupled(x) && Sending(cp, r) && Taking(pd, cp, r) && cp.mp.offset == 0
    requires n > 0 && !CommandFits(x, r)
    ensures LegReady(a, x, cp, pd)
    ensures var leg := SendCommand(a, x, cp, pd, n);
            leg.got == None && leg.cp.phase == Idle && Closed(leg.cp.mp.notices, Aborted) && leg.pd == pd
  {
    hide BuildCommand, TakeCommand, Acked, Sending, Taking, CrossCommand, CrossReply, Coupled, FrameLen, Abort;
    SendingFacts(cp, pd, r);
    CoupledFacts(x);
    CommandRoom(x.cp, x.cpSize);
    CommandFragment(cp, pd, r, Room(x.cp, x.cpSize));
    var (cp1, frame) := BuildCommand(cp, Room(x.cp, x.cpSize)).value;
    CommandMoves(a, x, Msg(CommandId(r.f), frame));
    SendingFacts(cp1, pd, r);
    AbortEnds(cp1);
  }

  lemma SendingFacts(cp: Piv, pd: Piv, r: Request)
    requires Sending(cp, r)
    ensures CpFit(cp) && cp.phase == Command && cp.family == r.f != PivData && Active(cp.mp)
    ensures cp.mp.total == |r.challenge| && (cp.mp.offset == 0 ==> cp.mp.offset < cp.mp.total)
    ensures Taking(pd, cp, r) ==> PdFit(pd)
  {
  }

  // ---- Reply leg ----

  // Polls the device has nothing to answer yet.
  function IdlePolls(a: Algorithms, x: Ends, n: nat): (r: Option<Ends>)
    requires a.Valid() && x.Valid()
    ensures r.Some? ==> r.value.Valid()
    decreases n
  {
    hide Cross;
    if n == 0 then Some(x)
    else
      match CrossCommand(a, x, POLL)
      case None => None
      case Some((x1, _)) =>
        match CrossReply(a, x1, ACK)
        case None => None
        case Some((x2, _)) => IdlePolls(a, x2, n - 1)
  }

  // The last command packet acknowledged, and idle polls after it.
  function AfterAck(a: Algorithms, x: Ends, idle: nat): (r: Option<Ends>)
    requires a.Valid() && x.Valid()
    ensures r.Some? ==> r.value.Valid()
  {
    match CrossReply(a, x, ACK)
    case None => None
    case Some((x1, _)) => IdlePolls(a, x1, idle)
  }

  // What the next reply fragment answers: the command still waiting for its reply, or a poll.
  function Ask(a: Algorithms, x: Ends, answers: bool): (r: Option<Ends>)
    requires a.Valid() && x.Valid()
    ensures r.Some? ==> r.value.Valid()
  {
    if answers then Some(x)
    else
      match CrossCommand(a, x, POLL)
      case None => None
      case Some((x1, _)) => Some(x1)
  }

  // At most n fragments. A reply that cannot be built is no reply, or a NAK: the panel's exchange
  // fails and it aborts.
  function SendReply(a: Algorithms, x: Ends, cp: Piv, pd: Piv, reply: Option<seq<byte>>, answers: bool, n: nat)
    : (leg: Leg<seq<byte>>)
    requires LegReady(a, x, cp, pd)
    ensures LegReady(a, leg.x, leg.cp, leg.pd)
    decreases n
  {
    if n == 0 then Leg(x, cp, pd, None)
    else
      match Ask(a, x, answers)
      case None => Leg(x, Abort(cp), pd, None)
      case Some(x1) =>
        match BuildReply(pd, reply, Room(x1.pd, x1.pdSize))
        case (pd1, None) => Leg(x1, Abort(cp), pd1, None)
        case (pd1, Some(frame)) =>
          match CrossReply(a, x1, Msg(ReplyId(pd.family), frame))
          case None => Leg(x1, Abort(cp), pd1, None)
          case Some((x2, m)) =>
            if m.id != ReplyId(cp.family) then Leg(x2, cp, pd1, None)
            else
              var (cp1, got) := TakeReply(cp, m.data, answers);
              if got.Some? then Leg(x2, cp1, pd1, got) else SendReply(a, x2, cp1, pd1, None, false, n - 1)
  }

  lemma AskMoves(a: Algorithms, x: Ends, answers: bool)
    requires a.Valid() && Coupled(x) && (answers ==> x.pd.mark == x.cp.mark)
    ensures Ask(a, x, answers).Some? && Moved(x, Ask(a, x, answers).value)
  {
    hide CrossCommand;
    CoupledFacts(x);
    ShortFits(x.cp, x.cpSize);
    if !answers {
      CommandMoves(a, x, POLL);
    }
  }

  // A reply whose first packet fits comes back as it was given, once, and both ends are idle again.
  lemma {:induction false} ReplyArrives(a: Algorithms, x: Ends, cp: Piv, pd: Piv, reply: Option<seq<byte>>, answers: bool,
                                        d: seq<byte>, n: nat)
    requires a.Valid() && Coupled(x) && (answers ==> x.pd.mark == x.cp.mark)
    requires Awaiting(cp, answers) && Replying(cp, pd, reply, d) && Good(d) && (answers ==> reply.Some?)
    requires reply == None ==> pd.mp.offset < |d|
    requires n >= (if reply == None then |d| - pd.mp.offset else |d|) && ReplyFits(x, d)
    ensures LegReady(a, x, cp, pd)
    ensures var leg := SendReply(a, x, cp, pd, reply, answers, n);
            leg.got == Some(d) && Ended(leg.cp, leg.pd)
    decreases n
  {
    hide BuildReply, TakeReply, Awaiting, Replying, Ended, Coupled, CrossReply, FrameLen, Ask, ReplyFits;
    hide Fragments.Fragment, Room, SameEnds;
    CoupledFacts(x);
    AwaitingValid(cp, pd, reply, answers, d);
    AskMoves(a, x, answers);
    var x1 := Ask(a, x, answers).value;
    CoupledFacts(x1);
    SameFits(x, x1, Data(GenAuth, 0, 0, []), d);
    ReplyRoom(x1.pd, x1.pdSize);
    SameFamily(cp, pd, reply, d);
    ReplyFragment(cp, pd, reply, answers, d, Room(x1.pd, x1.pdSize));
    var (pd1, built) := BuildReply(pd, reply, Room(x1.pd, x1.pdSize));
    var frame := built.value;
    ReplyWithin(x1, d, |frame|, 6 + |d| - (if reply == None then pd.mp.offset else 0));
    var m := Msg(ReplyId(pd.family), frame);
    ReplyMoves(a, x1, m);
    var (cp1, got) := TakeReply(cp, frame, answers);
    if got == None {
      var x2 := CrossReply(a, x1, m).value.0;
      SameFits(x1, x2, Data(GenAuth, 0, 0, []), d);
      AwaitingValid(cp1, pd1, None, false, d);
      ReplyArrives(a, x2, cp1, pd1, None, false, d, n - 1);
    }
  }

  lemma SameFamily(cp: Piv, pd: Piv, reply: Option<seq<byte>>, d: seq<byte>)
    requires Replying(cp, pd, reply, d)
    ensures cp.family == pd.family
  {
  }

  // One whose first packet does not fit never leaves the device: aborted at the panel.
  lemma ReplyRefused(a: Algorithms, x: Ends, cp: Piv, pd: Piv, answers: bool, d: seq<byte>, n: nat)
    requires a.Valid() && Coupled(x) && (answers ==> x.pd.mark == x.cp.mark)
    requires Awaiting(cp, answers) && Replying(cp, pd, Some(d), d) && Good(d) && n > 0 && !ReplyFits(x, d)
    ensures LegReady(a, x, cp, pd)
    ensures var leg := SendReply(a, x, cp, pd, Some(d), answers, n);
            leg.got == None && leg.cp.phase == Idle && Closed(leg.cp.mp.notices, Aborted)
  {
    hide BuildReply, TakeReply, Replying, Ended, Coupled, CrossReply, FrameLen, Ask, Abort, SameEnds;
    CoupledFacts(x);
    AwaitingValid(cp, pd, Some(d), answers, d);
    AskMoves(a, x, answers);
    var x1 := Ask(a, x, answers).value;
    CoupledFacts(x1);
    SameFits(x, x1, Data(GenAuth, 0, 0, []), d);
    ReplyRoom(x1.pd, x1.pdSize);
    ReplyFragment(cp, pd, Some(d), answers, d, Room(x1.pd, x1.pdSize));
    assert x1.pd.(mark := x1.cp.mark) == x1.pd;
    ReplyMoves(a, x1, Msg(ReplyId(pd.family), BuildReply(pd, Some(d), Room(x1.pd, x1.pdSize)).1.value));
    AbortEnds(cp);
  }

  lemma {:induction false} IdlePollsMove(a: Algorithms, x: Ends, n: nat)
    requires a.Valid() && Coupled(x) && x.pd.mark == x.cp.mark
    ensures IdlePolls(a, x, n).Some? && Moved(x, IdlePolls(a, x, n).value)
    decreases n
  {
    hide CrossCommand, CrossReply, FrameLen, Coupled;
    if n > 0 {
      CoupledFacts(x);
      ShortFits(x.cp, x.cpSize);
      CommandMoves(a, x, POLL);
      var x1 := CrossCommand(a, x, POLL).value.0;
      CoupledFacts(x1);
      ShortFits(x1.pd, x1.pdSize);
      ReplyMoves(a, x1, ACK);
      var x2 := CrossReply(a, x1, ACK).value.0;
      hide SameEnds;
      MovedOn(x, x1, x2);
      IdlePollsMove(a, x2, n - 1);
      MovedOn(x, x2, IdlePolls(a, x2, n - 1).value);
    }
  }

  // ---- The whole operation ----

  // Both engines at the end, and what each application was handed.
  datatype Ending = Ending(cp: Piv, pd: Piv, asked: Option<Request>, answered: Option<seq<byte>>)

  // The panel submits r; the device's application answers d, with the reply to the last command
  // packet (inline), or on a poll after idle ones it had nothing for.
  function Operation(a: Algorithms, x: Ends, p0: Piv, pd: Piv, r: Request, d: seq<byte>, inline: bool, idle: nat): Ending
    requires LegReady(a, x, p0, pd)
    requires Submit(p0, r).Some? && CpFit(Submit(p0, r).value)
  {
    var leg := SendCommand(a, x, Submit(p0, r).value, pd, |r.challenge|);
    if leg.got == None then Ending(leg.cp, leg.pd, None, None)
    else if inline then
      var back := SendReply(a, leg.x, leg.cp, leg.pd, Some(d), true, |d|);
      Ending(back.cp, back.pd, leg.got, back.got)
    else
      match AfterAck(a, leg.x, idle)
      case None => Ending(Abort(Acked(leg.cp)), leg.pd, leg.got, None)
      case Some(x2) =>
        var back := SendReply(a, x2, Acked(leg.cp), leg.pd, Some(d), false, |d|);
        Ending(back.cp, back.pd, leg.got, back.got)
  }

  // A request of any family and length and a reply of any length, on an established link with any
  // packet sizes, with or without mark, CRC and session: the device's application is handed the
  // request and the panel's the reply exactly when the first packet of each fits, and then both ends
  // are idle and the end is told; otherwise the panel tells that the operation was aborted.
  lemma ChallengeAndResponse(a: Algorithms, x: Ends, p0: Piv, pd: Piv, r: Request, d: seq<byte>, inline: bool, idle: nat)
    requires a.Valid() && Coupled(x) && p0.phase == Idle && |p0.store| == |pd.store| == DATA_MAX && PdFit(pd)
    requires r.Typed() && (r.f != PivData ==> Good(r.challenge)) && Good(d)
    ensures LegReady(a, x, p0, pd) && Submit(p0, r).Some? && CpFit(Submit(p0, r).value)
    ensures var e := Operation(a, x, p0, pd, r, d, inline, idle);
            && e.asked == (if CommandFits(x, r) then Some(r) else None)
            && e.answered == (if CommandFits(x, r) && ReplyFits(x, d) then Some(d) else None)
            && (if e.answered.Some? then Ended(e.cp, e.pd) else e.cp.phase == Idle && Closed(e.cp.mp.notices, Aborted))
  {
    hide Submit, SendCommand, SendReply, Coupled, FrameLen, Acked, Abort, Sending, Taking, Awaiting, Replying, Ended, Ready;
    CoupledFacts(x);
    if r.f == PivData {
      PivDataOut(a, x, p0, pd, r, d);
    } else {
      SubmittedSends(p0, r, pd);
      var cp := Submit(p0, r).value;
      SendingFacts(cp, pd, r);
      if CommandFits(x, r) {
        CommandArrives(a, x, cp, pd, r, |r.challenge|);
        var leg := SendCommand(a, x, cp, pd, |r.challenge|);
        CommandOut(leg.cp, leg.pd, r, d);
      } else {
        CommandRefused(a, x, cp, pd, r, |r.challenge|);
      }
    }
    if CommandFits(x, r) {
      var leg := SendCommand(a, x, Submit(p0, r).value, pd, |r.challenge|);
      Answered(a, x, leg, r, d, inline, idle);
    }
  }

  lemma PivDataOut(a: Algorithms, x: Ends, p0: Piv, pd: Piv, r: Request, d: seq<byte>)
    requires a.Valid() && Coupled(x) && p0.phase == Idle && |p0.store| == |pd.store| == DATA_MAX && PdFit(pd)
    requires r.Typed() && r.f == PivData && Good(d)
    ensures Submit(p0, r).Some? && CpFit(Submit(p0, r).value) && x.Valid()
    ensures CommandFits(x, r)
    ensures var leg := SendCommand(a, x, Submit(p0, r).value, pd, |r.challenge|);
            && leg.got == Some(r) && Moved(x, leg.x)
            && Awaiting(leg.cp, true) && Awaiting(Acked(leg.cp), false)
            && Replying(leg.cp, leg.pd, Some(d), d) && Replying(Acked(leg.cp), leg.pd, Some(d), d)
  {
    hide Submit, BuildCommand, TakeCommand, Acked, Awaiting, Replying, CrossCommand, CrossReply, Coupled;
    CoupledFacts(x);
    CommandRoom(x.cp, x.cpSize);
    PivDataCrosses(p0, pd, r, d, Room(x.cp, x.cpSize));
    ShortFits(x.cp, x.cpSize);
    CommandMoves(a, x, Msg(CommandId(PivData), r.challenge));
  }

  // From a command handed over: the reply comes back, or its first packet cannot be built.
  lemma Answered(a: Algorithms, x: Ends, leg: Leg<Request>, r: Request, d: seq<byte>, inline: bool, idle: nat)
    requires a.Valid() && Moved(x, leg.x) && leg.got == Some(r) && Good(d) && LegReady(a, leg.x, leg.cp, leg.pd)
    requires Awaiting(leg.cp, true) && Awaiting(Acked(leg.cp), false)
    requires Replying(leg.cp, leg.pd, Some(d), d) && Replying(Acked(leg.cp), leg.pd, Some(d), d)
    ensures var x2 := if inline then Some(leg.x) else AfterAck(a, leg.x, idle);
            && x2.Some? && x2.value.Valid()
            && var back := SendReply(a, x2.value, if inline then leg.cp else Acked(leg.cp), leg.pd, Some(d), inline, |d|);
            && back.got == (if ReplyFits(x, d) then Some(d) else None)
            && (if back.got.Some? then Ended(back.cp, back.pd) else back.cp.phase == Idle && Closed(back.cp.mp.notices, Aborted))
  {
    hide SendReply, Coupled, FrameLen, Acked, Awaiting, Replying, Ended, CrossReply, CrossCommand;
    if !inline {
      CoupledFacts(leg.x);
      ShortFits(leg.x.pd, leg.x.pdSize);
      ReplyMoves(a, leg.x, ACK);
      IdlePollsMove(a, CrossReply(a, leg.x, ACK).value.0, idle);
    }
    var x2 := if inline then leg.x else AfterAck(a, leg.x, idle).value;
    SameFits(x, x2, r, d);
    var cp := if inline then leg.cp else Acked(leg.cp);
    if ReplyFits(x, d) {
      ReplyArrives(a, x2, cp, leg.pd, Some(d), inline, d, |d|);
    } else {
      ReplyRefused(a, x2, cp, leg.pd, inline, d, |d|);
    }
  }
}
