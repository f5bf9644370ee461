// osdp_pd_update of src/osdp_pd.c as it runs: receive and act on a command, or finish sending a reply
// the channel was not ready for, on fields updated in place.
module PdPhy {
  import opened Bytes
  import opened SecureChannel
  import opened Packet
  import opened Link

  class Device {
    const a: Algorithms
    const cfg: Config
    var sqn: int
    var session: Option<Session>
    var txBuf: seq<byte>
    var prebuilt: bool
    var cacheLen: nat
    var lastCmd: byte
    var cmdId: byte

    // What the last call put on the line, and the command the handler was run for.
    var sent: Option<seq<byte>>
    var ran: Option<Msg>

    ghost predicate Valid()
      reads this
    {
      a.Valid() && cfg.Valid() && -1 <= sqn <= 3
    }

    function State(): PdState
      reads this
    {
      PdState(sqn, session, txBuf, prebuilt, cacheLen, lastCmd, cmdId)
    }

    constructor (algorithms: Algorithms, config: Config)
      requires algorithms.Valid() && config.Valid()
      ensures Valid() && a == algorithms && cfg == config && State() == PdState(-1, None, [], false, 0, 0, 0)
    {
      a, cfg, sqn, session, txBuf, prebuilt, cacheLen, lastCmd, cmdId := algorithms, config, -1, None, [], false, 0, 0, 0;
      sent, ran := None, None;
    }

    // pd_error_reset
    method ErrorReset()
      modifies `session, `cacheLen, `prebuilt
      ensures State() == PdReset(old(State()))
    {
      session := None;
      cacheLen := 0;
      prebuilt := false;
    }

    // The send stage: pd_send_reply, and the sequence number once the reply is out.
    method SendReply(send: SendRc)
      requires Valid()
      modifies `sent, `prebuilt, `cacheLen, `lastCmd, `sqn
      ensures Valid()
      ensures var st := PdSend(old(State()), send, ran); State() == st.pd && sent == st.tx
    {
      sent := None;
      match send
      case NotReady =>
      case Broken => prebuilt := false;
      case Sent =>
        sent := Some(txBuf);
        prebuilt := false;
        cacheLen := |txBuf|;
        lastCmd := cmdId;
        sqn := NextSeq(sqn);
    }

    // pd_build_reply_packet
    method BuildReply(m: Msg, mark: bool) returns (ok: bool)
      requires Valid()
      modifies `txBuf, `prebuilt, `session
      ensures match Build(a, PdEnd(cfg, old(State()), mark), m, 0, cfg.pdMax)
              case None => !ok && State() == old(State())
              case Some((w, s)) => ok && State() == old(State()).(txBuf := w, prebuilt := true, session := s)
    {
      hide Build;
      var built := Build(a, PdEnd(cfg, State(), mark), m, 0, cfg.pdMax);
      ok := built.Some?;
      if ok {
        txBuf, session := built.value.0, built.value.1;
        prebuilt := true;
      }
    }

    // phy_check_packet on a framed packet: the sequence number, the cached reply and, on a restart, the
    // session move as the verdict is reached.
    method CheckPkt(pkt: seq<byte>, mark: bool) returns (c: Check)
      requires Valid() && |pkt| > HDR
      modifies `sqn, `cacheLen, `session
      ensures Valid() && c == CheckPacket(a, PdEnd(cfg, old(State()), mark), Cached(old(State())), pkt)
      ensures State() == Checked(old(State()), c)
    {
      hide Intact;
      var to, comp := pkt[1] % 0x80, SeqOf(pkt[4]);
      if !Intact(a, pkt) {
        return Reject(PktFmt);
      }
      if to != cfg.address && to != BROADCAST {
        return Reject(PktSkip);
      }
      if comp == 0 {
        session := None;
        sqn := -1;
        cacheLen := 0;
        return Pass(-1, false, true);
      }
      if comp == sqn {
        if cacheLen > 0 && HDR + ScbLen(pkt) < |pkt| && pkt[HDR + ScbLen(pkt)] == lastCmd {
          return Resend;
        }
        sqn := Rollback(sqn);
        cacheLen := 0;
        return Pass(sqn, false, false);
      }
      return if NextSeq(sqn) != comp then OutOfSequence(sqn, true) else Pass(sqn, true, false);
    }

    // osdp_phy_decode_packet: a bad MAC ends the session, and the cached reply with it.
    method DecodePkt(pkt: seq<byte>, mark: bool) returns (d: Decoded)
      requires Valid() && |pkt| > HDR && |pkt| >= HDR + CheckLen(pkt[4])
      modifies `session, `cacheLen
      ensures Valid() && d == Decode(a, PdEnd(cfg, old(State()), mark), pkt)
      ensures State() == match d
                         case DecodeNak(_, s) =>
                           old(State()).(session := s, cacheLen := if s == None then 0 else old(cacheLen))
                         case Payload(_, s) => old(State()).(session := s)
    {
      hide Decode;
      d := Decode(a, PdEnd(cfg, State(), mark), pkt);
      session := d.session;
      if d.DecodeNak? && session == None {
        cacheLen := 0;
      }
    }

    // pd_receive_and_process_command
    method Receive(w: seq<byte>, reply: Msg) returns (r: PdRx)
      requires Valid()
      modifies `sqn, `session, `prebuilt, `cacheLen, `cmdId
      ensures Valid() && r == PdReceive(a, cfg, old(State()), w, reply)
      ensures match r case Ignore(pd) => State() == pd case Repeat => State() == old(State()) case Answer(pd, _, _, _) => State() == pd
    {
      hide CheckPacket, Decode, ValidateHeader, Intact;
      match ValidateHeader(Pd, w, PACKET_BUF_SIZE) {
        case HdrErr(PktSkip) => return Ignore(State());
        case HdrErr(_) =>
          ErrorReset();
          return Ignore(State());
        case Frame(n, mark) =>
          if n != |w| {
            ErrorReset();
            return Ignore(State());
          }
          FrameHasCheck(a, cfg, State(), w, mark);
          r := Dispatch(w[MarkLen(mark)..], mark, reply);
      }
    }

    method Dispatch(pkt: seq<byte>, mark: bool, reply: Msg) returns (r: PdRx)
      requires Valid() && |pkt| > HDR
      requires Intact(a, pkt) ==> |pkt| >= HDR + CheckLen(pkt[4])
      modifies `sqn, `session, `prebuilt, `cacheLen, `cmdId
      ensures Valid() && r == Taken(a, cfg, old(State()), pkt, mark, reply)
      ensures match r case Ignore(pd) => State() == pd case Repeat => State() == old(State()) case Answer(pd, _, _, _) => State() == pd
    {
      hide CheckPacket, Decode, Intact;
      PassIntact(a, PdEnd(cfg, State(), mark), Cached(State()), pkt);
      var c := CheckPkt(pkt, mark);
      match c {
        case Reject(PktFmt) =>
          ErrorReset();
          return Ignore(State());
        case Resend => return Repeat;
        case OutOfSequence(_, _) => return Answer(State(), Msg(REPLY_NAK, [NAK_SEQ_NUM]), mark, None);
        case Pass(_, _, _) =>
          var d := DecodePkt(pkt, mark);
          if d.DecodeNak? {
            return Answer(State(), Msg(REPLY_NAK, [d.code]), mark, None);
          }
          if d.bytes == [] {
            ErrorReset();
            return Ignore(State());
          }
          cmdId := d.bytes[0];
          return Answer(State(), reply, mark, Some(Msg(d.bytes[0], d.bytes[1..])));
        case _ => return Ignore(State());
      }
    }

    method Update(send: SendRc, rx: Option<seq<byte>>, reply: Msg)
      requires Valid()
      modifies this
      ensures Valid()
      ensures var st := PdUpdate(a, cfg, old(State()), send, rx, reply);
              State() == st.pd && sent == st.tx && ran == st.ran
    {
      hide PdReceive, Build, PdSend, PdReset;
      sent, ran := None, None;
      if prebuilt {
        RanKept(State(), send);
        SendReply(send);
        return;
      }
      if rx == None {
        return;
      }
      var r := Receive(rx.value, reply);
      match r
      case Ignore(_) =>
      case Repeat =>
        if send == Sent && cacheLen <= |txBuf| {
          sent := Some(txBuf[..cacheLen]);
        }
      case Answer(_, m, mark, handled) =>
        ran := handled;
        var ok := BuildReply(m, mark);
        if ok {
          RanKept(State(), send);
          SendReply(send);
        } else {
          ErrorReset();
        }
    }
  }

  // A device after a verdict of phy_check_packet.
  function Checked(pd: PdState, c: Check): PdState {
    match c
    case Pass(sqn, keep, restart) =>
      pd.(sqn := sqn, cacheLen := if keep then pd.cacheLen else 0, session := if restart then None else pd.session)
    case _ => pd
  }

  // pd_receive_and_process_command from the framed packet on.
  function Taken(a: Algorithms, cfg: Config, pd: PdState, pkt: seq<byte>, mark: bool, reply: Msg): PdRx
    requires a.Valid() && cfg.Valid() && -1 <= pd.sqn <= 3 && |pkt| > HDR
    requires Intact(a, pkt) ==> |pkt| >= HDR + CheckLen(pkt[4])
  {
    match CheckPacket(a, PdEnd(cfg, pd, mark), Cached(pd), pkt)
    case Reject(PktFmt) => Ignore(PdReset(pd))
    case Reject(_) => Ignore(pd)
    case Busy => Ignore(pd)
    case Resend => Repeat
    case OutOfSequence(_, _) => Answer(pd, Msg(REPLY_NAK, [NAK_SEQ_NUM]), mark, None)
    case Pass(sqn, keep, restart) =>
      PassIntact(a, PdEnd(cfg, pd, mark), Cached(pd), pkt);
      var pd1 := Checked(pd, Pass(sqn, keep, restart));
      match Decode(a, PdEnd(cfg, pd1, mark), pkt)
      case DecodeNak(code, s) =>
        Answer(pd1.(session := s, cacheLen := if s == None then 0 else pd1.cacheLen), Msg(REPLY_NAK, [code]), mark, None)
      case Payload(p, s) =>
        if p == [] then Ignore(PdReset(pd1))
        else Answer(pd1.(session := s, cmdId := p[0]), reply, mark, Some(Msg(p[0], p[1..])))
  }

  lemma PassIntact(a: Algorithms, e: End, cached: Option<byte>, pkt: seq<byte>)
    requires a.Valid() && e.Valid() && |pkt| > HDR
    ensures CheckPacket(a, e, cached, pkt).Pass? ==> Intact(a, pkt)
    ensures e.role == Pd ==> match CheckPacket(a, e, cached, pkt) case Pass(s, _, _) => -1 <= s <= 3 case _ => true
  {
    hide Intact;
  }

  // A whole frame has room for its check bytes if they are right, and is taken as its packet is.
  lemma FrameHasCheck(a: Algorithms, cfg: Config, pd: PdState, w: seq<byte>, mark: bool)
    requires a.Valid() && cfg.Valid() && -1 <= pd.sqn <= 3 && ValidateHeader(Pd, w, PACKET_BUF_SIZE) == Frame(|w|, mark)
    ensures var pkt := w[MarkLen(mark)..];
            && |w| >= MarkLen(mark) && |pkt| > HDR && (Intact(a, pkt) ==> |pkt| >= HDR + CheckLen(pkt[4]))
            && forall reply: Msg :: PdReceive(a, cfg, pd, w, reply) == Taken(a, cfg, pd, pkt, mark, reply)
  {
    hide Decode, CheckPacket;
  }

  lemma RanKept(pd: PdState, send: SendRc)
    ensures forall ran: Option<Msg> :: PdSend(pd, send, ran).ran == ran
  {
  }
}
