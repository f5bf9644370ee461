// Both ends of the command/reply link as step functions: cp_phy_state_update of src/osdp_cp.c and
// osdp_pd_update of src/osdp_pd.c, exchanging whole packets.
module Link {
  import opened Bytes
  import opened SecureChannel
  import opened Packet

  const CMD_MAX_RETRIES := 8        // OSDP_CMD_MAX_RETRIES
  const CMD_RETRY_WAIT_MS := 800    // OSDP_CMD_RETRY_WAIT_MS
  const RESP_TOUT_MS := 200         // OSDP_RESP_TOUT_MS

  datatype Config = Config(
    address: nat, mark: bool, useCrc: bool, allowEmpty: bool, enforceSecure: bool,
    baudRate: nat, cpMax: int, pdMax: int)
  {
    predicate Valid() {
      && address < 0x7F && baudRate > 0
      && MINIMUM_PACKET_SIZE <= cpMax <= PACKET_BUF_SIZE
      && MINIMUM_PACKET_SIZE <= pdMax <= PACKET_BUF_SIZE
    }
  }

  // Return of the channel's send callback: all of it, not now, or broken.
  datatype SendRc = Sent | NotReady | Broken

  // ---- Control panel ----

  datatype Phase = Idle | SendCmd | SendCmdWait | ReplyWait | Wait | RetryCmd | Done | PhyErr

  // What cp_decode_response makes of a reply that reached it intact.
  datatype AppRc = AppOk | AppErr | AppRetry | AppGeneric | AppUnknown

  datatype CpRc = RcNone | RcDefer | RcInProg | RcGeneric

  datatype CpState = CpState(
    phase: Phase,
    sqn: int,                 // seq_number
    txSqn: int,               // phy_tx_seq
    retries: nat,             // phy_retry_count
    cmd: Msg,                 // the command being exchanged
    session: Option<Session>,
    buf: seq<byte>,           // packet_buf, finalized
    tstamp: nat,              // phy_tstamp
    waitMs: nat,
    respTimeoutMs: nat,
    linkReset: bool)          // CP_REQ_LINK_RESET pending

  function CpEnd(cfg: Config, cp: CpState): End {
    End(Cp, cfg.address, cfg.mark, cfg.useCrc, false, true, cfg.allowEmpty, cfg.enforceSecure,
        cp.cmd.id, cp.sqn, cp.session)
  }

  // cp_process_reply: nothing yet, or one verdict on the packet that arrived.
  datatype Reply =
    | NoData
    | ReplyBusy
    | ReplySeqNum
    | ReplyBad(session: Option<Session>)
    | ReplyMsg(payload: seq<byte>, session: Option<Session>)

  function ProcessReply(a: Algorithms, cfg: Config, cp: CpState, rx: Option<seq<byte>>): Reply
    requires a.Valid() && cfg.Valid() && -1 <= cp.sqn <= 3
  {
    match rx
    case None => NoData
    case Some(w) =>
      match ValidateHeader(Cp, w, PACKET_BUF_SIZE)
      case HdrErr(PktSkip) => ReplyBad(cp.session)
      case HdrErr(_) => NoData
      case Frame(n, mark) =>
        if n != |w| then NoData else
        var pkt := w[MarkLen(mark)..];
        match CheckPacket(a, CpEnd(cfg, cp), None, pkt)
        case Busy => ReplyBusy
        case OutOfSequence(_, _) => ReplySeqNum
        case Pass(_, _, _) =>
          (match Decode(a, CpEnd(cfg, cp), pkt)
           case DecodeNak(_, s) => ReplyBad(s)
           case Payload(p, s) => if p == [] then ReplyBad(s) else ReplyMsg(p, s))
        case _ => ReplyBad(cp.session)
  }

  // accepted: the reply the command was completed with. flush: pending receive data dropped.
  datatype CpStep = CpStep(cp: CpState, rc: CpRc, tx: Option<seq<byte>>, flush: bool, consumed: bool,
                           accepted: Option<Msg>)

  function CpFail(cp: CpState): CpState { cp.(phase := PhyErr) }

  function CpAwait(cp: CpState, now: nat): CpState {
    cp.(phase := Wait, waitMs := CMD_RETRY_WAIT_MS, tstamp := now, retries := cp.retries + 1)
  }

  // cp_build_packet: a fresh finalized packet in buf, or the build error.
  function CpBuild(a: Algorithms, cfg: Config, cp: CpState): Option<CpState>
    requires a.Valid() && cfg.Valid() && -1 <= cp.sqn <= 3
  {
    match Build(a, CpEnd(cfg, cp), cp.cmd, 0, cfg.cpMax)
    case None => None
    case Some((w, s)) =>
      Some(cp.(phase := SendCmdWait, buf := w, session := s, txSqn := TxSeq(CpEnd(cfg, cp), cp.cmd)))
  }

  // SEND_CMD_WAIT: hand the parked bytes to the channel. The channel flushes its receive side on
  // every attempt.
  function CpSend(cfg: Config, cp: CpState, now: nat, send: SendRc): CpStep
    requires cfg.Valid()
  {
    match send
    case NotReady => CpStep(cp, RcDefer, None, true, false, None)
    case Broken => CpStep(CpFail(cp), RcGeneric, None, true, false, None)
    case Sent =>
      CpStep(cp.(phase := ReplyWait, tstamp := now,
                 respTimeoutMs := RESP_TOUT_MS + (|cp.buf| * 10000 + cfg.baudRate - 1) / cfg.baudRate),
             RcInProg, Some(cp.buf), true, false, None)
  }

  function CpBuildAndSend(a: Algorithms, cfg: Config, cp: CpState, now: nat, send: SendRc): CpStep
    requires a.Valid() && cfg.Valid() && -1 <= cp.sqn <= 3
  {
    match CpBuild(a, cfg, cp)
    case None => CpStep(CpFail(cp), RcGeneric, None, false, false, None)
    case Some(cp') => CpSend(cfg, cp', now, send)
  }

  function CpReceive(a: Algorithms, cfg: Config, cp: CpState, now: nat, app: AppRc, rx: Option<seq<byte>>): CpStep
    requires a.Valid() && cfg.Valid() && -1 <= cp.sqn <= 3
  {
    match ProcessReply(a, cfg, cp, rx)
    case ReplyMsg(p, s) =>
      var got := cp.(session := s);
      var m := Msg(p[0], p[1..]);
      (match app
       case AppOk =>
         CpStep(got.(sqn := NextSeq(cp.sqn), retries := 0, phase := Done), RcNone, None, false, true, Some(m))
       case AppErr =>
         CpStep(CpFail(got.(sqn := NextSeq(cp.sqn))), RcGeneric, None, false, true, Some(m))
       case AppRetry => CpRetry(got, now, true)
       case _ => CpStep(CpFail(got), RcGeneric, None, false, true, None))
    case ReplySeqNum =>
      CpStep(cp.(retries := 0, phase := Done, linkReset := true), RcNone, None, false, true, None)
    case ReplyBad(s) => CpStep(CpFail(cp.(session := s)), RcGeneric, None, false, true, None)
    case ReplyBusy => CpRetry(cp, now, true)
    case NoData =>
      if now - cp.tstamp > cp.respTimeoutMs then
        if cp.retries < CMD_MAX_RETRIES then CpStep(CpAwait(cp, now), RcDefer, None, false, rx.Some?, None)
        else CpStep(CpFail(cp), RcGeneric, None, false, rx.Some?, None)
      else CpStep(cp, RcInProg, None, false, rx.Some?, None)
  }

  // The retry funnel for BUSY and check-character NAKs; out of budget it counts as answered.
  function CpRetry(cp: CpState, now: nat, consumed: bool): CpStep {
    if cp.retries >= CMD_MAX_RETRIES then
      CpStep(cp.(retries := 0, phase := Done), RcNone, None, false, consumed, None)
    else CpStep(CpAwait(cp, now), RcDefer, None, false, consumed, None)
  }

  // cp_phy_state_update
  function CpUpdate(a: Algorithms, cfg: Config, cp: CpState, now: nat, send: SendRc, app: AppRc, rx: Option<seq<byte>>)
    : CpStep
    requires a.Valid() && cfg.Valid() && -1 <= cp.sqn <= 3 && 0 <= cp.txSqn <= 3
  {
    match cp.phase
    case Idle => CpStep(cp, RcNone, None, false, false, None)
    case Done => CpStep(cp, RcNone, None, false, false, None)
    case PhyErr => CpStep(cp, RcGeneric, None, false, false, None)
    case Wait =>
      CpStep(if now - cp.tstamp < cp.waitMs then cp else cp.(phase := RetryCmd), RcDefer, None, false, false, None)
    case RetryCmd =>
      var step := CpBuildAndSend(a, cfg, cp.(sqn := cp.txSqn - 1, phase := SendCmd), now, send);
      step.(flush := true)
    case SendCmd => CpBuildAndSend(a, cfg, cp, now, send)
    case SendCmdWait => CpSend(cfg, cp, now, send)
    case ReplyWait => CpReceive(a, cfg, cp, now, app, rx)
  }

  // state_update on an idle phy: the next command is chosen and the phy kicked.
  function CpIssue(cp: CpState, m: Msg): CpState {
    cp.(cmd := m, phase := SendCmd, buf := [])
  }

  // osdp_phy_state_reset(pd, false): the exchange is left behind; sequence number, session and retry
  // count stay.
  function CpGiveUp(cp: CpState): CpState {
    cp.(phase := Idle, buf := [])
  }

  // osdp_phy_state_reset(pd, true) with the secure channel gone: the link starts over.
  function CpRestart(cp: CpState): CpState {
    cp.(phase := Idle, sqn := -1, txSqn := 0, retries := 0, session := None, buf := [], linkReset := false)
  }

  // ---- Peripheral device ----

  datatype PdState = PdState(
    sqn: int,
    session: Option<Session>,
    txBuf: seq<byte>,         // last reply built
    prebuilt: bool,           // ... and still waiting for the channel
    cacheLen: nat,            // last_tx_len: how much of txBuf may be re-sent
    lastCmd: byte,            // last_cmd_id
    cmdId: byte)

  function PdEnd(cfg: Config, pd: PdState, mark: bool): End {
    End(Pd, cfg.address, mark, true, false, true, cfg.allowEmpty, cfg.enforceSecure, pd.cmdId, pd.sqn, pd.session)
  }

  function Cached(pd: PdState): Option<byte> {
    if pd.cacheLen > 0 then Some(pd.lastCmd) else None
  }

  // pd_error_reset
  function PdReset(pd: PdState): PdState {
    pd.(session := None, cacheLen := 0, prebuilt := false)
  }

  // Outcome of pd_receive_and_process_command.
  datatype PdRx =
    | Ignore(pd: PdState)
    | Repeat
    | Answer(pd: PdState, reply: Msg, mark: bool, ran: Option<Msg>)

  function PdReceive(a: Algorithms, cfg: Config, pd: PdState, w: seq<byte>, reply: Msg): PdRx
    requires a.Valid() && cfg.Valid() && -1 <= pd.sqn <= 3
  {
    match ValidateHeader(Pd, w, PACKET_BUF_SIZE)
    case HdrErr(PktSkip) => Ignore(pd)
    case HdrErr(_) => Ignore(PdReset(pd))
    case Frame(n, mark) =>
      if n != |w| then Ignore(PdReset(pd)) else
      var pkt := w[MarkLen(mark)..];
      match CheckPacket(a, PdEnd(cfg, pd, mark), Cached(pd), pkt)
      case Reject(PktFmt) => Ignore(PdReset(pd))
      case Reject(_) => Ignore(pd)
      case Busy => Ignore(pd)
      case Resend => Repeat
      case OutOfSequence(_, _) => Answer(pd, Msg(REPLY_NAK, [NAK_SEQ_NUM]), mark, None)
      case Pass(sqn, keep, restart) =>
        var pd1 := pd.(sqn := sqn, cacheLen := if keep then pd.cacheLen else 0,
                       session := if restart then None else pd.session);
        match Decode(a, PdEnd(cfg, pd1, mark), pkt)
        case DecodeNak(code, s) =>
          Answer(pd1.(session := s, cacheLen := if s == None then 0 else pd1.cacheLen),
                 Msg(REPLY_NAK, [code]), mark, None)
        case Payload(p, s) =>
          if p == [] then Ignore(PdReset(pd1))
          else Answer(pd1.(session := s, cmdId := p[0]), reply, mark, Some(Msg(p[0], p[1..])))
  }

  datatype PdStep = PdStep(pd: PdState, tx: Option<seq<byte>>, ran: Option<Msg>)

  // pd_send_reply and what osdp_pd_update does after it.
  function PdSend(pd: PdState, send: SendRc, ran: Option<Msg>): PdStep {
    match send
    case NotReady => PdStep(pd, None, ran)
    case Broken => PdStep(pd.(prebuilt := false), None, ran)
    case Sent =>
      PdStep(pd.(prebuilt := false, cacheLen := |pd.txBuf|, lastCmd := pd.cmdId, sqn := NextSeq(pd.sqn)),
             Some(pd.txBuf), ran)
  }

  // osdp_pd_update: rx is what the channel holds; reply is what the application answers if its
  // handler is run.
  function PdUpdate(a: Algorithms, cfg: Config, pd: PdState, send: SendRc, rx: Option<seq<byte>>, reply: Msg): PdStep
    requires a.Valid() && cfg.Valid() && -1 <= pd.sqn <= 3
  {
    if pd.prebuilt then PdSend(pd, send, None)
    else if rx == None then PdStep(pd, None, None)
    else
      match PdReceive(a, cfg, pd, rx.value, reply)
      case Ignore(pd') => PdStep(pd', None, None)
      case Repeat =>
        PdStep(pd, if send == Sent && pd.cacheLen <= |pd.txBuf| then Some(pd.txBuf[..pd.cacheLen]) else None, None)
      case Answer(pd', m, mark, ran) =>
        match Build(a, PdEnd(cfg, pd', mark), m, 0, cfg.pdMax)
        case None => PdStep(PdReset(pd'), None, ran)
        case Some((w, s)) => PdSend(pd'.(txBuf := w, prebuilt := true, session := s), send, ran)
  }
}
