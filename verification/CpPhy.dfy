// cp_phy_state_update of src/osdp_cp.c as it runs: a switch over the phase, falling through from
// RETRY_CMD to SEND_CMD to SEND_CMD_WAIT, on fields it updates in place.
module CpPhy {
  import opened Bytes
  import opened SecureChannel
  import opened Packet
  import opened Link

  class Panel {
    const a: Algorithms
    const cfg: Config
    var phase: Phase
    var sqn: int
    var txSqn: int
    var retries: nat
    var cmd: Msg
    var session: Option<Session>
    var buf: seq<byte>
    var tstamp: nat
    var waitMs: nat
    var respTimeoutMs: nat
    var linkReset: bool

    // What the last call did to the channel.
    var sent: Option<seq<byte>>
    var flushed: bool
    var took: bool
    var accepted: Option<Msg>

    ghost predicate Valid()
      reads this
    {
      a.Valid() && cfg.Valid() && -1 <= sqn <= 3 && 0 <= txSqn <= 3
    }

    ghost function State(): CpState
      reads this
    {
      CpState(phase, sqn, txSqn, retries, cmd, session, buf, tstamp, waitMs, respTimeoutMs, linkReset)
    }

    constructor (algorithms: Algorithms, config: Config, m: Msg)
      requires algorithms.Valid() && config.Valid()
      ensures Valid() && a == algorithms && cfg == config
      ensures State() == CpState(Idle, -1, 0, 0, m, None, [], 0, 0, 0, false)
    {
      a, cfg, phase, sqn, txSqn, retries := algorithms, config, Idle, -1, 0, 0;
      cmd, session, buf, tstamp, waitMs, respTimeoutMs, linkReset := m, None, [], 0, 0, 0, false;
      sent, flushed, took, accepted := None, false, false, None;
    }

    // cp_phy_state_done
    method FinishExchange()
      requires Valid()
      modifies `retries, `phase
      ensures retries == 0 && phase == Done
    {
      retries := 0;
      phase := Done;
    }

    // cp_phy_state_wait
    method StartWait(now: nat)
      requires Valid()
      modifies `waitMs, `tstamp, `phase
      ensures waitMs == CMD_RETRY_WAIT_MS && tstamp == now && phase == Wait
    {
      waitMs := CMD_RETRY_WAIT_MS;
      tstamp := now;
      phase := Wait;
    }

    // cp_build_packet
    method BuildPacket() returns (ok: bool)
      requires Valid()
      modifies `buf, `session, `txSqn, `phase
      ensures Valid()
      ensures match CpBuild(a, cfg, old(State()))
              case None => !ok && State() == old(State())
              case Some(built) => ok && State() == built.(phase := old(phase))
    {
      var e := CpEnd(cfg, CpState(phase, sqn, txSqn, retries, cmd, session, buf, tstamp, waitMs, respTimeoutMs, linkReset));
      var built := Build(a, e, cmd, 0, cfg.cpMax);
      ok := built.Some?;
      if ok {
        buf, session := built.value.0, built.value.1;
        txSqn := TxSeq(e, cmd);
      }
    }

    // The REPLY_WAIT arm up to the verdict on the reply: the session and the sequence number move
    // here, before anything else is decided.
    method TakeReply(rx: Option<seq<byte>>, app: AppRc) returns (verdict: Reply)
      requires Valid()
      modifies `session, `sqn, `linkReset, `accepted, `took
      ensures Valid() && verdict == ProcessReply(a, cfg, old(State()), rx)
      ensures took <==> rx.Some?
      ensures rx == None ==> verdict == NoData
      ensures session == match verdict case ReplyBad(s) => s case ReplyMsg(_, s) => s case _ => old(session)
      ensures linkReset <==> old(linkReset) || verdict == ReplySeqNum
      ensures var counted := verdict.ReplyMsg? && (app == AppOk || app == AppErr);
              && sqn == (if counted then NextSeq(old(sqn)) else old(sqn))
              && accepted == (if counted then Some(Msg(verdict.payload[0], verdict.payload[1..])) else None)
    {
      verdict := ProcessReply(a, cfg, CpState(phase, sqn, txSqn, retries, cmd, session, buf, tstamp, waitMs,
                                              respTimeoutMs, linkReset), rx);
      took, accepted := rx.Some?, None;
      match verdict
      case ReplyBad(s) => session := s;
      case ReplySeqNum => linkReset := true;
      case ReplyMsg(p, s) =>
        session := s;
        if app == AppOk || app == AppErr {
          sqn := NextSeq(sqn);
          accepted := Some(Msg(p[0], p[1..]));
        }
      case _ =>
    }

    // Answered with BUSY or a check-character NAK: wait and go again while the budget lasts.
    method GoAgain(now: nat) returns (rc: CpRc)
      requires Valid()
      modifies `retries, `phase, `waitMs, `tstamp
      ensures Valid()
      ensures State() == if old(retries) >= CMD_MAX_RETRIES then old(State()).(retries := 0, phase := Done)
                         else CpAwait(old(State()), now)
      ensures rc == if old(retries) >= CMD_MAX_RETRIES then RcNone else RcDefer
    {
      if retries >= CMD_MAX_RETRIES {
        FinishExchange();
        return RcNone;
      }
      retries := retries + 1;
      StartWait(now);
      return RcDefer;
    }

    // Nothing came: still in time, a timeout to retry, or one too many.
    method Silence(now: nat) returns (rc: CpRc)
      requires Valid()
      modifies `retries, `phase, `waitMs, `tstamp
      ensures Valid()
      ensures var late := now - old(tstamp) > old(respTimeoutMs);
              && State() == (if !late then old(State())
                             else if old(retries) < CMD_MAX_RETRIES then CpAwait(old(State()), now)
                             else CpFail(old(State())))
              && rc == if !late then RcInProg else if old(retries) < CMD_MAX_RETRIES then RcDefer else RcGeneric
    {
      if now - tstamp > respTimeoutMs {
        if retries < CMD_MAX_RETRIES {
          retries := retries + 1;
          StartWait(now);
          return RcDefer;
        }
        phase := PhyErr;
        return RcGeneric;
      }
      return RcInProg;
    }

    // The verdict acted on.
    method Act(verdict: Reply, app: AppRc, now: nat) returns (rc: CpRc)
      requires Valid()
      modifies `retries, `phase, `waitMs, `tstamp
      ensures Valid() && (State(), rc) == Acted(old(State()), verdict, app, now)
    {
      if (verdict.ReplyMsg? && app == AppOk) || verdict == ReplySeqNum {
        FinishExchange();
        return RcNone;
      }
      if verdict.ReplyBad? || (verdict.ReplyMsg? && app != AppRetry) {
        phase := PhyErr;
        return RcGeneric;
      }
      if verdict == ReplyBusy || verdict.ReplyMsg? {
        rc := GoAgain(now);
      } else {
        rc := Silence(now);
      }
    }

    // The REPLY_WAIT arm.
    method Receive(now: nat, app: AppRc, rx: Option<seq<byte>>) returns (rc: CpRc)
      requires Valid()
      modifies this
      ensures Valid() && sent == old(sent) && flushed == old(flushed)
      ensures var st := CpReceive(a, cfg, old(State()), now, app, rx);
              && State() == st.cp && rc == st.rc && took == st.consumed && accepted == st.accepted
              && st.tx == None && !st.flush
    {
      hide ProcessReply, CpReceive, Acted;
      Verdicts(a, cfg, State(), now, app, rx);
      var verdict := TakeReply(rx, app);
      rc := Act(verdict, app, now);
    }

    // The SEND_CMD_WAIT arm: osdp_phy_send_packet flushes the receive side first.
    method Transmit(now: nat, send: SendRc) returns (rc: CpRc)
      requires Valid()
      modifies `sent, `flushed, `phase, `tstamp, `respTimeoutMs
      ensures Valid() && flushed
      ensures var st := CpSend(cfg, old(State()), now, send);
              State() == st.cp && rc == st.rc && sent == st.tx && st.flush && !st.consumed && st.accepted == None
    {
      flushed, sent := true, None;
      match send
      case NotReady => rc := RcDefer;
      case Broken =>
        phase := PhyErr;
        rc := RcGeneric;
      case Sent =>
        sent := Some(buf);
        phase := ReplyWait;
        tstamp := now;
        respTimeoutMs := RESP_TOUT_MS + (|buf| * 10000 + cfg.baudRate - 1) / cfg.baudRate;
        rc := RcInProg;
    }

    // SEND_CMD, falling through to SEND_CMD_WAIT.
    method BuildAndSend(now: nat, send: SendRc) returns (rc: CpRc)
      requires Valid() && sent == None && phase == SendCmd
      modifies `buf, `session, `txSqn, `sent, `flushed, `phase, `tstamp, `respTimeoutMs
      ensures Valid()
      ensures var st := CpBuildAndSend(a, cfg, old(State()), now, send);
              && State() == st.cp && rc == st.rc && sent == st.tx && flushed == (old(flushed) || st.flush)
              && !st.consumed && st.accepted == None
    {
      hide Build;
      var ok := BuildPacket();
      if !ok {
        phase := PhyErr;
        return RcGeneric;
      }
      phase := SendCmdWait;
      rc := Transmit(now, send);
    }

    // RETRY_CMD, SEND_CMD and SEND_CMD_WAIT: one falls through into the next.
    method Drive(now: nat, send: SendRc) returns (rc: CpRc)
      requires Valid() && sent == None && !flushed && phase in {RetryCmd, SendCmd, SendCmdWait}
      modifies `sqn, `buf, `session, `txSqn, `sent, `flushed, `phase, `tstamp, `respTimeoutMs
      ensures Valid()
      ensures var st := CpUpdate(a, cfg, old(State()), now, send, AppOk, None);
              State() == st.cp && rc == st.rc && sent == st.tx && flushed == st.flush
    {
      hide CpReceive, CpBuildAndSend, CpSend, CpBuild, CpRetry, ProcessReply, Build;
      if phase == RetryCmd {
        flushed := true;
        sqn := txSqn - 1;
        phase := SendCmd;
      }
      if phase == SendCmd {
        rc := BuildAndSend(now, send);
        return;
      }
      rc := Transmit(now, send);
    }

    // The WAIT arm.
    method Await(now: nat) returns (rc: CpRc)
      requires Valid() && phase == Wait
      modifies `phase
      ensures Valid() && rc == RcDefer
      ensures State() == if now - tstamp < waitMs then old(State()) else old(State()).(phase := RetryCmd)
    {
      rc := RcDefer;
      if now - tstamp >= waitMs {
        phase := RetryCmd;
      }
    }

    method Update(now: nat, send: SendRc, app: AppRc, rx: Option<seq<byte>>) returns (rc: CpRc)
      requires Valid()
      modifies this
      ensures Valid()
      ensures var st := CpUpdate(a, cfg, old(State()), now, send, app, rx);
              && State() == st.cp && rc == st.rc && sent == st.tx
              && flushed == st.flush && took == st.consumed && accepted == st.accepted
    {
      hide CpUpdate, CpReceive;
      Arms(a, cfg, State(), now, send, app, rx);
      sent, flushed, took, accepted := None, false, false, None;
      match phase
      case Done => rc := RcNone;
      case Idle => rc := RcNone;
      case PhyErr => rc := RcGeneric;
      case Wait => rc := Await(now);
      case ReplyWait => rc := Receive(now, app, rx);
      case _ => rc := Drive(now, send);
    }
  }

  // What a verdict does to the exchange, session and sequence number having moved.
  function Acted(cp: CpState, verdict: Reply, app: AppRc, now: nat): (CpState, CpRc) {
    match verdict
    case ReplyMsg(_, _) =>
      if app == AppOk then (cp.(retries := 0, phase := Done), RcNone)
      else if app == AppRetry then Again(cp, now)
      else (CpFail(cp), RcGeneric)
    case ReplySeqNum => (cp.(retries := 0, phase := Done), RcNone)
    case ReplyBad(_) => (CpFail(cp), RcGeneric)
    case ReplyBusy => Again(cp, now)
    case NoData =>
      if now - cp.tstamp <= cp.respTimeoutMs then (cp, RcInProg)
      else if cp.retries < CMD_MAX_RETRIES then (CpAwait(cp, now), RcDefer)
      else (CpFail(cp), RcGeneric)
  }

  function Again(cp: CpState, now: nat): (CpState, CpRc) {
    if cp.retries >= CMD_MAX_RETRIES then (cp.(retries := 0, phase := Done), RcNone) else (CpAwait(cp, now), RcDefer)
  }

  // The reply arm takes session, sequence number and reset request from the verdict, then acts on it.
  lemma Verdicts(a: Algorithms, cfg: Config, cp: CpState, now: nat, app: AppRc, rx: Option<seq<byte>>)
    requires a.Valid() && cfg.Valid() && -1 <= cp.sqn <= 3
    ensures var v := ProcessReply(a, cfg, cp, rx);
            var counted := v.ReplyMsg? && (app == AppOk || app == AppErr);
            && (v.ReplyMsg? ==> v.payload != [])
            && var taken := cp.(session := match v case ReplyBad(s) => s case ReplyMsg(_, s) => s case _ => cp.session,
                                sqn := if counted then NextSeq(cp.sqn) else cp.sqn,
                                linkReset := cp.linkReset || v == ReplySeqNum);
            var st := CpReceive(a, cfg, cp, now, app, rx);
            && (st.cp, st.rc) == Acted(taken, v, app, now)
            && st.tx == None && !st.flush && st.consumed == rx.Some?
            && st.accepted == if counted then Some(Msg(v.payload[0], v.payload[1..])) else None
  {
    hide CheckPacket, Decode, ValidateHeader;
  }

  // The arms of the switch.
  lemma Arms(a: Algorithms, cfg: Config, cp: CpState, now: nat, send: SendRc, app: AppRc, rx: Option<seq<byte>>)
    requires a.Valid() && cfg.Valid() && -1 <= cp.sqn <= 3 && 0 <= cp.txSqn <= 3
    ensures var st := CpUpdate(a, cfg, cp, now, send, app, rx);
            match cp.phase
            case Idle => st == CpStep(cp, RcNone, None, false, false, None)
            case Done => st == CpStep(cp, RcNone, None, false, false, None)
            case PhyErr => st == CpStep(cp, RcGeneric, None, false, false, None)
            case Wait =>
              st == CpStep(if now - cp.tstamp < cp.waitMs then cp else cp.(phase := RetryCmd), RcDefer, None, false, false, None)
            case ReplyWait => st == CpReceive(a, cfg, cp, now, app, rx)
            case _ => st == CpUpdate(a, cfg, cp, now, send, AppOk, None) && !st.consumed && st.accepted == None
  {
    hide CpReceive, CpBuildAndSend, CpSend;
    if cp.phase in {RetryCmd, SendCmd, SendCmdWait} {
      NothingAccepted(a, cfg, cp, now, send, app, rx);
    }
  }

  // While a command is on its way out neither the application nor the receive side has a say.
  lemma NothingAccepted(a: Algorithms, cfg: Config, cp: CpState, now: nat, send: SendRc, app: AppRc, rx: Option<seq<byte>>)
    requires a.Valid() && cfg.Valid() && -1 <= cp.sqn <= 3 && 0 <= cp.txSqn <= 3
    requires cp.phase in {RetryCmd, SendCmd, SendCmdWait}
    ensures var st := CpUpdate(a, cfg, cp, now, send, app, rx);
            st == CpUpdate(a, cfg, cp, now, send, AppOk, None) && !st.consumed && st.accepted == None
  {
    hide Build;
  }
}
