// How long the panel waits: for a reply, from the moment its command went out; before it asks again,
// from the moment it decided to; and with what budget the next command starts.
module Waiting {
  import opened Bytes
  import opened SecureChannel
  import opened Packet
  import opened Link
  import opened LinkFacts
  import opened LinkRun
  import opened LinkProof
  import opened Exchange

  // Milliseconds the packet itself takes on the line, ten bits a byte, rounded up.
  function Airtime(cfg: Config, w: seq<byte>): nat
    requires cfg.Valid()
  {
    (|w| * 10000 + cfg.baudRate - 1) / cfg.baudRate
  }

  // What a transmission leaves behind.
  lemma Transmitted(a: Algorithms, cfg: Config, cp: CpState, t: Tick)
    requires a.Valid() && cfg.Valid() && InRange(cp) && After(a, cfg, cp, t).tx.Some?
    ensures var st := After(a, cfg, cp, t);
            && st.cp.phase == ReplyWait && st.cp.tstamp == t.now && st.cp.retries == cp.retries && InRange(st.cp)
            && st.cp.respTimeoutMs == RESP_TOUT_MS + Airtime(cfg, st.tx.value)
  {
    hide CpReceive, CpBuildAndSend;
    match cp.phase {
      case RetryCmd => SendStamps(a, cfg, cp.(sqn := cp.txSqn - 1, phase := SendCmd), t.now, t.send);
      case SendCmd => SendStamps(a, cfg, cp, t.now, t.send);
      case ReplyWait => ReceiveReports(a, cfg, cp, t.now, t.app, t.rx);
      case _ =>
    }
  }

  lemma SendStamps(a: Algorithms, cfg: Config, cp: CpState, now: nat, send: SendRc)
    requires a.Valid() && cfg.Valid() && InRange(cp)
    ensures var st := CpBuildAndSend(a, cfg, cp, now, send);
            st.tx.Some? ==>
              && st.cp.phase == ReplyWait && st.cp.tstamp == now && st.cp.retries == cp.retries && InRange(st.cp)
              && st.cp.respTimeoutMs == RESP_TOUT_MS + Airtime(cfg, st.tx.value)
  {
    hide Build;
  }


  // From a transmission at t.now on, silence costs nothing until the reply is overdue: the call leaves
  // the command outstanding as it was, with nothing sent and no retry counted. Overdue is RESP_TOUT_MS
  // and the packet's own time on the line later, and not before; then one retry is counted, or the
  // exchange has failed if there is none left.
  lemma WaitsForReply(a: Algorithms, cfg: Config, cp: CpState, t: Tick, u: Tick)
    requires a.Valid() && cfg.Valid() && InRange(cp) && After(a, cfg, cp, t).tx.Some? && u.rx == None
    ensures InRange(After(a, cfg, cp, t).cp)
    ensures var st := After(a, cfg, cp, t);
            var next := After(a, cfg, st.cp, u);
            && next.tx == None
            && (if u.now <= t.now + RESP_TOUT_MS + Airtime(cfg, st.tx.value) then next == CpStep(st.cp, RcInProg, None, false, false, None)
                else if cp.retries < CMD_MAX_RETRIES then next.cp.phase == Wait && next.cp.retries == cp.retries + 1
                else next.cp.phase == PhyErr)
  {
    hide After, Build;
    Transmitted(a, cfg, cp, t);
    var st := After(a, cfg, cp, t);
    Silent(a, cfg, st.cp, u);
  }

  lemma Silent(a: Algorithms, cfg: Config, cp: CpState, u: Tick)
    requires a.Valid() && cfg.Valid() && InRange(cp) && cp.phase == ReplyWait && u.rx == None
    ensures var next := After(a, cfg, cp, u);
            && next.tx == None
            && (if u.now - cp.tstamp <= cp.respTimeoutMs then next == CpStep(cp, RcInProg, None, false, false, None)
                else if cp.retries < CMD_MAX_RETRIES then next.cp == CpAwait(cp, u.now)
                else next.cp == CpFail(cp))
  {
    hide Build;
  }

  // Any number of such calls.
  lemma {:induction false} Patience(a: Algorithms, cfg: Config, cp: CpState, t: Tick, us: seq<Tick>)
    requires a.Valid() && cfg.Valid() && InRange(cp) && After(a, cfg, cp, t).tx.Some?
    requires forall u :: u in us ==> u.rx == None && u.now <= t.now + RESP_TOUT_MS
    ensures InRange(After(a, cfg, cp, t).cp)
    ensures Run(a, cfg, After(a, cfg, cp, t).cp, us) == After(a, cfg, cp, t).cp
    ensures Transmissions(a, cfg, After(a, cfg, cp, t).cp, us) == 0
    decreases |us|
  {
    hide After, Airtime;
    AfterInRange(a, cfg, cp, t);
    if us != [] {
      assert us[0] in us;
      WaitsForReply(a, cfg, cp, t, us[0]);
      Patience(a, cfg, cp, t, us[1..]);
    }
  }

  // The device's reply is taken on any call that finds it while the command is outstanding, at once:
  // the exchange is over with the reply the device gave, and no retry is on record.
  lemma TakesInTime(a: Algorithms, cfg: Config, f: Flight, cp: CpState, r: Msg, w: seq<byte>, s: Option<Session>, u: Tick)
    requires a.Valid() && cfg.Valid() && FlightOk(a, cfg, f) && f.sqn > 0 && ReplyOk(r) && InRange(cp)
    requires CpAlive(cp, f) && cp.phase == ReplyWait && u.app == AppOk && u.rx == Some(w)
    requires Build(a, ReplyEnd(cfg, f), r, 0, cfg.pdMax) == Some((w, s))
    ensures var st := After(a, cfg, cp, u);
            && st.accepted == Some(r) && st.rc == RcNone && st.cp.phase == Done && st.cp.session == s
            && st.cp.sqn == f.sqn && st.cp.retries == 0
  {
    hide Build, ProcessReply, FlightOk;
    FlightSqn(a, cfg, f);
    CpTakes(a, cfg, f, cp, r, w, s);
    assert ([r.id] + r.data)[1..] == r.data;
  }

  // Put together: a command that goes out, is not answered for as many calls as RESP_TOUT_MS holds,
  // and finds its reply on the next, is done.
  lemma AnsweredInTime(a: Algorithms, cfg: Config, cp: CpState, t: Tick, us: seq<Tick>, f: Flight, r: Msg, w: seq<byte>,
                       s: Option<Session>, u: Tick)
    requires a.Valid() && cfg.Valid() && InRange(cp) && After(a, cfg, cp, t).tx.Some?
    requires forall u :: u in us ==> u.rx == None && u.now <= t.now + RESP_TOUT_MS
    requires FlightOk(a, cfg, f) && f.sqn > 0 && ReplyOk(r) && CpAlive(After(a, cfg, cp, t).cp, f)
    requires u.app == AppOk && u.rx == Some(w) && Build(a, ReplyEnd(cfg, f), r, 0, cfg.pdMax) == Some((w, s))
    ensures InRange(After(a, cfg, cp, t).cp)
    ensures var end := Run(a, cfg, After(a, cfg, cp, t).cp, us);
            InRange(end) && After(a, cfg, end, u).accepted == Some(r) && After(a, cfg, end, u).cp.phase == Done
  {
    hide After, Build, FlightOk, CpAlive;
    Transmitted(a, cfg, cp, t);
    Patience(a, cfg, cp, t, us);
    TakesInTime(a, cfg, f, After(a, cfg, cp, t).cp, r, w, s, u);
  }

  // Bytes that are no frame, or not a whole one, or one from a panel, are no answer: the first two pass for
  // silence, the last fails the exchange.
  lemma NoFrameNoReply(a: Algorithms, cfg: Config, cp: CpState, w: seq<byte>)
    requires a.Valid() && cfg.Valid() && InRange(cp)
    ensures var h := ValidateHeader(Cp, w, PACKET_BUF_SIZE);
            && (h in {HdrErr(PktFmt), HdrErr(PktWait)} || (h.Frame? && h.len != |w|) ==> ProcessReply(a, cfg, cp, Some(w)) == NoData)
            && (h == HdrErr(PktSkip) ==> ProcessReply(a, cfg, cp, Some(w)) == ReplyBad(cp.session))
  {
    hide ValidateHeader;
  }

  // What a call returns for the phase it leaves the exchange in.
  function Reports(phase: Phase): CpRc {
    match phase
    case Idle => RcNone
    case Done => RcNone
    case PhyErr => RcGeneric
    case ReplyWait => RcInProg
    case _ => RcDefer
  }

  lemma ReceiveReports(a: Algorithms, cfg: Config, cp: CpState, now: nat, app: AppRc, rx: Option<seq<byte>>)
    requires a.Valid() && cfg.Valid() && InRange(cp) && cp.phase == ReplyWait
    ensures var st := CpReceive(a, cfg, cp, now, app, rx);
            && st.rc == Reports(st.cp.phase) && !st.flush && (st.consumed <==> rx.Some?) && st.tx == None
            && (st.accepted.Some? ==> rx.Some?)
  {
    hide ProcessReply;
    NoReplyNoData(a, cfg, cp);
  }

  lemma SendReports(a: Algorithms, cfg: Config, cp: CpState, now: nat, send: SendRc)
    requires a.Valid() && cfg.Valid() && InRange(cp)
    ensures var st := CpBuildAndSend(a, cfg, cp, now, send);
            && st.rc == Reports(st.cp.phase) && (st.flush <==> CpBuild(a, cfg, cp).Some?) && !st.consumed && st.accepted == None
            && (st.tx.Some? ==> send == Sent)
  {
    hide Build;
  }

  // What a call returns says where the exchange stands; receive data is flushed exactly when bytes are
  // offered to the channel or a retry begins, and read only while a reply is awaited.
  lemma ReportsPhase(a: Algorithms, cfg: Config, cp: CpState, t: Tick)
    requires a.Valid() && cfg.Valid() && InRange(cp)
    ensures var st := After(a, cfg, cp, t);
            && st.rc == Reports(st.cp.phase)
            && (st.flush <==> cp.phase in {SendCmdWait, RetryCmd} || (cp.phase == SendCmd && CpBuild(a, cfg, cp).Some?))
            && (st.consumed <==> cp.phase == ReplyWait && t.rx.Some?)
            && (st.tx.Some? ==> t.send == Sent && cp.phase in {SendCmd, SendCmdWait, RetryCmd})
            && (st.accepted.Some? ==> st.consumed)
  {
    hide CpReceive, CpBuildAndSend, CpBuild;
    match cp.phase {
      case RetryCmd => SendReports(a, cfg, cp.(sqn := cp.txSqn - 1, phase := SendCmd), t.now, t.send);
      case SendCmd => SendReports(a, cfg, cp, t.now, t.send);
      case ReplyWait => ReceiveReports(a, cfg, cp, t.now, t.app, t.rx);
      case _ =>
    }
  }

  lemma NoReplyNoData(a: Algorithms, cfg: Config, cp: CpState)
    requires a.Valid() && cfg.Valid() && InRange(cp)
    ensures ProcessReply(a, cfg, cp, None) == NoData
  {
  }

  // ---- Before asking again ----

  // A retry waits CMD_RETRY_WAIT_MS from the call that decided on it, and no longer: calls until then
  // do nothing, the first after it makes the command due, and the one after that transmits it.
  lemma WaitsToRetry(a: Algorithms, cfg: Config, cp: CpState, t: Tick, u: Tick)
    requires a.Valid() && cfg.Valid() && InRange(cp) && cp.phase != Wait && After(a, cfg, cp, t).cp.phase == Wait
    ensures InRange(After(a, cfg, cp, t).cp)
    ensures var c := After(a, cfg, cp, t).cp;
            var next := After(a, cfg, c, u);
            && next.tx == None && next.cp.retries == c.retries == cp.retries + 1
            && next.cp == (if u.now < t.now + CMD_RETRY_WAIT_MS then c else c.(phase := RetryCmd))
  {
    hide After, Build;
    AfterInRange(a, cfg, cp, t);
    Postponed(a, cfg, cp, t);
    WaitArm(a, cfg, After(a, cfg, cp, t).cp, u);
  }

  lemma Postponed(a: Algorithms, cfg: Config, cp: CpState, t: Tick)
    requires a.Valid() && cfg.Valid() && InRange(cp) && cp.phase != Wait && After(a, cfg, cp, t).cp.phase == Wait
    ensures var c := After(a, cfg, cp, t).cp;
            c.tstamp == t.now && c.waitMs == CMD_RETRY_WAIT_MS && c.retries == cp.retries + 1
  {
    hide ProcessReply, Build;
  }

  lemma WaitArm(a: Algorithms, cfg: Config, cp: CpState, u: Tick)
    requires a.Valid() && cfg.Valid() && InRange(cp) && cp.phase == Wait
    ensures After(a, cfg, cp, u)
         == CpStep(if u.now - cp.tstamp < cp.waitMs then cp else cp.(phase := RetryCmd), RcDefer, None, false, false, None)
  {
  }

  // ---- The next command ----

  // However an exchange ends short of an error, by an answer, by one out of sequence or by giving up
  // on a busy device, the command issued next has the whole budget.
  lemma StartsAfresh(a: Algorithms, cfg: Config, cp: CpState, t: Tick, next: Msg)
    requires a.Valid() && cfg.Valid() && InRange(cp) && Running(cp) && After(a, cfg, cp, t).cp.phase == Done
    ensures Budget(CpIssue(After(a, cfg, cp, t).cp, next)) == CMD_MAX_RETRIES + 1
  {
    hide ProcessReply, Build;
  }

  // An answered exchange ends so, whatever it took.
  lemma AnsweredStartsAfresh(a: Algorithms, cfg: Config, cp: CpState, t: Tick, next: Msg)
    requires a.Valid() && cfg.Valid() && InRange(cp) && t.app == AppOk && After(a, cfg, cp, t).accepted.Some?
    ensures After(a, cfg, cp, t).cp.phase == Done
    ensures Budget(CpIssue(After(a, cfg, cp, t).cp, next)) == CMD_MAX_RETRIES + 1
  {
    hide ProcessReply, Build;
  }

  // Nothing of an old link is left in one that starts over, but the command last exchanged and timers
  // nothing reads before they are set again.
  lemma RestartForgets(cp: CpState, other: CpState)
    requires other.cmd == cp.cmd && other.tstamp == cp.tstamp && other.waitMs == cp.waitMs && other.respTimeoutMs == cp.respTimeoutMs
    ensures CpRestart(cp) == CpRestart(other)
    ensures !Running(CpRestart(cp)) && CpRestart(cp).session == None && NextSeq(CpRestart(cp).sqn) == 0
  {
  }
}
