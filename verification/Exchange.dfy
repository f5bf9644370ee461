// One command from the first transmission to its end: every way of repeating it (BUSY, a
// check-character NAK, silence) draws on one budget, and the exchange always comes to an end.
module Exchange {
  import opened Bytes
  import opened Packet
  import opened PacketRoundTrip
  import opened Link
  import opened LinkFacts
  import opened LinkProof

  // What the panel meets on one call of cp_phy_state_update.
  datatype Tick = Tick(now: nat, send: SendRc, app: AppRc, rx: Option<seq<byte>>)

  predicate InRange(cp: CpState) { -1 <= cp.sqn <= 3 && 0 <= cp.txSqn <= 3 }

  predicate Running(cp: CpState) { cp.phase !in {Idle, Done, PhyErr} }

  function After(a: Algorithms, cfg: Config, cp: CpState, t: Tick): CpStep
    requires a.Valid() && cfg.Valid() && InRange(cp)
  {
    CpUpdate(a, cfg, cp, t.now, t.send, t.app, t.rx)
  }

  lemma AfterInRange(a: Algorithms, cfg: Config, cp: CpState, t: Tick)
    requires a.Valid() && cfg.Valid() && InRange(cp)
    ensures InRange(After(a, cfg, cp, t).cp)
  {
    hide ProcessReply, Build;
  }

  function Run(a: Algorithms, cfg: Config, cp: CpState, ticks: seq<Tick>): CpState
    requires a.Valid() && cfg.Valid() && InRange(cp)
    decreases |ticks|
  {
    if ticks == [] then cp
    else
      AfterInRange(a, cfg, cp, ticks[0]);
      Run(a, cfg, After(a, cfg, cp, ticks[0]).cp, ticks[1..])
  }

  // How often the command went out.
  function Transmissions(a: Algorithms, cfg: Config, cp: CpState, ticks: seq<Tick>): nat
    requires a.Valid() && cfg.Valid() && InRange(cp)
    decreases |ticks|
  {
    if ticks == [] then 0
    else
      AfterInRange(a, cfg, cp, ticks[0]);
      var st := After(a, cfg, cp, ticks[0]);
      (if st.tx.Some? then 1 else 0) + Transmissions(a, cfg, st.cp, ticks[1..])
  }

  function RetriesLeft(cp: CpState): nat {
    if cp.retries < CMD_MAX_RETRIES then CMD_MAX_RETRIES - cp.retries else 0
  }

  // Transmissions the command may still have.
  function Budget(cp: CpState): nat {
    match cp.phase
    case SendCmd | SendCmdWait | Wait | RetryCmd => RetriesLeft(cp) + 1
    case ReplyWait => RetriesLeft(cp)
    case _ => 0
  }

  lemma BudgetShrinks(a: Algorithms, cfg: Config, cp: CpState, t: Tick)
    requires a.Valid() && cfg.Valid() && InRange(cp)
    ensures var st := After(a, cfg, cp, t); (if st.tx.Some? then 1 else 0) + Budget(st.cp) <= Budget(cp)
  {
    hide CpBuild, CpReceive, CpSend, CpBuildAndSend;
    PhaseSteps(a, cfg, cp, t);
  }

  // Whatever the channel, the device and the application do, a command is transmitted at most
  // OSDP_CMD_MAX_RETRIES + 1 times.
  lemma {:induction false} AtMostNine(a: Algorithms, cfg: Config, cp: CpState, ticks: seq<Tick>)
    requires a.Valid() && cfg.Valid() && InRange(cp)
    ensures Transmissions(a, cfg, cp, ticks) <= Budget(cp) <= CMD_MAX_RETRIES + 1
    decreases |ticks|
  {
    hide After;
    if ticks != [] {
      AfterInRange(a, cfg, cp, ticks[0]);
      BudgetShrinks(a, cfg, cp, ticks[0]);
      AtMostNine(a, cfg, After(a, cfg, cp, ticks[0]).cp, ticks[1..]);
    }
  }

  // A device that never answers, on a channel that always accepts, is sent exactly the whole
  // budget before the panel gives up on a command that fits its packet.
  lemma {:induction false} SilentDevice(a: Algorithms, cfg: Config, cp: CpState, ticks: seq<Tick>)
    requires a.Valid() && cfg.Valid() && InRange(cp) && Running(cp)
    requires forall t :: t in ticks ==> t.send == Sent && t.rx == None
    requires WireLen(CpEnd(cfg, cp), cp.cmd, 0) <= cfg.cpMax
    requires !Running(Run(a, cfg, cp, ticks))
    ensures Transmissions(a, cfg, cp, ticks) == Budget(cp)
    ensures Run(a, cfg, cp, ticks).phase == PhyErr && Run(a, cfg, cp, ticks).retries >= CMD_MAX_RETRIES
    decreases |ticks|
  {
    hide After, WireLen;
    AfterInRange(a, cfg, cp, ticks[0]);
    SilentTick(a, cfg, cp, ticks[0]);
    var next := After(a, cfg, cp, ticks[0]).cp;
    if Running(next) {
      SilentDevice(a, cfg, next, ticks[1..]);
    } else {
      Over(a, cfg, next, ticks[1..]);
    }
  }

  // A command issued with no retry counted goes out nine times to a silent device. The count stays
  // when the failed exchange is left behind without restarting the link, and then the next command
  // goes out once; after a restart it has all nine again.
  lemma AfterSilence(a: Algorithms, cfg: Config, idle: CpState, first: Msg, ticks: seq<Tick>, next: Msg)
    requires a.Valid() && cfg.Valid() && InRange(idle) && idle.retries == 0
    requires forall t :: t in ticks ==> t.send == Sent && t.rx == None
    requires WireLen(CpEnd(cfg, CpIssue(idle, first)), first, 0) <= cfg.cpMax
    requires !Running(Run(a, cfg, CpIssue(idle, first), ticks))
    ensures Transmissions(a, cfg, CpIssue(idle, first), ticks) == CMD_MAX_RETRIES + 1
    ensures var end := Run(a, cfg, CpIssue(idle, first), ticks);
            && end.phase == PhyErr
            && Budget(CpIssue(CpGiveUp(end), next)) == 1
            && Budget(CpIssue(CpRestart(end), next)) == CMD_MAX_RETRIES + 1
  {
    hide Run, Transmissions, WireLen;
    SilentDevice(a, cfg, CpIssue(idle, first), ticks);
  }

  lemma SilentTick(a: Algorithms, cfg: Config, cp: CpState, t: Tick)
    requires a.Valid() && cfg.Valid() && InRange(cp) && Running(cp) && t.send == Sent && t.rx == None
    requires WireLen(CpEnd(cfg, cp), cp.cmd, 0) <= cfg.cpMax
    ensures var st := After(a, cfg, cp, t);
            && (if st.tx.Some? then 1 else 0) + Budget(st.cp) == Budget(cp)
            && (Running(st.cp) || (st.cp.phase == PhyErr && Budget(cp) == 0 && st.cp.retries >= CMD_MAX_RETRIES))
            && (Running(st.cp) ==> WireLen(CpEnd(cfg, st.cp), st.cp.cmd, 0) <= cfg.cpMax)
  {
    hide CpBuildAndSend, WireLen;
    if cp.phase == RetryCmd {
      SilentSend(a, cfg, cp, cp.(sqn := cp.txSqn - 1, phase := SendCmd), t.now);
    } else if cp.phase == SendCmd {
      SilentSend(a, cfg, cp, cp, t.now);
    } else {
      assert CpEnd(cfg, After(a, cfg, cp, t).cp) == CpEnd(cfg, cp);
    }
  }

  lemma SilentSend(a: Algorithms, cfg: Config, cp: CpState, cp1: CpState, now: nat)
    requires a.Valid() && cfg.Valid() && InRange(cp1) && cp1 == cp.(sqn := cp1.sqn, phase := SendCmd)
    requires WireLen(CpEnd(cfg, cp), cp.cmd, 0) <= cfg.cpMax
    ensures var st := CpBuildAndSend(a, cfg, cp1, now, Sent);
            && st.tx.Some? && st.cp.phase == ReplyWait && st.cp.retries == cp.retries
            && WireLen(CpEnd(cfg, st.cp), st.cp.cmd, 0) <= cfg.cpMax
  {
    hide CpBuild, WireLen;
    SameLength(CpEnd(cfg, cp), CpEnd(cfg, cp1), cp.cmd);
    SilentBuild(a, cfg, cp1);
    SameLength(CpEnd(cfg, cp), CpEnd(cfg, CpBuildAndSend(a, cfg, cp1, now, Sent).cp), cp.cmd);
  }

  lemma SilentBuild(a: Algorithms, cfg: Config, cp: CpState)
    requires a.Valid() && cfg.Valid() && InRange(cp)
    ensures WireLen(CpEnd(cfg, cp), cp.cmd, 0) <= cfg.cpMax ==> CpBuild(a, cfg, cp).Some?
    ensures match CpBuild(a, cfg, cp)
            case None => true
            case Some(b) =>
              && b == cp.(phase := SendCmdWait, buf := b.buf, session := b.session, txSqn := b.txSqn)
              && (b.session.Some? <==> cp.session.Some?)
  {
    hide Build, WireLen;
    var e := CpEnd(cfg, cp);
    BuildFits(a, e, cp.cmd, 0, cfg.cpMax);
    if Build(a, e, cp.cmd, 0, cfg.cpMax).Some? {
      BuildKeepsPlain(a, e, cp.cmd, cfg.cpMax);
    }
  }

  lemma SameLength(e: End, e': End, m: Msg)
    requires e' == e.(session := e'.session, sqn := e'.sqn)
    ensures e.session.Some? == e'.session.Some? ==> WireLen(e, m, 0) == WireLen(e', m, 0)
  {
  }

  lemma {:induction false} Over(a: Algorithms, cfg: Config, cp: CpState, ticks: seq<Tick>)
    requires a.Valid() && cfg.Valid() && InRange(cp) && !Running(cp)
    ensures Run(a, cfg, cp, ticks) == cp && Transmissions(a, cfg, cp, ticks) == 0
    decreases |ticks|
  {
    if ticks != [] {
      Over(a, cfg, cp, ticks[1..]);
    }
  }

  // ---- Termination ----

  // A call on which the clock has run past whatever the panel waits for and the channel does not
  // ask for more time.
  predicate Forward(cp: CpState, t: Tick) {
    && t.send != NotReady
    && (cp.phase == Wait ==> t.now - cp.tstamp >= cp.waitMs)
    && (cp.phase == ReplyWait ==> t.now - cp.tstamp > cp.respTimeoutMs)
  }

  // Lexicographic in (retries left, place in the cycle), flattened.
  function Rank(cp: CpState): nat {
    match cp.phase
    case Wait => 4 * RetriesLeft(cp) + 4
    case RetryCmd | SendCmd => 4 * RetriesLeft(cp) + 3
    case SendCmdWait => 4 * RetriesLeft(cp) + 2
    case ReplyWait => 4 * RetriesLeft(cp) + 1
    case _ => 0
  }

  lemma RankShrinks(a: Algorithms, cfg: Config, cp: CpState, t: Tick)
    requires a.Valid() && cfg.Valid() && InRange(cp)
    ensures Rank(After(a, cfg, cp, t).cp) <= Rank(cp)
    ensures Running(cp) && Forward(cp, t) ==> Rank(After(a, cfg, cp, t).cp) < Rank(cp)
  {
    hide CpBuild, CpReceive, CpSend, CpBuildAndSend;
    PhaseSteps(a, cfg, cp, t);
  }

  // How a step moves phase and retry count.
  lemma PhaseSteps(a: Algorithms, cfg: Config, cp: CpState, t: Tick)
    requires a.Valid() && cfg.Valid() && InRange(cp)
    ensures Handed(cfg, cp, t)
    ensures Built(a, cfg, if cp.phase == RetryCmd then cp.(sqn := cp.txSqn - 1, phase := SendCmd) else cp, t)
    ensures Heard(a, cfg, cp, t)
  {
    hide Handed, Built, Heard;
    SendSteps(cfg, cp, t);
    BuildSteps(a, cfg, if cp.phase == RetryCmd then cp.(sqn := cp.txSqn - 1, phase := SendCmd) else cp, t);
    ReceiveSteps(a, cfg, cp, t);
  }

  predicate Handed(cfg: Config, cp: CpState, t: Tick)
    requires cfg.Valid()
  {
    var st := CpSend(cfg, cp, t.now, t.send);
    && st.cp.retries == cp.retries && (st.tx.Some? <==> t.send == Sent)
    && st.cp.phase == (match t.send case NotReady => cp.phase case Broken => PhyErr case Sent => ReplyWait)
  }

  ghost predicate Built(a: Algorithms, cfg: Config, cp: CpState, t: Tick)
    requires a.Valid() && cfg.Valid() && -1 <= cp.sqn <= 3
  {
    var st := CpBuildAndSend(a, cfg, cp, t.now, t.send);
    && st.cp.retries == cp.retries && (st.tx.Some? ==> t.send == Sent && st.cp.phase == ReplyWait)
    && st.cp.phase in {SendCmdWait, ReplyWait, PhyErr} && (st.cp.phase == SendCmdWait ==> t.send == NotReady)
  }

  ghost predicate Heard(a: Algorithms, cfg: Config, cp: CpState, t: Tick)
    requires a.Valid() && cfg.Valid() && -1 <= cp.sqn <= 3
  {
    var st := CpReceive(a, cfg, cp, t.now, t.app, t.rx);
    && st.tx == None
    && (|| st.cp.phase in {Done, PhyErr}
        || (st.cp.phase == Wait && cp.retries < CMD_MAX_RETRIES && st.cp.retries == cp.retries + 1)
        || (st.cp == cp && t.now - cp.tstamp <= cp.respTimeoutMs))
  }

  lemma SendSteps(cfg: Config, cp: CpState, t: Tick)
    requires cfg.Valid()
    ensures Handed(cfg, cp, t)
  {
  }

  lemma BuildSteps(a: Algorithms, cfg: Config, cp: CpState, t: Tick)
    requires a.Valid() && cfg.Valid() && -1 <= cp.sqn <= 3
    ensures Built(a, cfg, cp, t)
  {
    hide Build, CpSend;
    match CpBuild(a, cfg, cp)
    case None =>
    case Some(cp') => SendSteps(cfg, cp', t);
  }

  lemma ReceiveSteps(a: Algorithms, cfg: Config, cp: CpState, t: Tick)
    requires a.Valid() && cfg.Valid() && -1 <= cp.sqn <= 3
    ensures Heard(a, cfg, cp, t)
  {
    hide CheckPacket, Decode, ValidateHeader;
  }

  function ForwardTicks(a: Algorithms, cfg: Config, cp: CpState, ticks: seq<Tick>): nat
    requires a.Valid() && cfg.Valid() && InRange(cp)
    decreases |ticks|
  {
    if ticks == [] then 0
    else
      AfterInRange(a, cfg, cp, ticks[0]);
      (if Forward(cp, ticks[0]) then 1 else 0) + ForwardTicks(a, cfg, After(a, cfg, cp, ticks[0]).cp, ticks[1..])
  }

  // Once the clock has advanced and the channel has accepted often enough the exchange is over,
  // whatever arrived in the meantime; 36 such calls always do.
  lemma {:induction false} Terminates(a: Algorithms, cfg: Config, cp: CpState, ticks: seq<Tick>)
    requires a.Valid() && cfg.Valid() && InRange(cp) && ForwardTicks(a, cfg, cp, ticks) >= Rank(cp)
    ensures !Running(Run(a, cfg, cp, ticks)) && Rank(cp) <= 4 * CMD_MAX_RETRIES + 4
    decreases |ticks|
  {
    hide After;
    if !Running(cp) {
      Over(a, cfg, cp, ticks);
    } else {
      AfterInRange(a, cfg, cp, ticks[0]);
      RankShrinks(a, cfg, cp, ticks[0]);
      Terminates(a, cfg, After(a, cfg, cp, ticks[0]).cp, ticks[1..]);
    }
  }
}
