// Runs of a panel and a device over a channel with one command slot and one reply slot, either of
// which may lose its packet at any time.
module LinkRun {
  import opened Bytes
  import opened SecureChannel
  import opened Packet
  import opened PacketRoundTrip
  import opened Link
  import opened LinkFacts

  // flight, last, synced, done and runs only observe: the outstanding command, the last one
  // answered, whether a sequence-0 exchange has completed since the last restart, and since then
  // the exchanges the panel completed and the handler runs of the device.
  datatype Net = Net(
    cp: CpState,
    pd: PdState,
    cmdSlot: Option<seq<byte>>,
    replySlot: Option<seq<byte>>,
    flight: Option<Flight>,
    last: Option<Flight>,
    synced: bool,
    done: seq<(Msg, Msg)>,
    runs: seq<(Msg, Msg)>)

  datatype Step =
    | CpTick(now: nat, send: SendRc, app: AppRc)
    | CpChoose(cmd: Msg)
    | CpAbandon
    | CpReset
    | PdTick(pdSend: SendRc, reply: Msg)
    | LoseCmd
    | LoseReply

  predicate Bounded(n: Net) {
    -1 <= n.cp.sqn <= 3 && 0 <= n.cp.txSqn <= 3 && -1 <= n.pd.sqn <= 3
  }

  // Sequence number in the header of a command; only read of packets the panel built.
  function WireSeq(cfg: Config, w: seq<byte>): nat {
    if |w| > HDR + MarkLen(cfg.mark) then SeqOf(w[MarkLen(cfg.mark) + 4]) else 0
  }

  function FlightAfter(n: Net, built: Option<CpState>, st: CpStep): Option<Flight> {
    var sent := st.tx.Some?;
    if st.accepted.Some? then None
    else if built.Some? then
      Some(Flight(n.cp.cmd, built.value.txSqn, built.value.buf, built.value.session, sent))
    else if n.flight.Some? then Some(n.flight.value.(sent := n.flight.value.sent || sent))
    else None
  }

  function CpTicked(a: Algorithms, cfg: Config, n: Net, now: nat, send: SendRc, app: AppRc): Net
    requires a.Valid() && cfg.Valid() && Bounded(n)
  {
    var st := CpUpdate(a, cfg, n.cp, now, send, app, n.replySlot);
    var built := if n.cp.phase == SendCmd then CpBuild(a, cfg, n.cp) else None;
    n.(cp := st.cp,
       cmdSlot := if st.tx.Some? then st.tx else n.cmdSlot,
       replySlot := if st.flush || st.consumed then None else n.replySlot,
       flight := FlightAfter(n, built, st),
       last := if st.accepted.Some? then n.flight else n.last,
       synced := n.synced || st.accepted.Some?,
       done := if st.accepted.Some? && n.synced then n.done + [(n.cp.cmd, st.accepted.value)] else n.done)
  }

  function PdTicked(a: Algorithms, cfg: Config, n: Net, send: SendRc, reply: Msg): Net
    requires a.Valid() && cfg.Valid() && Bounded(n)
  {
    var st := PdUpdate(a, cfg, n.pd, send, n.cmdSlot, reply);
    var counted := n.synced && st.ran.Some? && n.cmdSlot.Some? && WireSeq(cfg, n.cmdSlot.value) != 0;
    n.(pd := st.pd,
       cmdSlot := None,
       replySlot := if st.tx.Some? then st.tx else n.replySlot,
       runs := if counted then n.runs + [(st.ran.value, reply)] else n.runs)
  }

  function NextNet(a: Algorithms, cfg: Config, n: Net, step: Step): Net
    requires a.Valid() && cfg.Valid() && Bounded(n)
  {
    match step
    case CpTick(now, send, app) => CpTicked(a, cfg, n, now, send, app)
    case CpChoose(m) => n.(cp := CpIssue(n.cp, m))
    case CpAbandon => n.(cp := CpGiveUp(n.cp), flight := None)
    case CpReset =>
      n.(cp := CpRestart(n.cp), replySlot := None, flight := None, last := None, synced := false,
         done := [], runs := [])
    case PdTick(send, reply) => PdTicked(a, cfg, n, send, reply)
    case LoseCmd => n.(cmdSlot := None)
    case LoseReply => n.(replySlot := None)
  }

  // What the environment may do: the panel starts a command on an idle phy with no link reset
  // pending, both ends send messages that fit, the device's channel does not break, and no reply
  // asks for the command to be repeated. A failed exchange may be left behind without restarting
  // the link when nothing is outstanding on a number the device has seen; LinkAbandon takes up the
  // other case.
  ghost predicate Allowed(cfg: Config, n: Net, step: Step)
    requires cfg.Valid() && Bounded(n)
  {
    match step
    case CpTick(_, _, app) => app != AppRetry
    case CpChoose(m) =>
      && (n.cp.phase == Idle || n.cp.phase == Done) && !n.cp.linkReset
      && CmdOk(m) && WireLen(CpEnd(cfg, n.cp), m, 0) <= cfg.cpMax
    case CpAbandon => n.cp.phase == PhyErr && (n.synced ==> n.flight == None)
    case PdTick(send, reply) =>
      send != Broken && ReplyOk(reply) && WireLen(PdEnd(cfg, n.pd, cfg.mark), reply, 0) <= cfg.pdMax
    case _ => true
  }

  // ---- Invariant ----

  ghost predicate PdShape(a: Algorithms, cfg: Config, pd: PdState)
    requires a.Valid() && cfg.Valid()
  {
    && -1 <= pd.sqn <= 3 && (pd.sqn <= 0 ==> pd.session == None)
    && (pd.prebuilt ==> PdWire(a, cfg, pd.txBuf, NextSeq(pd.sqn)))
    && (!pd.prebuilt && pd.cacheLen > 0 ==> pd.cacheLen == |pd.txBuf| && PdWire(a, cfg, pd.txBuf, pd.sqn))
  }

  // A: one command behind.
  predicate Behind(pd: PdState, s: int, session: Option<Session>) {
    !pd.prebuilt && 0 <= pd.sqn && NextSeq(pd.sqn) == s && SameChain(pd.session, session)
  }

  // A': just restarted, its sequence-0 reply still waiting for the channel.
  predicate Lagging(pd: PdState) {
    pd.sqn == -1 && pd.prebuilt && pd.session == None
  }

  // The reply the device holds is the one it built for f.
  ghost predicate Answered(a: Algorithms, cfg: Config, pd: PdState, f: Flight, m: Msg)
    requires a.Valid() && cfg.Valid() && 0 <= f.sqn <= 3
  {
    ReplyOk(m) && Build(a, ReplyEnd(cfg, f), m, 0, cfg.pdMax) == Some((pd.txBuf, pd.session))
  }

  // B: it has run the handler and its reply waits for the channel.
  predicate Replying(pd: PdState, f: Flight) {
    pd.prebuilt && 0 <= pd.sqn && NextSeq(pd.sqn) == f.sqn && pd.cmdId == f.cmd.id
  }

  // C: it has sent its reply and can repeat it.
  predicate Caught(pd: PdState, f: Flight) {
    !pd.prebuilt && pd.sqn == f.sqn && pd.cacheLen > 0 && pd.lastCmd == f.cmd.id
  }

  // Before the new command has left the panel, the command slot can only hold the previous one.
  predicate OldCommand(n: Net, base: int) {
    n.cmdSlot == None ||
    (n.last.Some? && n.cmdSlot == Some(n.last.value.wire) &&
     (if n.last.value.sqn == 0 then base == 0 else base == n.last.value.sqn && Caught(n.pd, n.last.value)))
  }

  predicate CpAlive(cp: CpState, f: Flight) {
    && (cp.phase == SendCmdWait || cp.phase == ReplyWait || cp.phase == Wait || cp.phase == RetryCmd)
    && cp.txSqn == f.sqn && cp.session == f.session && NextSeq(cp.sqn) == f.sqn && cp.cmd == f.cmd
    && (cp.phase == SendCmdWait ==> cp.buf == f.wire)
    && (cp.phase != SendCmdWait ==> f.sent)
    && !cp.linkReset
  }

  // Given up on: nothing more happens to the command until the link is restarted. A command that
  // failed keeps its sequence number.
  predicate CpDead(cp: CpState, f: Flight) {
    if cp.linkReset then cp.phase == Done
    else cp.phase == PhyErr && NextSeq(cp.sqn) == f.sqn && (f.session == None ==> cp.session == None)
  }

  predicate CpFree(cfg: Config, cp: CpState)
    requires cfg.Valid() && -1 <= cp.sqn <= 3
  {
    && !cp.linkReset
    && (cp.phase == Idle || cp.phase == Done || cp.phase == SendCmd || cp.phase == PhyErr)
    && (cp.phase == SendCmd ==> CmdOk(cp.cmd) && WireLen(CpEnd(cfg, cp), cp.cmd, 0) <= cfg.cpMax)
  }

  // A leftover of the restart, which the panel will refuse.
  ghost predicate Stale(a: Algorithms, cfg: Config, n: Net, f: Flight)
    requires a.Valid() && cfg.Valid()
  {
    n.replySlot == None || (f.sqn == 1 && PdWire(a, cfg, n.replySlot.value, 0))
  }

  ghost predicate PdSynced(a: Algorithms, cfg: Config, n: Net, f: Flight)
    requires a.Valid() && cfg.Valid() && 0 <= f.sqn <= 3
  {
    if !f.sent then
      && n.done == n.runs && OldCommand(n, if f.sqn == 1 && Lagging(n.pd) then 0 else n.pd.sqn)
      && (Behind(n.pd, f.sqn, f.session) || (f.sqn == 1 && Lagging(n.pd) && f.session == None))
    else
      && (n.cmdSlot == None || n.cmdSlot == Some(f.wire))
      && (|| (n.done == n.runs && Stale(a, cfg, n, f)
              && (Behind(n.pd, f.sqn, f.session) || (f.sqn == 1 && Lagging(n.pd) && f.session == None)))
          || (&& (exists m: Msg :: Answered(a, cfg, n.pd, f, m) && n.runs == n.done + [(f.cmd, m)])
              && (|| (Replying(n.pd, f) && Stale(a, cfg, n, f))
                  || (Caught(n.pd, f) && (n.replySlot == None || n.replySlot == Some(n.pd.txBuf))))))
  }

  // Nothing outstanding: both ends at the same number with the same session and the same history.
  predicate Settled(n: Net) {
    && n.done == n.runs && 0 <= n.cp.sqn
    && OldCommand(n, n.cp.sqn)
    && (|| (!n.pd.prebuilt && n.pd.sqn == n.cp.sqn && n.pd.session == n.cp.session)
        || (n.cp.sqn == 0 && Lagging(n.pd) && n.cp.session == None))
  }

  ghost predicate SyncedInv(a: Algorithms, cfg: Config, n: Net)
    requires a.Valid() && cfg.Valid() && Bounded(n)
  {
    match n.flight
    case None => Settled(n) && CpFree(cfg, n.cp)
    case Some(f) =>
      FlightOk(a, cfg, f) && f.sqn > 0 && (CpAlive(n.cp, f) || CpDead(n.cp, f)) && PdSynced(a, cfg, n, f)
  }

  // Has the device answered on sequence 0, or is it about to?
  predicate AtZero(pd: PdState) {
    pd.session == None && ((pd.sqn == 0 && !pd.prebuilt) || (pd.sqn == -1 && pd.prebuilt))
  }

  // Since the restart nothing has been answered: the panel is on sequence 0 without a session, and
  // nothing is known of the device but its shape.
  ghost predicate RestartedInv(a: Algorithms, cfg: Config, n: Net)
    requires a.Valid() && cfg.Valid() && Bounded(n)
  {
    && n.cp.sqn == -1 && n.cp.session == None && n.done == n.runs == []
    && match n.flight
       case None => CpFree(cfg, n.cp)
       case Some(f) =>
         && FlightOk(a, cfg, f) && f.sqn == 0 && (CpAlive(n.cp, f) || CpDead(n.cp, f))
         && (f.sent ==>
               && (n.cmdSlot == None || n.cmdSlot == Some(f.wire))
               && (n.replySlot.Some? ==>
                     exists t: int :: PdWire(a, cfg, n.replySlot.value, t) && (t == 0 ==> AtZero(n.pd))))
  }

  ghost predicate Inv(a: Algorithms, cfg: Config, n: Net)
    requires a.Valid() && cfg.Valid()
  {
    && Bounded(n) && PdShape(a, cfg, n.pd)
    && (n.last.Some? ==> FlightOk(a, cfg, n.last.value))
    && (if n.synced then SyncedInv(a, cfg, n) else RestartedInv(a, cfg, n))
  }
}
