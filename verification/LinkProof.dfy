// Every step keeps the link invariant.
module LinkProof {
  import opened Bytes
  import opened SecureChannel
  import opened Packet
  import opened PacketRoundTrip
  import opened Link
  import opened LinkFacts
  import opened LinkRun

  // ---- Device steps ----

  lemma FitsAfter(cfg: Config, pd: PdState, pd': PdState, m: Msg)
    requires pd'.session.Some? ==> pd.session.Some?
    ensures WireLen(PdEnd(cfg, pd', cfg.mark), m, 0) <= WireLen(PdEnd(cfg, pd, cfg.mark), m, 0)
  {
  }

  // Whatever a device is sent, its cache and parked reply stay what they claim to be, and anything
  // it sends is numbered by the sequence number it ends up with.
  lemma PdKeepsShape(a: Algorithms, cfg: Config, pd: PdState, send: SendRc, rx: Option<seq<byte>>, reply: Msg)
    requires a.Valid() && cfg.Valid() && PdShape(a, cfg, pd) && ReplyOk(reply) && send != Broken
    ensures var st := PdUpdate(a, cfg, pd, send, rx, reply);
            && PdShape(a, cfg, st.pd)
            && (st.tx.Some? ==> !st.pd.prebuilt && PdWire(a, cfg, st.tx.value, st.pd.sqn))
  {
    hide PdWire, Build, PdReceive;
    if !pd.prebuilt && rx.Some? {
      PdReceiveShape(a, cfg, pd, rx.value, reply);
      match PdReceive(a, cfg, pd, rx.value, reply)
      case Ignore(_) =>
      case Repeat =>
        assert pd.txBuf[..|pd.txBuf|] == pd.txBuf;
      case Answer(pd', m, mark, _) =>
        if Build(a, PdEnd(cfg, pd', mark), m, 0, cfg.pdMax).Some? {
          PdBuilds(a, cfg, pd', mark, m);
          BuildKeepsPlain(a, PdEnd(cfg, pd', mark), m, cfg.pdMax);
        }
    }
  }

  // A link without a session stays without one through a build; a command's build moves only C-MAC.
  lemma BuildKeepsPlain(a: Algorithms, e: End, m: Msg, maxLen: int)
    requires a.Valid() && e.Valid() && Build(a, e, m, 0, maxLen).Some?
    ensures e.session == None ==> Build(a, e, m, 0, maxLen).value.1 == None
    ensures e.role == Cp ==> SameChain(e.session, Build(a, e, m, 0, maxLen).value.1)
  {
    hide CheckBytes, Image, MacChain, CbcEncrypt;
  }

  lemma PdReceiveShape(a: Algorithms, cfg: Config, pd: PdState, w: seq<byte>, reply: Msg)
    requires a.Valid() && cfg.Valid() && PdShape(a, cfg, pd) && !pd.prebuilt && ReplyOk(reply)
    ensures match PdReceive(a, cfg, pd, w, reply)
            case Ignore(pd') => PdShape(a, cfg, pd') && !pd'.prebuilt
            case Repeat => pd.cacheLen > 0
            case Answer(pd', m, _, _) =>
              && -1 <= pd'.sqn <= 3 && (pd'.sqn <= 0 ==> pd'.session == None) && !pd'.prebuilt && m.id != REPLY_BUSY
  {
    hide PdWire, Intact, ValidateHeader, DecodeSecure;
  }

  // A command taken in is answered, or its answer parked.
  lemma PdRuns(a: Algorithms, cfg: Config, pd: PdState, pd': PdState, w: seq<byte>, send: SendRc, cmd: Msg, reply: Msg)
    returns (built: PdState)
    requires a.Valid() && cfg.Valid() && -1 <= pd.sqn <= 3 && !pd.prebuilt
    requires -1 <= pd'.sqn <= 3 && (pd'.session.Some? ==> pd.session.Some?)
    requires PdReceive(a, cfg, pd, w, reply) == Answer(pd', reply, cfg.mark, Some(cmd))
    requires WireLen(PdEnd(cfg, pd, cfg.mark), reply, 0) <= cfg.pdMax
    ensures built == pd'.(txBuf := built.txBuf, prebuilt := true, session := built.session) && |built.txBuf| > 0
    ensures Build(a, PdEnd(cfg, pd', cfg.mark), reply, 0, cfg.pdMax) == Some((built.txBuf, built.session))
    ensures PdUpdate(a, cfg, pd, send, Some(w), reply) == PdSend(built, send, Some(cmd))
  {
    hide Build, PdReceive;
    FitsAfter(cfg, pd, pd', reply);
    BuildFits(a, PdEnd(cfg, pd', cfg.mark), reply, 0, cfg.pdMax);
    var p := Build(a, PdEnd(cfg, pd', cfg.mark), reply, 0, cfg.pdMax).value;
    built := pd'.(txBuf := p.0, prebuilt := true, session := p.1);
  }

  // The device takes the outstanding command in: the handler has run once, and its reply is parked
  // or on its way.
  lemma PdAnswersFlight(a: Algorithms, cfg: Config, n: Net, f: Flight, send: SendRc, reply: Msg)
    requires a.Valid() && cfg.Valid() && Inv(a, cfg, n) && n.synced && n.flight == Some(f) && f.sent
    requires Behind(n.pd, f.sqn, f.session) && n.cmdSlot == Some(f.wire) && n.done == n.runs && Stale(a, cfg, n, f)
    requires Allowed(cfg, n, PdTick(send, reply))
    ensures Bounded(PdTicked(a, cfg, n, send, reply))
    ensures SyncedInv(a, cfg, PdTicked(a, cfg, n, send, reply))
  {
    hide Build, PdReceive, PdUpdate, PdWire, PdShape, CpAlive, CpDead, FlightOk, SameChain, WireLen, WireSeq;
    PdTakes(a, cfg, f, n.pd, reply);
    SameChainSome(n.pd.session, f.session);
    WireSeqOf(a, cfg, f);
    var pd' := n.pd.(session := f.session, cmdId := f.cmd.id);
    var built := PdRuns(a, cfg, n.pd, pd', f.wire, send, f.cmd, reply);
    ReplyRebuild(a, PdEnd(cfg, pd', cfg.mark), ReplyEnd(cfg, f), reply, cfg.pdMax);
    var n' := PdTicked(a, cfg, n, send, reply);
    assert Answered(a, cfg, n'.pd, f, reply) && n'.runs == n'.done + [(f.cmd, reply)];
  }

  lemma SameChainSome(s: Option<Session>, t: Option<Session>)
    requires SameChain(s, t)
    ensures s.Some? == t.Some?
  {
  }

  lemma WireSeqOf(a: Algorithms, cfg: Config, f: Flight)
    requires a.Valid() && cfg.Valid() && FlightOk(a, cfg, f)
    ensures WireSeq(cfg, f.wire) == f.sqn
  {
    hide Finalize, Init, Intact;
    PacketFields(a, FlightEnd(cfg, f), f.cmd, 0, cfg.cpMax - MarkLen(cfg.mark));
    var pkt := Finalize(a, FlightEnd(cfg, f), Init(FlightEnd(cfg, f), f.cmd, 0), cfg.cpMax - MarkLen(cfg.mark)).value.0;
    assert f.wire == WithMark(cfg.mark, pkt);
    assert f.wire[MarkLen(cfg.mark)..][4] == pkt[4];
  }

  // A sequence-0 command left over from the restart is run again, and leaves the device at zero.
  lemma PdRestarted(a: Algorithms, cfg: Config, pd: PdState, f: Flight, send: SendRc, reply: Msg)
    requires a.Valid() && cfg.Valid() && FlightOk(a, cfg, f) && f.sqn == 0
    requires -1 <= pd.sqn <= 3 && !pd.prebuilt && send != Broken
    requires WireLen(PdEnd(cfg, pd, cfg.mark), reply, 0) <= cfg.pdMax
    ensures AtZero(PdUpdate(a, cfg, pd, send, Some(f.wire), reply).pd)
    ensures WireSeq(cfg, f.wire) == 0
  {
    hide Build, PdReceive, PdUpdate, FlightOk, WireLen, WireSeq;
    PdRestarts(a, cfg, f, pd, reply);
    WireSeqOf(a, cfg, f);
    var pd' := pd.(sqn := -1, cacheLen := 0, session := None, cmdId := f.cmd.id);
    var built := PdRuns(a, cfg, pd, pd', f.wire, send, f.cmd, reply);
    BuildKeepsPlain(a, PdEnd(cfg, pd', cfg.mark), reply, cfg.pdMax);
  }

  // The previous command, still in the slot, changes nothing but what waits in the reply slot.
  lemma PdOldCommand(a: Algorithms, cfg: Config, n: Net, base: int, send: SendRc, reply: Msg)
    requires a.Valid() && cfg.Valid() && Inv(a, cfg, n) && Allowed(cfg, n, PdTick(send, reply))
    requires !n.pd.prebuilt && n.pd.sqn == base && n.cmdSlot.Some? && OldCommand(n, base)
    ensures var n' := PdTicked(a, cfg, n, send, reply);
            && n'.runs == n.runs && Bounded(n')
            && (n'.pd == n.pd || (base == 0 && AtZero(n'.pd)))
  {
    hide Build, PdReceive, PdWire, WireLen, WireSeq;
    var l := n.last.value;
    if l.sqn == 0 {
      PdRestarted(a, cfg, n.pd, l, send, reply);
    } else {
      PdRepeats(a, cfg, l, n.pd, reply);
    }
  }

  lemma PdStepSettled(a: Algorithms, cfg: Config, n: Net, send: SendRc, reply: Msg)
    requires a.Valid() && cfg.Valid() && Inv(a, cfg, n) && Allowed(cfg, n, PdTick(send, reply))
    requires n.synced && n.flight == None
    ensures Bounded(PdTicked(a, cfg, n, send, reply)) && SyncedInv(a, cfg, PdTicked(a, cfg, n, send, reply))
  {
    hide PdReceive, PdWire, FlightOk, WireLen, WireSeq, Build;
    if !n.pd.prebuilt && n.cmdSlot.Some? {
      PdOldCommand(a, cfg, n, n.cp.sqn, send, reply);
    }
  }

  lemma PdStepUnsent(a: Algorithms, cfg: Config, n: Net, f: Flight, send: SendRc, reply: Msg)
    requires a.Valid() && cfg.Valid() && Inv(a, cfg, n) && Allowed(cfg, n, PdTick(send, reply))
    requires n.synced && n.flight == Some(f) && !f.sent
    ensures Bounded(PdTicked(a, cfg, n, send, reply)) && SyncedInv(a, cfg, PdTicked(a, cfg, n, send, reply))
  {
    hide PdReceive, PdWire, FlightOk, WireLen, WireSeq, Build, CpAlive, CpDead;
    if !n.pd.prebuilt && n.cmdSlot.Some? {
      PdOldCommand(a, cfg, n, n.pd.sqn, send, reply);
    }
  }

  lemma PdWireNonEmpty(a: Algorithms, cfg: Config, w: seq<byte>, t: int)
    requires a.Valid() && cfg.Valid() && PdWire(a, cfg, w, t)
    ensures |w| > 0
  {
  }

  lemma PdStepSent(a: Algorithms, cfg: Config, n: Net, f: Flight, send: SendRc, reply: Msg)
    requires a.Valid() && cfg.Valid() && Inv(a, cfg, n) && Allowed(cfg, n, PdTick(send, reply))
    requires n.synced && n.flight == Some(f) && f.sent
    ensures Bounded(PdTicked(a, cfg, n, send, reply)) && SyncedInv(a, cfg, PdTicked(a, cfg, n, send, reply))
  {
    hide PdReceive, PdWire, FlightOk, WireLen, WireSeq, Build, CpAlive, CpDead;
    var n' := PdTicked(a, cfg, n, send, reply);
    if Behind(n.pd, f.sqn, f.session) && n.done == n.runs {
      if n.cmdSlot.Some? {
        PdAnswersFlight(a, cfg, n, f, send, reply);
      }
    } else if Lagging(n.pd) && n.done == n.runs {
      if send == Sent {
        assert PdWire(a, cfg, n'.replySlot.value, 0);
      }
    } else {
      var m: Msg :| Answered(a, cfg, n.pd, f, m) && n.runs == n.done + [(f.cmd, m)];
      if Replying(n.pd, f) {
        PdWireNonEmpty(a, cfg, n.pd.txBuf, f.sqn);
      } else if n.cmdSlot.Some? {
        PdRepeats(a, cfg, f, n.pd, reply);
        assert n.pd.txBuf[..|n.pd.txBuf|] == n.pd.txBuf;
      }
      assert Answered(a, cfg, n'.pd, f, m) && n'.runs == n'.done + [(f.cmd, m)];
    }
  }

  lemma PdStepRestarted(a: Algorithms, cfg: Config, n: Net, send: SendRc, reply: Msg)
    requires a.Valid() && cfg.Valid() && Inv(a, cfg, n) && Allowed(cfg, n, PdTick(send, reply)) && !n.synced
    ensures Bounded(PdTicked(a, cfg, n, send, reply)) && RestartedInv(a, cfg, PdTicked(a, cfg, n, send, reply))
  {
    hide PdReceive, PdWire, FlightOk, WireLen, WireSeq, Build, CpAlive, CpDead, CpFree, PdUpdate;
    PdKeepsShape(a, cfg, n.pd, send, n.cmdSlot, reply);
    var n' := PdTicked(a, cfg, n, send, reply);
    if n.flight.Some? && n.flight.value.sent && n'.replySlot.Some? {
      if PdUpdate(a, cfg, n.pd, send, n.cmdSlot, reply).tx.Some? {
        assert PdWire(a, cfg, n'.replySlot.value, n'.pd.sqn);
      } else {
        var t: int :| PdWire(a, cfg, n.replySlot.value, t) && (t == 0 ==> AtZero(n.pd));
        if t == 0 {
          PdStaysAtZero(a, cfg, n, send, reply);
        }
      }
    }
  }

  lemma PdStaysAtZero(a: Algorithms, cfg: Config, n: Net, send: SendRc, reply: Msg)
    requires a.Valid() && cfg.Valid() && Inv(a, cfg, n) && Allowed(cfg, n, PdTick(send, reply)) && !n.synced
    requires n.flight.Some? && n.flight.value.sent && AtZero(n.pd)
    ensures AtZero(PdTicked(a, cfg, n, send, reply).pd)
  {
    hide PdReceive, PdWire, FlightOk, WireLen, WireSeq, Build, CpAlive, CpDead;
    if !n.pd.prebuilt && n.cmdSlot.Some? {
      PdRestarted(a, cfg, n.pd, n.flight.value, send, reply);
    }
  }

  lemma PdStepKeeps(a: Algorithms, cfg: Config, n: Net, send: SendRc, reply: Msg)
    requires a.Valid() && cfg.Valid() && Inv(a, cfg, n) && Allowed(cfg, n, PdTick(send, reply))
    ensures Inv(a, cfg, PdTicked(a, cfg, n, send, reply))
  {
    hide PdUpdate, PdShape, FlightOk, WireLen, WireSeq, SyncedInv, RestartedInv;
    PdKeepsShape(a, cfg, n.pd, send, n.cmdSlot, reply);
    if !n.synced {
      PdStepRestarted(a, cfg, n, send, reply);
    } else if n.flight == None {
      PdStepSettled(a, cfg, n, send, reply);
    } else if n.flight.value.sent {
      PdStepSent(a, cfg, n, n.flight.value, send, reply);
    } else {
      PdStepUnsent(a, cfg, n, n.flight.value, send, reply);
    }
  }

  // ---- Panel steps ----

  // The first build of a command that fits makes its flight.
  lemma CpBuilds(a: Algorithms, cfg: Config, cp: CpState, sent: bool) returns (cp': CpState, f: Flight)
    requires a.Valid() && cfg.Valid() && -1 <= cp.sqn <= 3 && CmdOk(cp.cmd)
    requires WireLen(CpEnd(cfg, cp), cp.cmd, 0) <= cfg.cpMax && (cp.sqn < 0 ==> cp.session == None)
    ensures CpBuild(a, cfg, cp) == Some(cp')
    ensures cp' == cp.(phase := SendCmdWait, buf := f.wire, session := f.session, txSqn := f.sqn)
    ensures f.cmd == cp.cmd && f.sqn == NextSeq(cp.sqn) && f.sent == sent && SameChain(cp.session, f.session)
    ensures FlightOk(a, cfg, f)
  {
    hide Build, WireLen;
    BuildFits(a, CpEnd(cfg, cp), cp.cmd, 0, cfg.cpMax);
    BuildKeepsPlain(a, CpEnd(cfg, cp), cp.cmd, cfg.cpMax);
    cp' := CpBuild(a, cfg, cp).value;
    f := Flight(cp.cmd, cp'.txSqn, cp'.buf, cp'.session, sent);
    RebuildIdentical(a, CpEnd(cfg, cp), FlightEnd(cfg, f), cp.cmd, cfg.cpMax);
  }

  // A retry goes out with the bytes of the first transmission.
  lemma CpRebuilds(a: Algorithms, cfg: Config, cp: CpState, f: Flight)
    requires a.Valid() && cfg.Valid() && FlightOk(a, cfg, f) && CpAlive(cp, f) && -1 <= cp.sqn <= 3
    ensures CpBuild(a, cfg, cp.(sqn := cp.txSqn - 1, phase := SendCmd))
         == Some(cp.(sqn := f.sqn - 1, phase := SendCmdWait, buf := f.wire))
  {
    hide Build;
    assert CpEnd(cfg, cp.(sqn := cp.txSqn - 1, phase := SendCmd)) == FlightEnd(cfg, f);
  }

  // The step that builds a command for the first time makes its flight.
  lemma CpFirsts(a: Algorithms, cfg: Config, n: Net, now: nat, send: SendRc, app: AppRc) returns (f: Flight)
    requires a.Valid() && cfg.Valid() && Bounded(n) && n.cp.phase == SendCmd && !n.cp.linkReset && CmdOk(n.cp.cmd)
    requires WireLen(CpEnd(cfg, n.cp), n.cp.cmd, 0) <= cfg.cpMax && (n.cp.sqn < 0 ==> n.cp.session == None)
    ensures var n' := CpTicked(a, cfg, n, now, send, app);
            && n' == n.(cp := n'.cp, cmdSlot := if send == Sent then Some(f.wire) else n.cmdSlot, replySlot := None,
                        flight := Some(f))
            && Bounded(n') && n'.cp.sqn == n.cp.sqn && n'.cp.session == f.session
            && FlightOk(a, cfg, f) && f.sqn == NextSeq(n.cp.sqn) && SameChain(n.cp.session, f.session)
            && (f.sent <==> send == Sent) && (CpAlive(n'.cp, f) || CpDead(n'.cp, f))
  {
    hide CpBuild, FlightOk, WireLen;
    var cp';
    cp', f := CpBuilds(a, cfg, n.cp, send == Sent);
  }

  lemma CpStepFirst(a: Algorithms, cfg: Config, n: Net, now: nat, send: SendRc, app: AppRc)
    requires a.Valid() && cfg.Valid() && Inv(a, cfg, n) && n.cp.phase == SendCmd
    ensures Inv(a, cfg, CpTicked(a, cfg, n, now, send, app))
  {
    hide CpTicked, FlightOk, PdShape, PdWire, WireLen, CpAlive, CpDead;
    FreeToSend(a, cfg, n);
    var f := CpFirsts(a, cfg, n, now, send, app);
    var n' := CpTicked(a, cfg, n, now, send, app);
    if n.synced {
      assert SyncedInv(a, cfg, n');
    } else {
      assert RestartedInv(a, cfg, n');
    }
  }

  lemma FreeToSend(a: Algorithms, cfg: Config, n: Net)
    requires a.Valid() && cfg.Valid() && Inv(a, cfg, n) && n.cp.phase == SendCmd
    ensures n.flight == None && !n.cp.linkReset && CmdOk(n.cp.cmd) && WireLen(CpEnd(cfg, n.cp), n.cp.cmd, 0) <= cfg.cpMax
    ensures n.cp.sqn < 0 ==> n.cp.session == None
  {
    hide PdShape, FlightOk, PdSynced, OldCommand, WireLen;
  }

  // What is put on the line again, or first, for a command whose flight there is.
  lemma CpResends(a: Algorithms, cfg: Config, n: Net, f: Flight, now: nat, send: SendRc, app: AppRc)
    requires a.Valid() && cfg.Valid() && Bounded(n) && n.flight == Some(f) && FlightOk(a, cfg, f) && CpAlive(n.cp, f)
    requires n.cp.phase == RetryCmd || n.cp.phase == SendCmdWait
    ensures var n' := CpTicked(a, cfg, n, now, send, app);
            var f' := f.(sent := f.sent || send == Sent);
            && n' == n.(cp := n'.cp, cmdSlot := if send == Sent then Some(f.wire) else n.cmdSlot, replySlot := None,
                        flight := Some(f'))
            && Bounded(n') && n'.cp.sqn <= 3 && (n'.cp.sqn == n.cp.sqn || n'.cp.sqn == f.sqn - 1)
            && n'.cp.session == n.cp.session && (CpAlive(n'.cp, f') || CpDead(n'.cp, f'))
  {
    hide CpBuild, FlightOk;
    FlightNumber(a, cfg, f);
    if n.cp.phase == RetryCmd {
      CpRebuilds(a, cfg, n.cp, f);
    }
  }

  // What receiving and sending leave alone.
  lemma ReceiveShape(a: Algorithms, cfg: Config, cp: CpState, now: nat, app: AppRc, rx: Option<seq<byte>>)
    requires a.Valid() && cfg.Valid() && -1 <= cp.sqn <= 3
    ensures var st := CpReceive(a, cfg, cp, now, app, rx);
            && st.tx == None && !st.flush && st.cp.cmd == cp.cmd
            && (st.accepted.Some? ==> rx.Some? && st.cp.phase in {Done, PhyErr})
  {
    hide CheckPacket, Decode, ValidateHeader;
  }

  lemma TransmitShape(cfg: Config, cp: CpState, now: nat, send: SendRc)
    requires cfg.Valid()
    ensures var st := CpSend(cfg, cp, now, send);
            st.accepted == None && st.cp.cmd == cp.cmd && (st.tx.Some? ==> st.tx == Some(cp.buf))
  {
  }

  lemma SendShape(a: Algorithms, cfg: Config, cp: CpState, now: nat, send: SendRc)
    requires a.Valid() && cfg.Valid() && -1 <= cp.sqn <= 3
    ensures var st := CpBuildAndSend(a, cfg, cp, now, send);
            && st.accepted == None && st.cp.cmd == cp.cmd && (st.tx.Some? ==> CpBuild(a, cfg, cp).Some? && st.tx == Some(CpBuild(a, cfg, cp).value.buf))
  {
    hide Build, CpSend;
    match CpBuild(a, cfg, cp)
    case None =>
    case Some(cp') => TransmitShape(cfg, cp', now, send);
  }

  lemma FlightNumber(a: Algorithms, cfg: Config, f: Flight)
    requires a.Valid() && cfg.Valid() && FlightOk(a, cfg, f)
    ensures 0 <= f.sqn <= 3 && (f.sqn == 0 ==> f.session == None)
    ensures forall sent: bool :: FlightOk(a, cfg, f.(sent := sent))
  {
    hide Build;
  }

  lemma CpStepResend(a: Algorithms, cfg: Config, n: Net, now: nat, send: SendRc, app: AppRc)
    requires a.Valid() && cfg.Valid() && Inv(a, cfg, n) && (n.cp.phase == RetryCmd || n.cp.phase == SendCmdWait)
    ensures Inv(a, cfg, CpTicked(a, cfg, n, now, send, app))
  {
    hide CpTicked, FlightOk, PdShape, PdWire, WireLen, SameChain, CpAlive, CpDead;
    Outstanding(a, cfg, n);
    var f := n.flight.value;
    CpResends(a, cfg, n, f, now, send, app);
    FlightNumber(a, cfg, f);
    var n' := CpTicked(a, cfg, n, now, send, app);
    if n.synced {
      assert SyncedInv(a, cfg, n');
    } else {
      assert RestartedInv(a, cfg, n');
    }
  }

  lemma Outstanding(a: Algorithms, cfg: Config, n: Net)
    requires a.Valid() && cfg.Valid() && Inv(a, cfg, n)
    requires n.cp.phase == RetryCmd || n.cp.phase == SendCmdWait || n.cp.phase == ReplyWait || n.cp.phase == Wait
    ensures n.flight.Some? && FlightOk(a, cfg, n.flight.value) && CpAlive(n.cp, n.flight.value)
  {
    hide PdShape, FlightOk, PdSynced, Settled, WireLen;
  }

  // The reply of the outstanding command is taken for what the device answered, and settles it.
  lemma CpStepReplySynced(a: Algorithms, cfg: Config, n: Net, now: nat, send: SendRc, app: AppRc)
    requires a.Valid() && cfg.Valid() && Inv(a, cfg, n) && n.synced && n.cp.phase == ReplyWait && n.replySlot.Some?
    requires app != AppRetry
    ensures Inv(a, cfg, CpTicked(a, cfg, n, now, send, app))
  {
    hide ProcessReply, FlightOk, PdShape, PdWire, WireLen, Build;
    var f := n.flight.value;
    var n' := CpTicked(a, cfg, n, now, send, app);
    if Caught(n.pd, f) && n.replySlot == Some(n.pd.txBuf) && n.runs != n.done {
      var m: Msg :| Answered(a, cfg, n.pd, f, m) && n.runs == n.done + [(f.cmd, m)];
      CpTakes(a, cfg, f, n.cp, m, n.pd.txBuf, n.pd.session);
      BuildKeepsPlain(a, ReplyEnd(cfg, f), m, cfg.pdMax);
      assert ([m.id] + m.data)[1..] == m.data;
      assert Answered(a, cfg, n'.pd, f, m) && n.runs == n.done + [(f.cmd, m)];
    } else {
      CpRejects(a, cfg, n.cp, n.replySlot.value, 0);
      if n.runs != n.done {
        var m: Msg :| Answered(a, cfg, n.pd, f, m) && n.runs == n.done + [(f.cmd, m)];
        assert Answered(a, cfg, n'.pd, f, m) && n'.runs == n'.done + [(f.cmd, m)];
      }
    }
  }

  // After a restart, the first reply on sequence 0 brings the two ends together, whichever
  // sequence-0 command it was meant for.
  lemma CpStepReplyRestarted(a: Algorithms, cfg: Config, n: Net, now: nat, send: SendRc, app: AppRc)
    requires a.Valid() && cfg.Valid() && Inv(a, cfg, n) && !n.synced && n.cp.phase == ReplyWait && n.replySlot.Some?
    requires app != AppRetry
    ensures Inv(a, cfg, CpTicked(a, cfg, n, now, send, app))
  {
    hide ProcessReply, FlightOk, PdShape, PdWire, WireLen, Build;
    var t: int :| PdWire(a, cfg, n.replySlot.value, t) && (t == 0 ==> AtZero(n.pd));
    if t == 0 {
      CpPlain(a, cfg, n.cp, n.replySlot.value, t);
    } else {
      CpRejects(a, cfg, n.cp, n.replySlot.value, t);
    }
  }

  lemma CpStepKeeps(a: Algorithms, cfg: Config, n: Net, now: nat, send: SendRc, app: AppRc)
    requires a.Valid() && cfg.Valid() && Inv(a, cfg, n) && app != AppRetry
    ensures Inv(a, cfg, CpTicked(a, cfg, n, now, send, app))
  {
    if n.cp.phase == SendCmd {
      CpStepFirst(a, cfg, n, now, send, app);
    } else if n.cp.phase == RetryCmd || n.cp.phase == SendCmdWait {
      CpStepResend(a, cfg, n, now, send, app);
    } else if n.cp.phase == ReplyWait && n.replySlot.Some? {
      if n.synced {
        CpStepReplySynced(a, cfg, n, now, send, app);
      } else {
        CpStepReplyRestarted(a, cfg, n, now, send, app);
      }
    } else {
      CpStepQuiet(a, cfg, n, now, send, app);
    }
  }

  // Moves of the panel between its own phases leave everything else as it was.
  lemma PhaseMove(a: Algorithms, cfg: Config, n: Net, cp': CpState)
    requires a.Valid() && cfg.Valid() && Inv(a, cfg, n)
    requires cp'.sqn == n.cp.sqn && cp'.session == n.cp.session && 0 <= cp'.txSqn <= 3
    requires n.flight == None ==> CpFree(cfg, cp')
    requires n.flight.Some? ==> CpAlive(cp', n.flight.value) || CpDead(cp', n.flight.value)
    ensures Inv(a, cfg, n.(cp := cp'))
  {
    hide FlightOk, PdShape, PdWire, CpAlive, CpDead, CpFree;
    var n' := n.(cp := cp');
    if n.synced {
      if n.flight.Some? {
        assert PdSynced(a, cfg, n', n.flight.value);
      }
      assert SyncedInv(a, cfg, n');
    } else {
      assert RestartedInv(a, cfg, n');
    }
  }

  lemma CpStepQuiet(a: Algorithms, cfg: Config, n: Net, now: nat, send: SendRc, app: AppRc)
    requires a.Valid() && cfg.Valid() && Inv(a, cfg, n)
    requires n.cp.phase != SendCmd && n.cp.phase != RetryCmd && n.cp.phase != SendCmdWait
    requires n.cp.phase == ReplyWait ==> n.replySlot == None
    ensures Inv(a, cfg, CpTicked(a, cfg, n, now, send, app))
  {
    hide FlightOk, PdShape, PdWire, WireLen, Build, PdSynced, Settled;
    var n' := CpTicked(a, cfg, n, now, send, app);
    assert n' == n.(cp := n'.cp);
    PhaseMove(a, cfg, n, n'.cp);
  }

  // Losing a packet is never worse than the other end being slow.
  lemma LossKeeps(a: Algorithms, cfg: Config, n: Net, n': Net)
    requires a.Valid() && cfg.Valid() && Inv(a, cfg, n)
    requires n' == n.(cmdSlot := None) || n' == n.(replySlot := None)
    ensures Inv(a, cfg, n')
  {
    hide FlightOk, PdShape, PdWire, CpAlive, CpDead, CpFree;
    if n.synced {
      if n.flight.Some? {
        assert PdSynced(a, cfg, n', n.flight.value);
      }
      assert SyncedInv(a, cfg, n');
    } else {
      assert RestartedInv(a, cfg, n');
    }
  }

  // An exchange left behind with nothing outstanding, or on sequence 0, leaves no trace.
  lemma GiveUpKeeps(a: Algorithms, cfg: Config, n: Net)
    requires a.Valid() && cfg.Valid() && Inv(a, cfg, n) && Allowed(cfg, n, CpAbandon)
    ensures Inv(a, cfg, NextNet(a, cfg, n, CpAbandon))
  {
    hide FlightOk, PdShape, PdWire, PdSynced, WireLen;
  }

  lemma StepKeeps(a: Algorithms, cfg: Config, n: Net, step: Step)
    requires a.Valid() && cfg.Valid() && Inv(a, cfg, n) && Allowed(cfg, n, step)
    ensures Inv(a, cfg, NextNet(a, cfg, n, step))
  {
    hide FlightOk, PdShape, PdWire, Build, CpTicked, PdTicked, PdSynced, Settled;
    match step
    case CpTick(now, send, app) => CpStepKeeps(a, cfg, n, now, send, app);
    case PdTick(send, reply) => PdStepKeeps(a, cfg, n, send, reply);
    case CpChoose(m) => PhaseMove(a, cfg, n, CpIssue(n.cp, m));
    case CpAbandon => GiveUpKeeps(a, cfg, n);
    case CpReset =>
    case LoseCmd => LossKeeps(a, cfg, n, n.(cmdSlot := None));
    case LoseReply => LossKeeps(a, cfg, n, n.(replySlot := None));
  }
}
