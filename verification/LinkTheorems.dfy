// What the link promises over every run: each command is carried out once, its own reply comes
// back, and a secure session never falls out of step.
module LinkTheorems {
  import opened Bytes
  import opened SecureChannel
  import opened Packet
  import opened PacketRoundTrip
  import opened Link
  import opened LinkFacts
  import opened LinkRun
  import opened LinkProof

  // The panel has just restarted the link; the device may be anywhere.
  ghost predicate FreshStart(a: Algorithms, cfg: Config, n: Net)
    requires a.Valid() && cfg.Valid()
  {
    && Bounded(n) && PdShape(a, cfg, n.pd)
    && n.cp.phase == Idle && n.cp.sqn == -1 && n.cp.session == None && !n.cp.linkReset
    && !n.synced && n.flight == None && n.last == None && n.done == n.runs == []
  }

  // Link up, plain or under a session both ends agree on; nothing in flight.
  ghost predicate Established(a: Algorithms, cfg: Config, n: Net)
    requires a.Valid() && cfg.Valid()
  {
    && Bounded(n) && PdShape(a, cfg, n.pd)
    && n.cp.phase == Idle && !n.cp.linkReset && !n.pd.prebuilt
    && n.cp.sqn == n.pd.sqn && 1 <= n.pd.sqn && n.cp.session == n.pd.session
    && n.cmdSlot == None && n.replySlot == None
    && n.synced && n.flight == None && n.last == None && n.done == n.runs == []
  }

  ghost predicate Trace(a: Algorithms, cfg: Config, ns: seq<Net>, steps: seq<Step>)
    requires a.Valid() && cfg.Valid()
  {
    && |ns| == |steps| + 1
    && (FreshStart(a, cfg, ns[0]) || Established(a, cfg, ns[0]))
    && forall i :: 0 <= i < |steps| ==> Follows(a, cfg, ns[i], steps[i], ns[i + 1])
  }

  ghost predicate Follows(a: Algorithms, cfg: Config, n: Net, step: Step, n': Net)
    requires a.Valid() && cfg.Valid()
  {
    Bounded(n) ==> Allowed(cfg, n, step) && n' == NextNet(a, cfg, n, step)
  }

  lemma {:induction false} RunKeepsInv(a: Algorithms, cfg: Config, ns: seq<Net>, steps: seq<Step>, i: nat)
    requires a.Valid() && cfg.Valid() && Trace(a, cfg, ns, steps) && i < |ns|
    ensures Inv(a, cfg, ns[i])
  {
    hide PdShape, SyncedInv, NextNet, Allowed;
    if i == 0 {
      StartInv(a, cfg, ns[0]);
    } else {
      RunKeepsInv(a, cfg, ns, steps, i - 1);
      assert Follows(a, cfg, ns[i - 1], steps[i - 1], ns[i]);
      StepKeeps(a, cfg, ns[i - 1], steps[i - 1]);
    }
  }

  lemma StartInv(a: Algorithms, cfg: Config, n: Net)
    requires a.Valid() && cfg.Valid() && (FreshStart(a, cfg, n) || Established(a, cfg, n))
    ensures Inv(a, cfg, n)
  {
  }

  // Exactly once: what the panel has completed is a prefix of what the device's handler was run
  // for, with the very replies the handler gave, and the handler is at most one command ahead.
  lemma ExactlyOnce(a: Algorithms, cfg: Config, ns: seq<Net>, steps: seq<Step>, i: nat)
    requires a.Valid() && cfg.Valid() && Trace(a, cfg, ns, steps) && i < |ns|
    ensures ns[i].done <= ns[i].runs && |ns[i].runs| <= |ns[i].done| + 1
    ensures ns[i].flight == None ==> ns[i].runs == ns[i].done
    ensures ns[i].runs != ns[i].done ==> ns[i].runs[|ns[i].done|].0 == ns[i].flight.value.cmd
  {
    hide PdShape, FlightOk, CpAlive, CpDead, CpFree, Stale, OldCommand;
    RunKeepsInv(a, cfg, ns, steps, i);
  }

  // Lockstep: while a command is outstanding the device is one number behind it or exactly on it
  // (or, just after a restart, still sending its answer to the restart).
  lemma Lockstep(a: Algorithms, cfg: Config, ns: seq<Net>, steps: seq<Step>, i: nat)
    requires a.Valid() && cfg.Valid() && Trace(a, cfg, ns, steps) && i < |ns|
    requires ns[i].synced && ns[i].flight.Some?
    ensures var f, pd := ns[i].flight.value, ns[i].pd;
            && NextSeq(ns[i].cp.txSqn - 1) == ns[i].cp.txSqn
            && (CpAlive(ns[i].cp, f) ==> ns[i].cp.txSqn == f.sqn)
            && (|| (0 <= pd.sqn && NextSeq(pd.sqn) == f.sqn) || pd.sqn == f.sqn || (f.sqn == 1 && Lagging(pd)))
  {
    hide PdShape, FlightOk, CpFree, Stale, OldCommand, Answered;
    RunKeepsInv(a, cfg, ns, steps, i);
  }

  // Every transmission of a command, first or retry, puts the same bytes on the wire.
  lemma RetriesIdentical(a: Algorithms, cfg: Config, ns: seq<Net>, steps: seq<Step>, i: nat, now: nat, send: SendRc, app: AppRc)
    requires a.Valid() && cfg.Valid() && Trace(a, cfg, ns, steps) && i < |ns| && Bounded(ns[i])
    ensures var n := ns[i];
            var tx := CpUpdate(a, cfg, n.cp, now, send, app, n.replySlot).tx;
            tx.Some? ==>
              var after := CpTicked(a, cfg, n, now, send, app).flight;
              && after.Some? && tx.value == after.value.wire
              && (n.flight.Some? ==> after.value.wire == n.flight.value.wire)
  {
    hide Inv, FlightOk, WireLen, CpBuild, CpBuildAndSend, CpReceive, Trace;
    RunKeepsInv(a, cfg, ns, steps, i);
    var n := ns[i];
    ReceiveShape(a, cfg, n.cp, now, app, n.replySlot);
    SendShape(a, cfg, if n.cp.phase == RetryCmd then n.cp.(sqn := n.cp.txSqn - 1, phase := SendCmd) else n.cp, now, send);
    if n.cp.phase == RetryCmd {
      Outstanding(a, cfg, n);
      CpRebuilds(a, cfg, n.cp, n.flight.value);
    } else if n.cp.phase == SendCmd {
      FreeToSend(a, cfg, n);
      var _, _ := CpBuilds(a, cfg, n.cp, true);
    } else if n.cp.phase == SendCmdWait {
      Outstanding(a, cfg, n);
    }
  }

  // ---- Runs of an established link that is not restarted ----

  // The device never sees sequence 0, and what waits in the reply slot is always its current reply.
  predicate Steady(n: Net) {
    && n.synced && n.pd.sqn >= 1 && (n.last.Some? ==> n.last.value.sqn > 0)
    && (n.flight.Some? && n.flight.value.sent && n.replySlot.Some? ==>
          Caught(n.pd, n.flight.value) && n.replySlot == Some(n.pd.txBuf))
  }

  lemma SteadyPd(a: Algorithms, cfg: Config, n: Net, send: SendRc, reply: Msg)
    requires a.Valid() && cfg.Valid() && Inv(a, cfg, n) && Steady(n) && Allowed(cfg, n, PdTick(send, reply))
    ensures Steady(PdTicked(a, cfg, n, send, reply))
  {
    hide PdReceive, PdWire, WireLen, WireSeq, Build, CpAlive, CpDead;
    if n.pd.prebuilt {
      if n.flight.Some? && n.flight.value.sent {
        PdWireNonEmpty(a, cfg, n.pd.txBuf, NextSeq(n.pd.sqn));
      }
    } else if n.cmdSlot.Some? {
      if n.flight.Some? && n.flight.value.sent {
        var f := n.flight.value;
        if Behind(n.pd, f.sqn, f.session) {
          PdTakes(a, cfg, f, n.pd, reply);
          SameChainSome(n.pd.session, f.session);
          var built := PdRuns(a, cfg, n.pd, n.pd.(session := f.session, cmdId := f.cmd.id), f.wire, send, f.cmd, reply);
        } else {
          PdRepeats(a, cfg, f, n.pd, reply);
          assert n.pd.txBuf[..|n.pd.txBuf|] == n.pd.txBuf;
        }
      } else {
        PdRepeats(a, cfg, n.last.value, n.pd, reply);
      }
    }
  }

  lemma SteadyCp(a: Algorithms, cfg: Config, n: Net, now: nat, send: SendRc, app: AppRc)
    requires a.Valid() && cfg.Valid() && Inv(a, cfg, n) && Steady(n) && app != AppRetry
    ensures Steady(CpTicked(a, cfg, n, now, send, app))
  {
    hide PdShape, PdWire, WireLen, CpBuild, Build, ProcessReply, PdSynced;
  }

  lemma {:induction false} RunKeepsSteady(a: Algorithms, cfg: Config, ns: seq<Net>, steps: seq<Step>, i: nat)
    requires a.Valid() && cfg.Valid() && Trace(a, cfg, ns, steps) && i < |ns|
    requires Established(a, cfg, ns[0]) && forall k :: 0 <= k < |steps| ==> !steps[k].CpReset?
    ensures Steady(ns[i])
  {
    hide PdShape, CpTicked, PdTicked, Inv, Allowed;
    if i > 0 {
      RunKeepsSteady(a, cfg, ns, steps, i - 1);
      RunKeepsInv(a, cfg, ns, steps, i - 1);
      InvBounded(a, cfg, ns[i - 1]);
      assert Follows(a, cfg, ns[i - 1], steps[i - 1], ns[i]);
      match steps[i - 1]
      case CpTick(now, send, app) =>
        AllowedTick(cfg, ns[i - 1], now, send, app);
        SteadyCp(a, cfg, ns[i - 1], now, send, app);
      case PdTick(send, reply) => SteadyPd(a, cfg, ns[i - 1], send, reply);
      case _ =>
    }
  }

  lemma InvBounded(a: Algorithms, cfg: Config, n: Net)
    requires a.Valid() && cfg.Valid() && Inv(a, cfg, n)
    ensures Bounded(n)
  {
  }

  lemma AllowedTick(cfg: Config, n: Net, now: nat, send: SendRc, app: AppRc)
    requires cfg.Valid() && Bounded(n) && Allowed(cfg, n, CpTick(now, send, app))
    ensures app != AppRetry
  {
  }

  // No MAC ever fails at the panel, no reply is out of sequence: whatever is waiting for it is the
  // reply to its own command, decrypted to exactly what the device's handler answered.
  lemma PanelNeverFaults(a: Algorithms, cfg: Config, ns: seq<Net>, steps: seq<Step>, i: nat)
    requires a.Valid() && cfg.Valid() && Trace(a, cfg, ns, steps) && i < |ns|
    requires Established(a, cfg, ns[0]) && forall k :: 0 <= k < |steps| ==> !steps[k].CpReset?
    requires ns[i].cp.phase == ReplyWait && Bounded(ns[i])
    ensures var n := ns[i];
            match ProcessReply(a, cfg, n.cp, n.replySlot)
            case NoData => n.replySlot == None
            case ReplyMsg(p, s) =>
              && n.runs == n.done + [(n.cp.cmd, Msg(p[0], p[1..]))] && p != [] && s == n.pd.session
            case _ => false
  {
    hide PdShape, FlightOk, PdWire, ProcessReply, Build, Stale, Settled, OldCommand;
    RunKeepsInv(a, cfg, ns, steps, i);
    RunKeepsSteady(a, cfg, ns, steps, i);
    var n := ns[i];
    if n.replySlot.Some? {
      var f := n.flight.value;
      var m: Msg :| Answered(a, cfg, n.pd, f, m) && n.runs == n.done + [(f.cmd, m)];
      CpTakes(a, cfg, f, n.cp, m, n.pd.txBuf, n.pd.session);
      assert ([m.id] + m.data)[1..] == m.data;
    } else {
      NothingWaiting(a, cfg, n.cp);
    }
  }

  lemma NothingWaiting(a: Algorithms, cfg: Config, cp: CpState)
    requires a.Valid() && cfg.Valid() && -1 <= cp.sqn <= 3
    ensures ProcessReply(a, cfg, cp, None) == NoData
  {
  }

  // No MAC ever fails at the device: a command it has not seen is decrypted to exactly what the
  // panel submitted, and one it has seen only draws the cached reply.
  lemma DeviceNeverFaults(a: Algorithms, cfg: Config, ns: seq<Net>, steps: seq<Step>, i: nat, reply: Msg)
    requires a.Valid() && cfg.Valid() && Trace(a, cfg, ns, steps) && i < |ns| && Bounded(ns[i])
    requires Established(a, cfg, ns[0]) && forall k :: 0 <= k < |steps| ==> !steps[k].CpReset?
    requires ns[i].cmdSlot.Some? && !ns[i].pd.prebuilt
    ensures var n := ns[i];
            match PdReceive(a, cfg, n.pd, n.cmdSlot.value, reply)
            case Repeat => true
            case Answer(pd', r, _, ran) =>
              && n.flight.Some? && ran == Some(n.flight.value.cmd) && r == reply
              && n.runs == n.done && pd'.session == n.flight.value.session
            case Ignore(_) => false
  {
    hide PdShape, PdWire, PdReceive, Build, Stale, CpAlive, CpDead, CpFree;
    RunKeepsInv(a, cfg, ns, steps, i);
    RunKeepsSteady(a, cfg, ns, steps, i);
    var n := ns[i];
    if n.flight.Some? && n.flight.value.sent {
      var f := n.flight.value;
      if Behind(n.pd, f.sqn, f.session) && n.done == n.runs {
        PdTakes(a, cfg, f, n.pd, reply);
      } else {
        PdRepeats(a, cfg, f, n.pd, reply);
      }
    } else {
      PdRepeats(a, cfg, n.last.value, n.pd, reply);
    }
  }
}
