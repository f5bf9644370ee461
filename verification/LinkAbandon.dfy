// A command the panel gives up without restarting the link, as src/osdp_trs.c does when a card
// command times out: its sequence number goes to the next command, and the device may have answered
// on that number already.
module LinkAbandon {
  import opened Bytes
  import opened SecureChannel
  import opened Packet
  import opened PacketRoundTrip
  import opened Link
  import opened LinkFacts
  import opened LinkRun
  import opened LinkProof
  import opened LinkTheorems

  // The allowed steps lead from n to m.
  ghost predicate Leads(a: Algorithms, cfg: Config, n: Net, steps: seq<Step>, m: Net)
    requires a.Valid() && cfg.Valid()
    decreases |steps|
  {
    if steps == [] then n == m
    else Bounded(n) && Allowed(cfg, n, steps[0]) && Leads(a, cfg, NextNet(a, cfg, n, steps[0]), steps[1..], m)
  }

  lemma {:induction false} LeadsKeepsInv(a: Algorithms, cfg: Config, n: Net, steps: seq<Step>, m: Net)
    requires a.Valid() && cfg.Valid() && Inv(a, cfg, n) && Leads(a, cfg, n, steps, m)
    ensures Inv(a, cfg, m)
    decreases |steps|
  {
    hide Inv, Allowed, NextNet;
    if steps != [] {
      StepKeeps(a, cfg, n, steps[0]);
      LeadsKeepsInv(a, cfg, NextNet(a, cfg, n, steps[0]), steps[1..], m);
    }
  }

  predicate Quiet(step: Step) { step.CpTick? || step.PdTick? || step.LoseCmd? || step.LoseReply? }

  // The command outstanding has been on the line.
  predicate Out(n: Net) { n.flight.Some? && n.flight.value.sent }

  // Steps up to the moment a command is first on the line.
  ghost predicate Waiting(a: Algorithms, cfg: Config, n: Net, steps: seq<Step>, m: Net)
    requires a.Valid() && cfg.Valid()
    decreases |steps|
  {
    if steps == [] then n == m
    else
      && Bounded(n) && !Out(n) && Allowed(cfg, n, steps[0]) && (Quiet(steps[0]) || steps[0].CpChoose?)
      && Waiting(a, cfg, NextNet(a, cfg, n, steps[0]), steps[1..], m)
  }

  // ---- From giving up to the next command ----

  // The net as it would be had the panel only stopped: what is known of the device is still known.
  function Stopped(n: Net, f: Flight, done: seq<(Msg, Msg)>, runs: seq<(Msg, Msg)>): Net {
    n.(cp := n.cp.(phase := PhyErr, linkReset := false), flight := Some(f), done := done, runs := runs)
  }

  // f was given up and nothing has been on the line since; the next command goes out on its number.
  ghost predicate Orphaned(a: Algorithms, cfg: Config, n: Net, f: Flight)
    requires a.Valid() && cfg.Valid()
  {
    && Bounded(n) && n.synced && f.session == None && n.cp.session == None && NextSeq(n.cp.sqn) == f.sqn
    && (match n.flight
        case None => CpFree(cfg, n.cp)
        case Some(g) =>
          !g.sent && FlightOk(a, cfg, g) && g.session == None && g.sqn == f.sqn && (CpAlive(n.cp, g) || CpDead(n.cp, g)))
    && exists done: seq<(Msg, Msg)>, runs: seq<(Msg, Msg)> :: Inv(a, cfg, Stopped(n, f, done, runs))
  }

  // Its sequence number has not reached the device.
  predicate Untaken(pd: PdState, s: int) {
    (!pd.prebuilt && 0 <= pd.sqn && NextSeq(pd.sqn) == s && pd.session == None) || (s == 1 && Lagging(pd))
  }

  // g has just gone out on the number of f, which the device has or has not answered.
  ghost predicate Reused(a: Algorithms, cfg: Config, n: Net, f: Flight, g: Flight)
    requires a.Valid() && cfg.Valid()
  {
    && Bounded(n) && n.synced && PdShape(a, cfg, n.pd) && (n.last.Some? ==> FlightOk(a, cfg, n.last.value))
    && n.flight == Some(g) && g.sent && CpAlive(n.cp, g) && n.cp.phase == ReplyWait
    && n.cmdSlot == Some(g.wire) && n.replySlot == None
    && FlightOk(a, cfg, f) && FlightOk(a, cfg, g) && f.sqn == g.sqn > 0 && f.session == g.session == None
    && (Untaken(n.pd, g.sqn)
        || exists m: Msg :: Answered(a, cfg, n.pd, f, m) && (Replying(n.pd, f) || Caught(n.pd, f)))
  }

  lemma GivenUp(a: Algorithms, cfg: Config, n: Net, f: Flight)
    requires a.Valid() && cfg.Valid() && Inv(a, cfg, n)
    requires n.cp.phase == PhyErr && n.synced && n.flight == Some(f) && f.session == None
    ensures Orphaned(a, cfg, NextNet(a, cfg, n, CpAbandon), f)
  {
    hide FlightOk, PdShape, WireLen, PdWire;
    var s := Stopped(NextNet(a, cfg, n, CpAbandon), f, n.done, n.runs);
    assert Inv(a, cfg, s);
  }

  // While the next command has not gone out the device only ever sees the old ones.
  lemma OrphanPdTick(a: Algorithms, cfg: Config, n: Net, f: Flight, send: SendRc, reply: Msg)
    requires a.Valid() && cfg.Valid() && Orphaned(a, cfg, n, f) && Allowed(cfg, n, PdTick(send, reply))
    ensures Orphaned(a, cfg, PdTicked(a, cfg, n, send, reply), f)
  {
    hide Inv, FlightOk, WireLen, CpAlive, CpDead, CpFree, PdUpdate, WireSeq;
    var done: seq<(Msg, Msg)>, runs: seq<(Msg, Msg)> :| Inv(a, cfg, Stopped(n, f, done, runs));
    var s := Stopped(n, f, done, runs);
    var n' := PdTicked(a, cfg, n, send, reply);
    var s' := PdTicked(a, cfg, s, send, reply);
    PdStepKeeps(a, cfg, s, send, reply);
    assert s' == Stopped(n', f, s'.done, s'.runs);
    InvBounded(a, cfg, s');
  }

  lemma OrphanLoss(a: Algorithms, cfg: Config, n: Net, f: Flight, n': Net)
    requires a.Valid() && cfg.Valid() && Orphaned(a, cfg, n, f)
    requires n' == n.(cmdSlot := None) || n' == n.(replySlot := None)
    ensures Orphaned(a, cfg, n', f)
  {
    hide Inv, FlightOk, CpAlive, CpDead, CpFree;
    var done: seq<(Msg, Msg)>, runs: seq<(Msg, Msg)> :| Inv(a, cfg, Stopped(n, f, done, runs));
    var s := Stopped(n, f, done, runs);
    var s' := Stopped(n', f, done, runs);
    LossKeeps(a, cfg, s, s');
  }

  // Nothing of the panel but where it stands is read by what is known of the device.
  lemma StoppedInv(a: Algorithms, cfg: Config, n: Net, f: Flight, done: seq<(Msg, Msg)>, runs: seq<(Msg, Msg)>, cp: CpState)
    requires a.Valid() && cfg.Valid() && Inv(a, cfg, Stopped(n, f, done, runs)) && n.synced
    requires cp.sqn == n.cp.sqn && cp.session == n.cp.session && 0 <= cp.txSqn <= 3
    ensures Inv(a, cfg, Stopped(n.(cp := cp), f, done, runs))
  {
    hide FlightOk, PdShape, PdWire, PdSynced, WireLen;
    PhaseMove(a, cfg, Stopped(n, f, done, runs), cp.(phase := PhyErr, linkReset := false));
  }

  lemma OrphanChoose(a: Algorithms, cfg: Config, n: Net, f: Flight, m: Msg)
    requires a.Valid() && cfg.Valid() && Orphaned(a, cfg, n, f) && Allowed(cfg, n, CpChoose(m))
    ensures Orphaned(a, cfg, NextNet(a, cfg, n, CpChoose(m)), f)
  {
    hide Inv, FlightOk;
    var done: seq<(Msg, Msg)>, runs: seq<(Msg, Msg)> :| Inv(a, cfg, Stopped(n, f, done, runs));
    StoppedInv(a, cfg, n, f, done, runs, CpIssue(n.cp, m));
  }

  // What the panel's own step does to its side while no command is on the line.
  lemma OrphanCpSide(a: Algorithms, cfg: Config, n: Net, f: Flight, now: nat, send: SendRc, app: AppRc)
    requires a.Valid() && cfg.Valid() && Orphaned(a, cfg, n, f)
    ensures var n' := CpTicked(a, cfg, n, now, send, app);
            && n' == n.(cp := n'.cp, cmdSlot := n'.cmdSlot, replySlot := n'.replySlot, flight := n'.flight)
            && n'.cp.sqn == n.cp.sqn && n'.cp.session == None && 0 <= n'.cp.txSqn <= 3
            && (n'.replySlot == n.replySlot || n'.replySlot == None)
            && match n'.flight
               case None => CpFree(cfg, n'.cp) && n'.cmdSlot == n.cmdSlot
               case Some(g) =>
                 && FlightOk(a, cfg, g) && g.session == None && g.sqn == f.sqn
                 && (if g.sent then CpAlive(n'.cp, g) && n'.cp.phase == ReplyWait && n'.cmdSlot == Some(g.wire) && n'.replySlot == None
                     else (CpAlive(n'.cp, g) || CpDead(n'.cp, g)) && n'.cmdSlot == n.cmdSlot)
  {
    hide Inv, Build, WireLen, CpBuild, ProcessReply;
    if n.cp.phase == SendCmd && n.flight == None {
      var cp', g := CpBuilds(a, cfg, n.cp, send == Sent);
      assert CpTicked(a, cfg, n, now, send, app).flight == Some(g);
    }
  }

  lemma OrphanCpTick(a: Algorithms, cfg: Config, n: Net, f: Flight, now: nat, send: SendRc, app: AppRc)
    requires a.Valid() && cfg.Valid() && Orphaned(a, cfg, n, f)
    ensures var n' := CpTicked(a, cfg, n, now, send, app);
            if Out(n') then Reused(a, cfg, n', f, n'.flight.value) else Orphaned(a, cfg, n', f)
  {
    hide Inv, FlightOk, CpTicked, CpAlive, CpDead, CpFree;
    OrphanCpSide(a, cfg, n, f, now, send, app);
    var n' := CpTicked(a, cfg, n, now, send, app);
    var done: seq<(Msg, Msg)>, runs: seq<(Msg, Msg)> :| Inv(a, cfg, Stopped(n, f, done, runs));
    if Out(n') {
      StoppedDevice(a, cfg, n, f, done, runs);
    } else {
      StoppedInv(a, cfg, n, f, done, runs, n'.cp);
      var s := Stopped(n.(cp := n'.cp), f, done, runs);
      var s' := Stopped(n', f, done, runs);
      if n'.replySlot != n.replySlot {
        LossKeeps(a, cfg, s, s');
      } else {
        assert s' == s;
      }
    }
  }

  // Where a device stands that may have seen f.
  lemma StoppedDevice(a: Algorithms, cfg: Config, n: Net, f: Flight, done: seq<(Msg, Msg)>, runs: seq<(Msg, Msg)>)
    requires a.Valid() && cfg.Valid() && n.synced && f.session == None && Inv(a, cfg, Stopped(n, f, done, runs))
    ensures PdShape(a, cfg, n.pd) && (n.last.Some? ==> FlightOk(a, cfg, n.last.value)) && FlightOk(a, cfg, f) && f.sqn > 0
    ensures Untaken(n.pd, f.sqn)
         || exists m: Msg :: Answered(a, cfg, n.pd, f, m) && (Replying(n.pd, f) || Caught(n.pd, f))
  {
    hide FlightOk, PdShape, PdWire, WireLen, Build, CpDead, CpAlive;
  }

  lemma OrphanQuiet(a: Algorithms, cfg: Config, n: Net, f: Flight)
    requires a.Valid() && cfg.Valid() && Orphaned(a, cfg, n, f)
    ensures !Out(n)
  {
    hide Inv, FlightOk, CpAlive, CpDead, CpFree;
  }

  lemma OrphanStep(a: Algorithms, cfg: Config, n: Net, f: Flight, step: Step)
    requires a.Valid() && cfg.Valid() && Orphaned(a, cfg, n, f) && Bounded(n) && Allowed(cfg, n, step)
    requires Quiet(step) || step.CpChoose?
    ensures var n' := NextNet(a, cfg, n, step);
            if Out(n') then Reused(a, cfg, n', f, n'.flight.value) else Orphaned(a, cfg, n', f)
  {
    hide Orphaned, Reused, CpTicked;
    OrphanQuiet(a, cfg, n, f);
    match step {
      case CpTick(now, send, app) => OrphanCpTick(a, cfg, n, f, now, send, app);
      case PdTick(send, reply) =>
        assert PdTicked(a, cfg, n, send, reply).flight == n.flight; OrphanPdTick(a, cfg, n, f, send, reply);
      case CpChoose(m) => OrphanChoose(a, cfg, n, f, m);
      case LoseCmd => OrphanLoss(a, cfg, n, f, n.(cmdSlot := None));
      case LoseReply => OrphanLoss(a, cfg, n, f, n.(replySlot := None));
      case _ =>
    }
  }

  lemma {:induction false} Reaches(a: Algorithms, cfg: Config, n: Net, f: Flight, steps: seq<Step>, m: Net)
    requires a.Valid() && cfg.Valid() && Orphaned(a, cfg, n, f) && Waiting(a, cfg, n, steps, m) && Out(m)
    ensures Reused(a, cfg, m, f, m.flight.value)
    decreases |steps|
  {
    hide Orphaned, Reused, NextNet, Allowed;
    OrphanQuiet(a, cfg, n, f);
    OrphanStep(a, cfg, n, f, steps[0]);
    var n' := NextNet(a, cfg, n, steps[0]);
    if Out(n') {
      assert steps[1..] == [];
    } else {
      Reaches(a, cfg, n', f, steps[1..], m);
    }
  }

  // ---- What the next command gets ----

  ghost predicate AllQuiet(steps: seq<Step>) { forall i :: 0 <= i < |steps| ==> Quiet(steps[i]) }

  // If the exchange completes, the handler was run for g since n, once, and g has that run's reply.
  ghost predicate Served(n: Net, m: Net, g: Flight) {
    m.flight == None ==>
      exists r: Msg :: m.done == n.done + [(g.cmd, r)] && m.runs == n.runs + [(g.cmd, r)]
  }

  // However the exchange goes on from n, g is answered by its own reply.
  ghost predicate OwnReply(a: Algorithms, cfg: Config, n: Net, g: Flight)
    requires a.Valid() && cfg.Valid()
  {
    forall steps: seq<Step>, m: Net :: AllQuiet(steps) && Leads(a, cfg, n, steps, m) ==> Served(n, m, g)
  }

  // A device that has answered f takes a command with another id on the same number as if it had
  // never seen f: it steps back first.
  function SteppedBack(pd: PdState): PdState { pd.(sqn := Rollback(pd.sqn), cacheLen := 0) }

  lemma TakesSteppedBack(a: Algorithms, cfg: Config, g: Flight, pd: PdState, reply: Msg)
    requires a.Valid() && cfg.Valid() && FlightOk(a, cfg, g)
    requires pd.sqn == g.sqn > 0 && (pd.cacheLen > 0 ==> pd.lastCmd != g.cmd.id)
    ensures PdReceive(a, cfg, pd, g.wire, reply) == PdReceive(a, cfg, SteppedBack(pd), g.wire, reply)
  {
    hide Build, CheckPacket, Decode, ValidateHeader, Intact;
    PdChecks(a, cfg, g, pd, cfg.mark);
    PdChecks(a, cfg, g, SteppedBack(pd), cfg.mark);
  }

  // ---- Following an exchange in a net whose history fits ----

  // s is n with its own history, and with a device that has stepped back where n's is about to.
  ghost predicate Alike(n: Net, s: Net, g: Flight) {
    && n == s.(pd := n.pd, done := n.done, runs := n.runs) && s.synced
    && (n.pd == s.pd || (s.pd == SteppedBack(n.pd) && !n.pd.prebuilt && n.pd.sqn == g.sqn > 0
                         && n.pd.lastCmd != g.cmd.id && n.pd.session == None && g.session == None
                         && s.flight.Some? && n.replySlot == None))
    && match s.flight
       case Some(h) => h == g && n.cp.cmd == g.cmd && s.done == []
       case None => |s.done| == 1 && s.done[0].0 == g.cmd && !Running(n.cp)
  }

  predicate Running(cp: CpState) { cp.phase !in {Idle, Done, PhyErr} }

  // The histories grow alike from n0 on, k runs of s lying before that.
  predicate Histories(n0: Net, n: Net, s: Net, k: nat) {
    |s.runs| >= k && n.done == n0.done + s.done && n.runs == n0.runs + s.runs[k..]
  }

  lemma PdTickAlike(a: Algorithms, cfg: Config, n0: Net, n: Net, s: Net, k: nat, g: Flight, send: SendRc, reply: Msg)
    requires a.Valid() && cfg.Valid() && g.sent && Inv(a, cfg, s) && Alike(n, s, g) && Histories(n0, n, s, k) && Bounded(n)
    requires Allowed(cfg, n, PdTick(send, reply))
    ensures Allowed(cfg, s, PdTick(send, reply))
    ensures var n', s' := PdTicked(a, cfg, n, send, reply), PdTicked(a, cfg, s, send, reply);
            Alike(n', s', g) && Histories(n0, n', s', k) && s.runs <= s'.runs
  {
    hide PdUpdate, Inv, WireSeq;
    PdUpdateAlike(a, cfg, n, s, g, send, reply);
    var n', s' := PdTicked(a, cfg, n, send, reply), PdTicked(a, cfg, s, send, reply);
    if s'.runs != s.runs {
      var run := s'.runs[|s.runs|];
      assert s'.runs[k..] == s.runs[k..] + [run];
    }
  }

  lemma PdUpdateAlike(a: Algorithms, cfg: Config, n: Net, s: Net, g: Flight, send: SendRc, reply: Msg)
    requires a.Valid() && cfg.Valid() && g.sent && Inv(a, cfg, s) && Alike(n, s, g) && Bounded(n)
    requires Allowed(cfg, n, PdTick(send, reply))
    ensures Bounded(s) && Allowed(cfg, s, PdTick(send, reply))
    ensures var n', s' := PdUpdate(a, cfg, n.pd, send, n.cmdSlot, reply), PdUpdate(a, cfg, s.pd, send, s.cmdSlot, reply);
            && n'.tx == s'.tx && n'.ran == s'.ran
            && (n'.pd == s'.pd || (n'.pd == n.pd && s'.pd == s.pd && n'.tx == None))
  {
    hide PdReceive, PdShape, PdWire, Build, FlightOk, CpAlive, CpDead, CpFree, Answered, Stale;
    if n.pd != s.pd {
      assert WireLen(PdEnd(cfg, s.pd, cfg.mark), reply, 0) == WireLen(PdEnd(cfg, n.pd, cfg.mark), reply, 0);
      if n.cmdSlot.Some? {
        TakesSteppedBack(a, cfg, g, n.pd, reply);
        PdTakes(a, cfg, g, s.pd, reply);
      }
    }
  }

  lemma FlightPhase(a: Algorithms, cfg: Config, n: Net)
    requires a.Valid() && cfg.Valid() && Inv(a, cfg, n)
    ensures n.flight.Some? ==> n.cp.phase != SendCmd
  {
    hide FlightOk, PdShape, PdSynced, Settled, CpFree;
  }

  // The panel stops where it accepts, and moves no more once it has stopped.
  lemma CpTickShape(a: Algorithms, cfg: Config, cp: CpState, now: nat, send: SendRc, app: AppRc, rx: Option<seq<byte>>)
    requires a.Valid() && cfg.Valid() && -1 <= cp.sqn <= 3 && 0 <= cp.txSqn <= 3
    ensures var st := CpUpdate(a, cfg, cp, now, send, app, rx);
            && st.cp.cmd == cp.cmd
            && (st.accepted.Some? ==> rx.Some? && !Running(st.cp))
            && (!Running(cp) ==> st == CpStep(cp, st.rc, None, false, false, None))
  {
    hide CpReceive, CpBuildAndSend, CpSend;
    if cp.phase == SendCmdWait {
      TransmitShape(cfg, cp, now, send);
    } else if cp.phase == ReplyWait {
      ReceiveShape(a, cfg, cp, now, app, rx);
    } else if cp.phase == RetryCmd {
      SendShape(a, cfg, cp.(sqn := cp.txSqn - 1, phase := SendCmd), now, send);
    } else if cp.phase == SendCmd {
      SendShape(a, cfg, cp, now, send);
    }
  }

  lemma CpTickAlike(a: Algorithms, cfg: Config, n0: Net, n: Net, s: Net, k: nat, g: Flight, now: nat, send: SendRc, app: AppRc)
    requires a.Valid() && cfg.Valid() && g.sent && Inv(a, cfg, s) && Alike(n, s, g) && Histories(n0, n, s, k) && Bounded(n)
    requires app != AppRetry
    ensures var n', s' := CpTicked(a, cfg, n, now, send, app), CpTicked(a, cfg, s, now, send, app);
            Alike(n', s', g) && Histories(n0, n', s', k) && s.runs <= s'.runs
  {
    hide Inv, CpUpdate;
    NothingWaiting(a, cfg, n.cp);
    FlightPhase(a, cfg, s);
    CpTickShape(a, cfg, n.cp, now, send, app, n.replySlot);
    var n', s' := CpTicked(a, cfg, n, now, send, app), CpTicked(a, cfg, s, now, send, app);
    if s'.done != s.done {
      assert s'.done == s.done + [s'.done[|s.done|]];
    }
    assert n' == s'.(pd := n'.pd, done := n'.done, runs := n'.runs);
  }

  lemma StepAlike(a: Algorithms, cfg: Config, n0: Net, n: Net, s: Net, k: nat, g: Flight, step: Step)
    requires a.Valid() && cfg.Valid() && g.sent && Inv(a, cfg, s) && Alike(n, s, g) && Histories(n0, n, s, k) && Bounded(n)
    requires Allowed(cfg, n, step) && Quiet(step)
    ensures Bounded(s) && Inv(a, cfg, NextNet(a, cfg, s, step))
    ensures var n', s' := NextNet(a, cfg, n, step), NextNet(a, cfg, s, step);
            Alike(n', s', g) && Histories(n0, n', s', k) && s.runs <= s'.runs
  {
    hide Inv, CpTicked, PdTicked, WireLen;
    InvBounded(a, cfg, s);
    match step {
      case CpTick(now, send, app) => CpTickAlike(a, cfg, n0, n, s, k, g, now, send, app);
      case PdTick(send, reply) => PdTickAlike(a, cfg, n0, n, s, k, g, send, reply);
      case _ =>
    }
    assert Allowed(cfg, s, step);
    StepKeeps(a, cfg, s, step);
  }

  lemma {:induction false} Follow(a: Algorithms, cfg: Config, n0: Net, n: Net, s: Net, k: nat, g: Flight, steps: seq<Step>, m: Net)
    returns (t: Net)
    requires a.Valid() && cfg.Valid() && g.sent && Inv(a, cfg, s) && Alike(n, s, g) && Histories(n0, n, s, k)
    requires AllQuiet(steps) && Leads(a, cfg, n, steps, m)
    ensures Inv(a, cfg, t) && Alike(m, t, g) && Histories(n0, m, t, k) && s.runs <= t.runs
    decreases |steps|
  {
    hide Inv, Alike, Histories, NextNet, Allowed;
    if steps == [] {
      t := s;
    } else {
      assert Quiet(steps[0]);
      StepAlike(a, cfg, n0, n, s, k, g, steps[0]);
      t := Follow(a, cfg, n0, NextNet(a, cfg, n, steps[0]), NextNet(a, cfg, s, steps[0]), k, g, steps[1..], m);
    }
  }

  // Once it is over, history and device agree again.
  lemma OverMeansRun(a: Algorithms, cfg: Config, n0: Net, m: Net, t: Net, k: nat, g: Flight) returns (r: Msg)
    requires a.Valid() && cfg.Valid() && Inv(a, cfg, t) && Alike(m, t, g) && Histories(n0, m, t, k) && m.flight == None
    ensures t.runs == [(g.cmd, r)] && m.done == n0.done + [(g.cmd, r)] && m.runs == n0.runs + [(g.cmd, r)][k..]
    ensures m.pd == t.pd
  {
    hide PdShape, FlightOk, PdSynced, OldCommand;
    r := t.done[0].1;
    assert t.done == [(g.cmd, r)];
  }

  // ---- The exact condition on a plain link ----

  // The device will take g as the next command: it has not had its number, or steps back for it.
  predicate Fresh(pd: PdState, f: Flight, g: Flight) {
    Untaken(pd, g.sqn) || (Caught(pd, f) && f.cmd.id != g.cmd.id)
  }

  lemma AnsweredPlain(a: Algorithms, cfg: Config, pd: PdState, f: Flight, m: Msg)
    requires a.Valid() && cfg.Valid() && 0 <= f.sqn <= 3 && f.session == None && Answered(a, cfg, pd, f, m)
    ensures pd.session == None
  {
    hide Build;
    BuildKeepsPlain(a, ReplyEnd(cfg, f), m, cfg.pdMax);
  }

  lemma FreshShadow(a: Algorithms, cfg: Config, n: Net, f: Flight, g: Flight) returns (s: Net)
    requires a.Valid() && cfg.Valid() && Reused(a, cfg, n, f, g) && Fresh(n.pd, f, g)
    ensures Inv(a, cfg, s) && Alike(n, s, g) && Histories(n, n, s, 0) && s.runs == []
  {
    hide FlightOk, Build, PdWire;
    if Untaken(n.pd, g.sqn) {
      s := n.(done := [], runs := []);
    } else {
      var m: Msg :| Answered(a, cfg, n.pd, f, m);
      AnsweredPlain(a, cfg, n.pd, f, m);
      s := n.(done := [], runs := [], pd := SteppedBack(n.pd));
    }
  }

  // A device that takes g runs it, once, and the panel gets that run's reply; after it the two ends
  // are in step again.
  lemma FreshIsServed(a: Algorithms, cfg: Config, n: Net, f: Flight, g: Flight, steps: seq<Step>, m: Net)
    requires a.Valid() && cfg.Valid() && Reused(a, cfg, n, f, g) && Fresh(n.pd, f, g)
    requires AllQuiet(steps) && Leads(a, cfg, n, steps, m)
    ensures Served(n, m, g)
    ensures m.flight == None ==> Inv(a, cfg, m.(done := [], runs := []))
  {
    hide Inv, Reused, Alike, Histories, Leads, AllQuiet, Fresh;
    var s := FreshShadow(a, cfg, n, f, g);
    ReusedSent(a, cfg, n, f, g);
    var t := Follow(a, cfg, n, n, s, 0, g, steps, m);
    if m.flight == None {
      var r := OverMeansRun(a, cfg, n, m, t, 0, g);
      assert [(g.cmd, r)][0..] == [(g.cmd, r)];
      SettledAgain(a, cfg, m, t, g);
    }
  }

  lemma ReusedSent(a: Algorithms, cfg: Config, n: Net, f: Flight, g: Flight)
    requires a.Valid() && cfg.Valid() && Reused(a, cfg, n, f, g)
    ensures g.sent && Bounded(n) && n.cp.phase == ReplyWait && n.flight == Some(g)
    ensures Untaken(n.pd, g.sqn) || exists m: Msg :: Answered(a, cfg, n.pd, f, m) && (Replying(n.pd, f) || Caught(n.pd, f))
  {
    hide PdShape, FlightOk, Answered;
  }

  lemma SettledAgain(a: Algorithms, cfg: Config, m: Net, t: Net, g: Flight)
    requires a.Valid() && cfg.Valid() && Inv(a, cfg, t) && Alike(m, t, g) && m.flight == None && m.pd == t.pd
    ensures Inv(a, cfg, m.(done := [], runs := []))
  {
    hide PdShape, FlightOk, WireLen, PdSynced;
  }

  lemma AnsweredShadow(a: Algorithms, cfg: Config, n: Net, f: Flight, g: Flight, r: Msg) returns (s: Net)
    requires a.Valid() && cfg.Valid() && Reused(a, cfg, n, f, g) && f.cmd.id == g.cmd.id
    requires Answered(a, cfg, n.pd, f, r) && (Replying(n.pd, f) || Caught(n.pd, f))
    ensures Inv(a, cfg, s) && Alike(n, s, g) && Histories(n, n, s, 1) && s.runs == [(g.cmd, r)]
  {
    hide FlightOk, PdShape, Build, PdWire;
    s := n.(done := [], runs := [(g.cmd, r)]);
    assert Answered(a, cfg, s.pd, g, r) && s.runs == s.done + [(g.cmd, r)];
  }

  // A device that has answered f, or is about to, with a reply to a command of the same id: that
  // reply is what the panel gets for g, however the exchange goes, and g is never run.
  lemma OldReplyServed(a: Algorithms, cfg: Config, n: Net, f: Flight, g: Flight, r: Msg, steps: seq<Step>, m: Net)
    requires a.Valid() && cfg.Valid() && Reused(a, cfg, n, f, g) && f.cmd.id == g.cmd.id
    requires Answered(a, cfg, n.pd, f, r) && (Replying(n.pd, f) || Caught(n.pd, f))
    requires AllQuiet(steps) && Leads(a, cfg, n, steps, m) && m.flight == None
    ensures m.done == n.done + [(g.cmd, r)] && m.runs == n.runs
    ensures Inv(a, cfg, m.(done := [], runs := []))
  {
    hide Inv, Leads, AllQuiet, FlightOk, PdShape, Build;
    var s := AnsweredShadow(a, cfg, n, f, g, r);
    var t := Follow(a, cfg, n, n, s, 1, g, steps, m);
    var r' := OverMeansRun(a, cfg, n, m, t, 1, g);
    SettledAgain(a, cfg, m, t, g);
  }

  const ACK := Msg(REPLY_ACK, [])

  lemma AckFits(cfg: Config, pd: PdState)
    requires cfg.Valid() && pd.session == None
    ensures ReplyOk(ACK) && WireLen(PdEnd(cfg, pd, cfg.mark), ACK, 0) <= cfg.pdMax
  {
  }

  // The old reply on its way to the panel.
  lemma OldReplySent(a: Algorithms, cfg: Config, n: Net, f: Flight, g: Flight, r: Msg)
    requires a.Valid() && cfg.Valid() && Reused(a, cfg, n, f, g)
    requires Answered(a, cfg, n.pd, f, r) && (Replying(n.pd, f) || (Caught(n.pd, f) && f.cmd.id == g.cmd.id))
    ensures Allowed(cfg, n, PdTick(Sent, ACK))
    ensures var n1 := PdTicked(a, cfg, n, Sent, ACK);
            n1 == n.(pd := n1.pd, cmdSlot := None, replySlot := Some(n.pd.txBuf)) && Bounded(n1)
  {
    hide FlightOk, WireLen, Build, PdReceive, WireSeq, PdWire, Answered;
    AnsweredPlain(a, cfg, n.pd, f, r);
    AckFits(cfg, n.pd);
    if !n.pd.prebuilt {
      PdRepeats(a, cfg, g, n.pd, ACK);
      assert n.pd.txBuf[..|n.pd.txBuf|] == n.pd.txBuf;
    }
  }

  lemma OldReplyAccepted(a: Algorithms, cfg: Config, n: Net, f: Flight, g: Flight, pd: PdState, r: Msg)
    requires a.Valid() && cfg.Valid() && Bounded(n) && n.synced && n.flight == Some(g) && CpAlive(n.cp, g) && n.cp.phase == ReplyWait
    requires FlightOk(a, cfg, f) && FlightOk(a, cfg, g) && f.sqn == g.sqn > 0 && f.session == g.session == None
    requires Answered(a, cfg, pd, f, r) && n.replySlot == Some(pd.txBuf)
    ensures var z := CpTicked(a, cfg, n, 0, Sent, AppOk);
            z.flight == None && z.done == n.done + [(g.cmd, r)] && z.runs == n.runs
  {
    hide FlightOk, Build, ProcessReply;
    FlightSqn(a, cfg, g);
    ReplyRebuild(a, ReplyEnd(cfg, f), ReplyEnd(cfg, g), r, cfg.pdMax);
    CpTakes(a, cfg, g, n.cp, r, pd.txBuf, pd.session);
    assert ([r.id] + r.data)[1..] == r.data;
  }

  lemma OldReplyTaken(a: Algorithms, cfg: Config, n: Net, f: Flight, g: Flight, r: Msg) returns (steps: seq<Step>, z: Net)
    requires a.Valid() && cfg.Valid() && Reused(a, cfg, n, f, g)
    requires Answered(a, cfg, n.pd, f, r) && (Replying(n.pd, f) || (Caught(n.pd, f) && f.cmd.id == g.cmd.id))
    ensures AllQuiet(steps) && Leads(a, cfg, n, steps, z)
    ensures z.flight == None && z.done == n.done + [(g.cmd, r)] && z.runs == n.runs
  {
    hide FlightOk, PdShape, Answered, Allowed, CpTicked, PdTicked, Replying, Caught;
    OldReplySent(a, cfg, n, f, g, r);
    var n1 := PdTicked(a, cfg, n, Sent, ACK);
    OldReplyAccepted(a, cfg, n1, f, g, n.pd, r);
    z := CpTicked(a, cfg, n1, 0, Sent, AppOk);
    TickAllowed(cfg, n1, 0, Sent, AppOk);
    steps := [PdTick(Sent, ACK), CpTick(0, Sent, AppOk)];
    TwoSteps(a, cfg, n, steps[0], n1, steps[1], z);
  }

  lemma TickAllowed(cfg: Config, n: Net, now: nat, send: SendRc, app: AppRc)
    requires cfg.Valid() && Bounded(n) && app != AppRetry
    ensures Allowed(cfg, n, CpTick(now, send, app))
  {
  }

  lemma TwoSteps(a: Algorithms, cfg: Config, n: Net, s0: Step, n1: Net, s1: Step, n2: Net)
    requires a.Valid() && cfg.Valid() && Bounded(n) && Bounded(n1)
    requires Allowed(cfg, n, s0) && n1 == NextNet(a, cfg, n, s0) && Allowed(cfg, n1, s1) && n2 == NextNet(a, cfg, n1, s1)
    ensures Leads(a, cfg, n, [s0, s1], n2)
  {
    hide Allowed, NextNet;
    assert [s0, s1][1..] == [s1] && [s1][1..] == [];
    assert Leads(a, cfg, n1, [s1], n2);
  }

  // Once the next command is on the line on the old number: it is run and answered by its own reply
  // however the exchange goes, if and only if the device has not had that number, or has answered a
  // command with another id on it.
  lemma OwnReplyExactly(a: Algorithms, cfg: Config, n: Net, f: Flight, g: Flight)
    requires a.Valid() && cfg.Valid() && Reused(a, cfg, n, f, g)
    ensures OwnReply(a, cfg, n, g) <==> Fresh(n.pd, f, g)
  {
    hide Reused, Leads, AllQuiet, Answered, Fresh;
    if Fresh(n.pd, f, g) {
      forall steps: seq<Step>, m: Net | AllQuiet(steps) && Leads(a, cfg, n, steps, m) ensures Served(n, m, g) {
        FreshIsServed(a, cfg, n, f, g, steps, m);
      }
    } else {
      var r := StaleReply(a, cfg, n, f, g);
      var steps, z := OldReplyTaken(a, cfg, n, f, g, r);
      assert !Served(n, z, g);
    }
  }

  lemma StaleReply(a: Algorithms, cfg: Config, n: Net, f: Flight, g: Flight) returns (r: Msg)
    requires a.Valid() && cfg.Valid() && Reused(a, cfg, n, f, g) && !Fresh(n.pd, f, g)
    ensures Answered(a, cfg, n.pd, f, r) && (Replying(n.pd, f) || (Caught(n.pd, f) && f.cmd.id == g.cmd.id))
  {
    hide Answered, PdShape, FlightOk, CpAlive;
    var m: Msg :| Answered(a, cfg, n.pd, f, m) && (Replying(n.pd, f) || Caught(n.pd, f));
    r := m;
  }

  // In any run: f is given up on a plain link without a restart, and g is the next command out.
  lemma AbandonedCommand(a: Algorithms, cfg: Config, n0: Net, before: seq<Step>, n: Net, wait: seq<Step>, m: Net)
    requires a.Valid() && cfg.Valid() && (FreshStart(a, cfg, n0) || Established(a, cfg, n0)) && Leads(a, cfg, n0, before, n)
    requires n.cp.phase == PhyErr && n.synced && n.flight.Some? && n.flight.value.session == None && Bounded(n)
    requires Waiting(a, cfg, NextNet(a, cfg, n, CpAbandon), wait, m) && Out(m)
    ensures var f, g := n.flight.value, m.flight.value;
            && Reused(a, cfg, m, f, g)
            && (OwnReply(a, cfg, m, g) <==> Fresh(m.pd, f, g))
  {
    hide FreshStart, Established, Leads, Waiting, NextNet, Inv, Orphaned, Reused, OwnReply, Fresh;
    StartInv(a, cfg, n0);
    LeadsKeepsInv(a, cfg, n0, before, n);
    GivenUp(a, cfg, n, n.flight.value);
    Reaches(a, cfg, NextNet(a, cfg, n, CpAbandon), n.flight.value, wait, m);
    OwnReplyExactly(a, cfg, m, n.flight.value, m.flight.value);
  }

  // ---- A run that ends so ----

  lemma {:induction false} LeadsOn(a: Algorithms, cfg: Config, n: Net, steps: seq<Step>, m: Net, more: seq<Step>, z: Net)
    requires a.Valid() && cfg.Valid() && Leads(a, cfg, n, steps, m) && Leads(a, cfg, m, more, z)
    ensures Leads(a, cfg, n, steps + more, z)
    decreases |steps|
  {
    hide Allowed, NextNet;
    if steps == [] {
      assert steps + more == more;
    } else {
      LeadsOn(a, cfg, NextNet(a, cfg, n, steps[0]), steps[1..], m, more, z);
      assert (steps + more)[1..] == steps[1..] + more;
    }
  }

  lemma Leads1(a: Algorithms, cfg: Config, n: Net, step: Step)
    requires a.Valid() && cfg.Valid() && Bounded(n) && Allowed(cfg, n, step)
    ensures Leads(a, cfg, n, [step], NextNet(a, cfg, n, step))
  {
    hide Allowed, NextNet;
    assert [step][1..] == [];
  }

  // A device that has answered f, once, with r, on a line that has lost the answer.
  ghost predicate Unheard(a: Algorithms, cfg: Config, n: Net, f: Flight, r: Msg)
    requires a.Valid() && cfg.Valid()
  {
    && Bounded(n) && n.synced && n.flight == Some(f) && f.sent && FlightOk(a, cfg, f) && f.session == None
    && CpAlive(n.cp, f) && n.cp.phase == ReplyWait && n.cmdSlot == None && n.replySlot == None
    && Caught(n.pd, f) && Answered(a, cfg, n.pd, f, r) && n.done == [] && n.runs == [(f.cmd, r)]
  }

  lemma TimesOut(a: Algorithms, cfg: Config, n: Net, f: Flight, r: Msg)
    requires a.Valid() && cfg.Valid() && Unheard(a, cfg, n, f, r)
    ensures var n' := CpTicked(a, cfg, n, n.cp.tstamp + n.cp.respTimeoutMs + 1, Sent, AppOk);
            if n.cp.retries < CMD_MAX_RETRIES then
              n' == n.(cp := CpAwait(n.cp, n.cp.tstamp + n.cp.respTimeoutMs + 1))
            else n' == n.(cp := CpFail(n.cp))
  {
    hide FlightOk, Build, Answered;
    NothingWaiting(a, cfg, n.cp);
  }

  lemma GoesAgain(a: Algorithms, cfg: Config, n: Net, f: Flight)
    requires a.Valid() && cfg.Valid() && Bounded(n) && n.flight == Some(f) && f.sent && FlightOk(a, cfg, f)
    requires CpAlive(n.cp, f) && n.cp.phase == RetryCmd && n.replySlot == None
    ensures var n' := CpTicked(a, cfg, n, 0, Sent, AppOk);
            && n' == n.(cp := n'.cp, cmdSlot := Some(f.wire)) && Bounded(n')
            && CpAlive(n'.cp, f) && n'.cp.phase == ReplyWait && n'.cp.retries == n.cp.retries
  {
    hide FlightOk, CpBuild;
    CpRebuilds(a, cfg, n.cp, f);
    FlightSqn(a, cfg, f);
  }

  // Each answer lost, each retry lost, until the budget is spent.
  lemma {:induction false} Exhausts(a: Algorithms, cfg: Config, n: Net, f: Flight, r: Msg) returns (steps: seq<Step>, z: Net)
    requires a.Valid() && cfg.Valid() && Unheard(a, cfg, n, f, r)
    ensures Leads(a, cfg, n, steps, z)
    ensures z.cp.phase == PhyErr && z.synced && z.flight == Some(f) && Bounded(z)
    ensures z.pd == n.pd && z.done == n.done && z.runs == n.runs
    decreases CMD_MAX_RETRIES - n.cp.retries
  {
    hide Leads, Allowed, CpTicked, FlightOk, Answered;
    var late := n.cp.tstamp + n.cp.respTimeoutMs + 1;
    TimesOut(a, cfg, n, f, r);
    TickAllowed(cfg, n, late, Sent, AppOk);
    Leads1(a, cfg, n, CpTick(late, Sent, AppOk));
    var n1 := CpTicked(a, cfg, n, late, Sent, AppOk);
    if n.cp.retries >= CMD_MAX_RETRIES {
      steps, z := [CpTick(late, Sent, AppOk)], n1;
    } else {
      var more, n4 := Repeats(a, cfg, n1, f, r);
      var rest;
      rest, z := Exhausts(a, cfg, n4, f, r);
      LeadsOn(a, cfg, n1, more, n4, rest, z);
      LeadsOn(a, cfg, n, [CpTick(late, Sent, AppOk)], n1, more + rest, z);
      steps := [CpTick(late, Sent, AppOk)] + (more + rest);
    }
  }

  // Wait over, retry out and lost.
  lemma Repeats(a: Algorithms, cfg: Config, n: Net, f: Flight, r: Msg) returns (steps: seq<Step>, z: Net)
    requires a.Valid() && cfg.Valid() && n.cp.phase == Wait && Unheard(a, cfg, n.(cp := n.cp.(phase := ReplyWait)), f, r)
    ensures Leads(a, cfg, n, steps, z) && Unheard(a, cfg, z, f, r)
    ensures z.pd == n.pd && z.done == n.done && z.runs == n.runs && z.cp.retries == n.cp.retries
  {
    hide Leads, Allowed, FlightOk, Answered, CpBuild, CpReceive;
    var late := n.cp.tstamp + n.cp.waitMs;
    TickAllowed(cfg, n, late, Sent, AppOk);
    var n1 := CpTicked(a, cfg, n, late, Sent, AppOk);
    assert n1 == n.(cp := n.cp.(phase := RetryCmd));
    TickAllowed(cfg, n1, 0, Sent, AppOk);
    GoesAgain(a, cfg, n1, f);
    var n2 := CpTicked(a, cfg, n1, 0, Sent, AppOk);
    TwoSteps(a, cfg, n, CpTick(late, Sent, AppOk), n1, CpTick(0, Sent, AppOk), n2);
    z := NextNet(a, cfg, n2, LoseCmd);
    LossAllowed(cfg, n2, LoseCmd);
    Leads1(a, cfg, n2, LoseCmd);
    steps := [CpTick(late, Sent, AppOk), CpTick(0, Sent, AppOk)] + [LoseCmd];
    LeadsOn(a, cfg, n, [CpTick(late, Sent, AppOk), CpTick(0, Sent, AppOk)], n2, [LoseCmd], z);
  }

  lemma LossAllowed(cfg: Config, n: Net, step: Step)
    requires cfg.Valid() && Bounded(n) && (step == LoseCmd || step == LoseReply)
    ensures Allowed(cfg, n, step)
  {
  }

  // A command chosen on an idle plain link and put on the line.
  lemma GoesOut(a: Algorithms, cfg: Config, n: Net, m: Msg) returns (n1: Net, n2: Net, f: Flight)
    requires a.Valid() && cfg.Valid() && Bounded(n) && n.synced && n.flight == None && n.cp.phase == Idle && !n.cp.linkReset
    requires n.cp.session == None && CmdOk(m) && WireLen(CpEnd(cfg, n.cp), m, 0) <= cfg.cpMax
    ensures Allowed(cfg, n, CpChoose(m)) && n1 == NextNet(a, cfg, n, CpChoose(m)) && Bounded(n1) && n1.flight == None
    ensures n2 == CpTicked(a, cfg, n1, 0, Sent, AppOk)
    ensures Bounded(n2) && n2 == n.(cp := n2.cp, cmdSlot := Some(f.wire), replySlot := None, flight := Some(f))
    ensures FlightOk(a, cfg, f) && f.cmd == m && f.sqn == NextSeq(n.cp.sqn) && f.sent && f.session == None
    ensures CpAlive(n2.cp, f) && n2.cp.phase == ReplyWait
  {
    hide FlightOk, Build, CpBuild;
    n1 := NextNet(a, cfg, n, CpChoose(m));
    assert WireLen(CpEnd(cfg, n1.cp), m, 0) == WireLen(CpEnd(cfg, n.cp), m, 0);
    var cp';
    cp', f := CpBuilds(a, cfg, n1.cp, true);
    n2 := CpTicked(a, cfg, n1, 0, Sent, AppOk);
    FlightSqn(a, cfg, f);
  }

  // The device runs and answers it, and the answer is lost.
  lemma Unhears(a: Algorithms, cfg: Config, n: Net, f: Flight, r: Msg) returns (steps: seq<Step>, z: Net)
    requires a.Valid() && cfg.Valid() && Bounded(n) && n.synced && n.flight == Some(f) && f.sent && FlightOk(a, cfg, f)
    requires f.session == None && CpAlive(n.cp, f) && n.cp.phase == ReplyWait && n.cmdSlot == Some(f.wire) && n.replySlot == None
    requires Behind(n.pd, f.sqn, None) && f.sqn > 0 && n.done == n.runs == []
    requires ReplyOk(r) && WireLen(PdEnd(cfg, n.pd, cfg.mark), r, 0) <= cfg.pdMax
    ensures Leads(a, cfg, n, steps, z) && Unheard(a, cfg, z, f, r)
  {
    hide Leads, FlightOk, Build, PdReceive, WireLen, WireSeq;
    PdTakes(a, cfg, f, n.pd, r);
    WireSeqOf(a, cfg, f);
    FlightSqn(a, cfg, f);
    var pd' := n.pd.(session := f.session, cmdId := f.cmd.id);
    var built := PdRuns(a, cfg, n.pd, pd', f.wire, Sent, f.cmd, r);
    ReplyRebuild(a, PdEnd(cfg, pd', cfg.mark), ReplyEnd(cfg, f), r, cfg.pdMax);
    var n1 := PdTicked(a, cfg, n, Sent, r);
    z := NextNet(a, cfg, n1, LoseReply);
    TwoSteps(a, cfg, n, PdTick(Sent, r), n1, LoseReply, z);
    steps := [PdTick(Sent, r), LoseReply];
  }

  lemma UnheardFacts(a: Algorithms, cfg: Config, n: Net, f: Flight, r: Msg)
    requires a.Valid() && cfg.Valid() && Unheard(a, cfg, n, f, r)
    ensures 0 <= f.sqn <= 3 && f.session == None
    ensures Caught(n.pd, f) && Answered(a, cfg, n.pd, f, r) && n.done == [] && n.runs == [(f.cmd, r)]
  {
    hide Answered;
  }

  lemma OrphanIdle(a: Algorithms, cfg: Config, n: Net, f: Flight)
    requires a.Valid() && cfg.Valid() && Inv(a, cfg, n)
    requires n.cp.phase == PhyErr && n.synced && n.flight == Some(f) && f.session == None
    ensures var n' := NextNet(a, cfg, n, CpAbandon);
            && Orphaned(a, cfg, n', f) && Bounded(n') && n'.flight == None && !n'.cp.linkReset && n'.cp.session == None
            && n'.cp.phase == Idle
  {
    hide Inv, FlightOk, WireLen;
    GivenUp(a, cfg, n, f);
  }

  // The next command after it, with the same id, gets the old reply.
  lemma SecondCommand(a: Algorithms, cfg: Config, n0: Net, n: Net, f: Flight, g: Msg, r: Msg)
    returns (wait: seq<Step>, m: Net, after: seq<Step>, z: Net)
    requires a.Valid() && cfg.Valid() && Inv(a, cfg, n) && n0.cp.session == None
    requires n.cp.phase == PhyErr && n.synced && n.flight == Some(f) && f.session == None && Bounded(n) && 0 <= f.sqn <= 3
    requires Caught(n.pd, f) && Answered(a, cfg, n.pd, f, r)
    requires CmdOk(g) && f.cmd.id == g.id && WireLen(CpEnd(cfg, n0.cp), g, 0) <= cfg.cpMax
    ensures Waiting(a, cfg, NextNet(a, cfg, n, CpAbandon), wait, m) && Out(m)
    ensures AllQuiet(after) && Leads(a, cfg, m, after, z)
    ensures z.done == n.done + [(g, r)] && z.runs == n.runs
  {
    hide Leads, Waiting, Allowed, WireLen, PdShape, FlightOk, Inv, CpTicked, Orphaned, Reused, Answered, Caught;
    OrphanIdle(a, cfg, n, f);
    var n' := NextNet(a, cfg, n, CpAbandon);
    SameWireLen(cfg, n0.cp, n'.cp, g);
    var n1, n2, h := GoesOut(a, cfg, n', g);
    m := n2;
    TickAllowed(cfg, n1, 0, Sent, AppOk);
    wait := [CpChoose(g), CpTick(0, Sent, AppOk)];
    WaitsTwo(a, cfg, n', CpChoose(g), n1, CpTick(0, Sent, AppOk), m);
    Reaches(a, cfg, n', f, wait, m);
    after, z := OldReplyTaken(a, cfg, m, f, h, r);
  }

  lemma SameWireLen(cfg: Config, cp: CpState, cp': CpState, m: Msg)
    requires cfg.Valid() && cp.session == cp'.session == None
    ensures WireLen(CpEnd(cfg, cp), m, 0) == WireLen(CpEnd(cfg, cp'), m, 0)
  {
  }

  lemma WaitsTwo(a: Algorithms, cfg: Config, n: Net, s0: Step, n1: Net, s1: Step, n2: Net)
    requires a.Valid() && cfg.Valid() && Bounded(n) && Bounded(n1) && !Out(n) && !Out(n1)
    requires (Quiet(s0) || s0.CpChoose?) && (Quiet(s1) || s1.CpChoose?)
    requires Allowed(cfg, n, s0) && n1 == NextNet(a, cfg, n, s0) && Allowed(cfg, n1, s1) && n2 == NextNet(a, cfg, n1, s1)
    ensures Waiting(a, cfg, n, [s0, s1], n2)
  {
    hide Allowed, NextNet;
    assert [s0, s1][1..] == [s1] && [s1][1..] == [];
    assert Waiting(a, cfg, n1, [s1], n2);
  }

  // From any established plain link: f goes out, is run and answered with r; every answer and every
  // retry is lost; the panel gives f up and sends g, which has the same id. The device repeats r,
  // and the panel completes g with it although g was never run.
  lemma AbandonedCommandRun(a: Algorithms, cfg: Config, n0: Net, f: Msg, g: Msg, r: Msg)
    returns (before: seq<Step>, n: Net, wait: seq<Step>, m: Net, after: seq<Step>, z: Net)
    requires a.Valid() && cfg.Valid() && Established(a, cfg, n0) && n0.cp.session == None
    requires CmdOk(f) && CmdOk(g) && ReplyOk(r) && f.id == g.id
    requires WireLen(CpEnd(cfg, n0.cp), f, 0) <= cfg.cpMax && WireLen(CpEnd(cfg, n0.cp), g, 0) <= cfg.cpMax
    requires WireLen(PdEnd(cfg, n0.pd, cfg.mark), r, 0) <= cfg.pdMax
    ensures Leads(a, cfg, n0, before, n) && n.cp.phase == PhyErr && n.flight.Some? && Bounded(n)
    ensures Waiting(a, cfg, NextNet(a, cfg, n, CpAbandon), wait, m) && Out(m)
    ensures AllQuiet(after) && Leads(a, cfg, m, after, z)
    ensures z.done == [(g, r)] && z.runs == [(f, r)]
  {
    hide Leads, Waiting, Allowed, WireLen, PdShape, FlightOk, Inv, CpTicked, Orphaned, Reused, Unheard;
    var n1, n2, h := GoesOut(a, cfg, n0, f);
    TickAllowed(cfg, n1, 0, Sent, AppOk);
    TwoSteps(a, cfg, n0, CpChoose(f), n1, CpTick(0, Sent, AppOk), n2);
    var unhear, n3 := Unhears(a, cfg, n2, h, r);
    var exhaust;
    exhaust, n := Exhausts(a, cfg, n3, h, r);
    LeadsOn(a, cfg, n2, unhear, n3, exhaust, n);
    LeadsOn(a, cfg, n0, [CpChoose(f), CpTick(0, Sent, AppOk)], n2, unhear + exhaust, n);
    before := [CpChoose(f), CpTick(0, Sent, AppOk)] + (unhear + exhaust);
    StartInv(a, cfg, n0);
    LeadsKeepsInv(a, cfg, n0, before, n);
    UnheardFacts(a, cfg, n3, h, r);
    wait, m, after, z := SecondCommand(a, cfg, n0, n, h, g, r);
  }
}
