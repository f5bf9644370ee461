// Several devices on one bus under osdp_cp_refresh of src/osdp_cp.c: one transmit buffer, one device
// at a time.
module Bus {
  import opened Bytes
  import opened Packet
  import opened Link
  import opened Exchange

  // cp_phy_bus_is_busy
  predicate HasBus(cp: CpState) { cp.phase == SendCmd || cp.phase == SendCmdWait || cp.phase == ReplyWait }

  // What one state_update meets: the phy's surroundings, a command to issue if the phy is idle, and
  // whether the state machine restarts the link once a command is settled.
  datatype Input = Input(tick: Tick, issue: Option<Msg>, restart: bool)

  // The device after its turn, the packet it finalized in the shared buffer, and whether the channel
  // took what was in there.
  datatype TurnResult = TurnResult(cp: CpState, built: Option<seq<byte>>, sent: bool)

  // state_update as far as the bus is concerned.
  function Turn(a: Algorithms, cfg: Config, cp: CpState, i: Input): TurnResult
    requires a.Valid() && cfg.Valid() && InRange(cp)
  {
    if Running(cp) then
      var st := After(a, cfg, cp, i.tick);
      if Running(st.cp) then TurnResult(st.cp, Built(a, cfg, cp, st), st.tx.Some?)
      else TurnResult(Settled(st.cp, i.restart), Built(a, cfg, cp, st), st.tx.Some?)
    else if cp.phase == Idle then
      TurnResult(if i.issue.Some? then CpIssue(cp, i.issue.value) else if i.restart then CpRestart(cp) else cp, None, false)
    else TurnResult(Settled(cp, i.restart), None, false)
  }

  // A retry or a first transmission finalizes a packet, unless the build fails.
  function Built(a: Algorithms, cfg: Config, cp: CpState, st: CpStep): Option<seq<byte>> {
    if (cp.phase == SendCmd || cp.phase == RetryCmd) && HasBus(st.cp) then Some(st.cp.buf) else None
  }

  // osdp_phy_state_reset after an exchange.
  function Settled(cp: CpState, restart: bool): CpState {
    if restart || cp.linkReset then CpRestart(cp) else CpGiveUp(cp)
  }

  // ---- One round ----

  ghost predicate Fit(a: Algorithms, cfgs: seq<Config>, pds: seq<CpState>) {
    && a.Valid() && |cfgs| == |pds|
    && forall i :: 0 <= i < |pds| ==> cfgs[i].Valid() && InRange(pds[i])
  }

  function After1(current: nat, n: nat): nat { if current + 1 >= n then 0 else current + 1 }

  // What a refresh makes of the devices, from the count-th turn on: one turn each, from the current one
  // round, until one has the bus.
  ghost function Round(a: Algorithms, cfgs: seq<Config>, pds: seq<CpState>, current: nat, inputs: seq<Input>, count: nat)
    : (seq<CpState>, nat)
    requires Fit(a, cfgs, pds) && current < |pds| == |inputs| && count <= |pds|
    decreases |inputs| - count
  {
    if count == |inputs| then (pds, current)
    else
      TurnFacts(a, cfgs[current], pds[current], inputs[count]);
      var r := Turn(a, cfgs[current], pds[current], inputs[count]).cp;
      var next := pds[current := r];
      if HasBus(r) then (next, current) else Round(a, cfgs, next, After1(current, |pds|), inputs, count + 1)
  }

  class Controller {
    const a: Algorithms
    const cfgs: seq<Config>
    var pds: seq<CpState>
    var current: nat
    var buf: seq<byte>               // the transmit staging buffer all devices share
    var line: seq<seq<byte>>         // what the channel took, in order
    ghost var finalized: seq<seq<byte>>   // each of them as it was when it was finalized

    ghost predicate Valid()
      reads this
    {
      && a.Valid() && |cfgs| == |pds| && current < |pds|
      && (forall i :: 0 <= i < |pds| ==> cfgs[i].Valid() && InRange(pds[i]))
      && (forall i :: 0 <= i < |pds| && HasBus(pds[i]) ==> i == current)
      && (pds[current].phase == SendCmdWait ==> buf == pds[current].buf)
      && line == finalized
    }

    constructor (algorithms: Algorithms, configs: seq<Config>, m: Msg)
      requires algorithms.Valid() && |configs| > 0 && forall i :: 0 <= i < |configs| ==> configs[i].Valid()
      ensures Valid() && |pds| == |configs|
    {
      a, cfgs := algorithms, configs;
      pds := seq(|configs|, _ => CpState(Idle, -1, 0, 0, m, None, [], 0, 0, 0, false));
      current, buf, line, finalized := 0, [], [], [];
    }

    // One device's turn; what the channel takes is what the shared buffer holds.
    method TakeTurn(i: Input)
      requires Valid()
      modifies `pds, `buf, `line, `finalized
      ensures Valid() && |pds| == |old(pds)| && old(line) <= line
      ensures pds[current] == Turn(a, cfgs[current], old(pds[current]), i).cp
      ensures forall k :: 0 <= k < |pds| && k != current ==> pds[k] == old(pds[k])
    {
      var cp := pds[current];
      TurnFacts(a, cfgs[current], cp, i);
      var r := Turn(a, cfgs[current], cp, i);
      if r.built.Some? {
        buf := r.built.value;
      }
      if r.sent {
        line := line + [buf];
        finalized := finalized + [if r.built.Some? then r.built.value else cp.buf];
      }
      pds := pds[current := r.cp];
    }

    // osdp_cp_refresh: after every turn at most one device has the bus and it is the current one, and
    // every packet on the line is, byte for byte, the one that was finalized. A device that has the
    // bus and keeps it is the only one that moves.
    method Refresh(inputs: seq<Input>)
      requires Valid() && |inputs| == |pds|
      modifies `pds, `current, `buf, `line, `finalized
      ensures Valid() && |pds| == |old(pds)|
      ensures Fit(a, cfgs, old(pds)) && (pds, current) == Round(a, cfgs, old(pds), old(current), inputs, 0)
      ensures old(line) <= line
      ensures forall k :: 0 <= k < |pds| && HasBus(pds[k]) ==> k == current
      ensures HasBus(Turn(a, cfgs[old(current)], old(pds[current]), inputs[0]).cp) ==>
        current == old(current) && forall k :: 0 <= k < |pds| && k != current ==> pds[k] == old(pds[k])
    {
      hide Turn, Round;
      var count := 0;
      while count < |pds|
        invariant Valid() && 0 <= count <= |pds| == |old(pds)|
        invariant old(line) <= line
        invariant Fit(a, cfgs, pds) && Fit(a, cfgs, old(pds)) && old(current) < |pds|
        invariant Round(a, cfgs, old(pds), old(current), inputs, 0) == Round(a, cfgs, pds, current, inputs, count)
        invariant count == |pds| ==> Round(a, cfgs, pds, current, inputs, count) == (pds, current)
        invariant count == 0 ==> current == old(current) && pds == old(pds)
        invariant count > 0 ==> !HasBus(Turn(a, cfgs[old(current)], old(pds[current]), inputs[0]).cp)
        decreases |pds| - count
      {
        ghost var was := pds;
        RoundStep(a, cfgs, was, current, inputs, count);
        TakeTurn(inputs[count]);
        assert pds == was[current := pds[current]];
        if HasBus(pds[current]) {
          break;
        }
        current := if current + 1 >= |pds| then 0 else current + 1;
        count := count + 1;
        RoundOver(a, cfgs, pds, current, inputs, count);
      }
    }
  }

  lemma RoundOver(a: Algorithms, cfgs: seq<Config>, pds: seq<CpState>, current: nat, inputs: seq<Input>, count: nat)
    requires Fit(a, cfgs, pds) && current < |pds| == |inputs| && count <= |pds|
    ensures count == |pds| ==> Round(a, cfgs, pds, current, inputs, count) == (pds, current)
  {
  }

  lemma RoundStep(a: Algorithms, cfgs: seq<Config>, pds: seq<CpState>, current: nat, inputs: seq<Input>, count: nat)
    requires Fit(a, cfgs, pds) && current < |pds| == |inputs| && count < |pds|
    ensures var r := Turn(a, cfgs[current], pds[current], inputs[count]).cp;
            && Fit(a, cfgs, pds[current := r]) && After1(current, |pds|) < |pds|
            && Round(a, cfgs, pds, current, inputs, count)
            == if HasBus(r) then (pds[current := r], current) else Round(a, cfgs, pds[current := r], After1(current, |pds|), inputs, count + 1)
  {
    hide Turn;
    TurnFacts(a, cfgs[current], pds[current], inputs[count]);
  }

  // The k-th device from current on, round the bus.
  function At(current: nat, k: nat, n: nat): nat { if current + k >= n then current + k - n else current + k }

  lemma NextAt(current: nat, k: nat, n: nat)
    requires current < n && 0 < k < n
    ensures At(After1(current, n), k - 1, n) == At(current, k, n) != current
    ensures At(current, k, n) < n
  {
  }

  lemma {:induction false} RoundVisits(a: Algorithms, cfgs: seq<Config>, pds: seq<CpState>, current: nat, inputs: seq<Input>, count: nat)
    requires Fit(a, cfgs, pds) && current < |pds| == |inputs| && count <= |pds|
    ensures var (q, c), n := Round(a, cfgs, pds, current, inputs, count), |pds|;
            && |q| == n && c < n
            && (HasBus(q[c]) || forall k :: 0 <= k < n - count ==> HadTurn(a, cfgs, pds, q, At(current, k, n), inputs[count + k]))
            && forall k :: n - count <= k < n ==> Untouched(pds, q, At(current, k, n))
    decreases |inputs| - count
  {
    hide Turn, At, After1;
    var n := |pds|;
    if count < n {
      TurnFacts(a, cfgs[current], pds[current], inputs[count]);
      var r := Turn(a, cfgs[current], pds[current], inputs[count]).cp;
      var next := pds[current := r];
      var (q, c) := Round(a, cfgs, pds, current, inputs, count);
      First(current, n);
      if !HasBus(r) {
        RoundVisits(a, cfgs, next, After1(current, n), inputs, count + 1);
        assert Untouched(next, q, At(After1(current, n), n - 1, n));
        forall k | 0 <= k < n - count && !HasBus(q[c])
          ensures HadTurn(a, cfgs, pds, q, At(current, k, n), inputs[count + k])
        {
          if k > 0 {
            NextAt(current, k, n);
            assert HadTurn(a, cfgs, next, q, At(After1(current, n), k - 1, n), inputs[count + 1 + (k - 1)]);
          }
        }
      }
      forall k | n - count <= k < n ensures Untouched(pds, q, At(current, k, n)) {
        NextAt(current, k, n);
        if !HasBus(r) {
          assert Untouched(next, q, At(After1(current, n), k - 1, n));
        }
      }
    } else {
      forall k | 0 <= k < n ensures Untouched(pds, pds, At(current, k, n)) {
        First(current, n);
        if k > 0 {
          NextAt(current, k, n);
        }
      }
    }
  }

  lemma First(current: nat, n: nat)
    requires current < n
    ensures At(current, 0, n) == current == At(After1(current, n), n - 1, n) && After1(current, n) < n
  {
  }

  ghost predicate HadTurn(a: Algorithms, cfgs: seq<Config>, was: seq<CpState>, now: seq<CpState>, k: nat, i: Input)
    requires Fit(a, cfgs, was)
  {
    k < |was| == |now| && now[k] == Turn(a, cfgs[k], was[k], i).cp
  }

  predicate Untouched(was: seq<CpState>, now: seq<CpState>, k: nat) { k < |was| == |now| && now[k] == was[k] }

  // A refresh after which nobody has the bus has given every device its turn, one each, round from where the
  // last refresh stopped; otherwise it stopped at the device that has it.
  lemma EveryDeviceHasItsTurn(a: Algorithms, cfgs: seq<Config>, pds: seq<CpState>, current: nat, inputs: seq<Input>, k: nat)
    requires Fit(a, cfgs, pds) && current < |pds| == |inputs| && k < |pds|
    ensures var (q, c) := Round(a, cfgs, pds, current, inputs, 0);
            |q| == |pds| && c < |q| && (HasBus(q[c]) || HadTurn(a, cfgs, pds, q, At(current, k, |pds|), inputs[k]))
  {
    hide Turn;
    RoundVisits(a, cfgs, pds, current, inputs, 0);
    var (q, c) := Round(a, cfgs, pds, current, inputs, 0);
    assert HasBus(q[c]) || HadTurn(a, cfgs, pds, q, At(current, k, |pds|), inputs[0 + k]);
  }

  // What a device's turn is: a step of its link while an exchange runs; after one the phy is idle again,
  // restarted if the reply or the state machine asks for that; an idle one issues what it is given, or
  // restarts if asked to. The channel takes the bytes the link sent, from the packet finalized in this turn
  // or the one still parked.
  lemma TurnIsTheLinks(a: Algorithms, cfg: Config, cp: CpState, i: Input)
    requires a.Valid() && cfg.Valid() && InRange(cp)
    ensures var r := Turn(a, cfg, cp, i);
            && (Running(cp) ==>
                  var st := After(a, cfg, cp, i.tick);
                  && (Running(st.cp) ==> r.cp == st.cp)
                  && (!Running(st.cp) ==> r.cp == if i.restart || st.cp.linkReset then CpRestart(st.cp) else CpGiveUp(st.cp))
                  && (if r.sent then st.tx == Some(if r.built.Some? then r.built.value else cp.buf) else st.tx == None))
            && (!Running(cp) ==> !r.sent && r.built == None)
            && (cp.phase == Idle ==>
                  r.cp == if i.issue.Some? then CpIssue(cp, i.issue.value) else if i.restart then CpRestart(cp) else cp)
            && (cp.phase == Done || cp.phase == PhyErr ==>
                  r.cp == if i.restart || cp.linkReset then CpRestart(cp) else CpGiveUp(cp))
  {
    hide After;
    if Running(cp) {
      AfterFacts(a, cfg, cp, i.tick);
      SendsItsBuffer(a, cfg, cp, i.tick);
    }
  }

  lemma SendsItsBuffer(a: Algorithms, cfg: Config, cp: CpState, t: Tick)
    requires a.Valid() && cfg.Valid() && InRange(cp)
    ensures var st := After(a, cfg, cp, t); st.tx.Some? ==> st.tx == Some(st.cp.buf) && (cp.phase == SendCmdWait ==> st.cp.buf == cp.buf)
  {
    hide ProcessReply, CpBuild;
  }

  // A turn leaves the device either off the bus or holding exactly what it finalized.
  lemma TurnFacts(a: Algorithms, cfg: Config, cp: CpState, i: Input)
    requires a.Valid() && cfg.Valid() && InRange(cp)
    ensures var r := Turn(a, cfg, cp, i);
            && InRange(r.cp)
            && (r.cp.phase == SendCmdWait ==> if r.built.Some? then r.cp.buf == r.built.value
                                              else cp.phase == SendCmdWait && r.cp.buf == cp.buf)
            && (r.sent && r.built == None ==> cp.phase == SendCmdWait)
  {
    hide After, Running;
    AfterInRange(a, cfg, cp, i.tick);
    if Running(cp) {
      AfterFacts(a, cfg, cp, i.tick);
    }
    IdlePhase(cp);
  }

  lemma IdlePhase(cp: CpState)
    ensures Running(cp) <==> cp.phase != Idle && cp.phase != Done && cp.phase != PhyErr
  {
  }

  lemma AfterFacts(a: Algorithms, cfg: Config, cp: CpState, t: Tick)
    requires a.Valid() && cfg.Valid() && InRange(cp)
    ensures var st := After(a, cfg, cp, t);
            && (st.cp.phase == SendCmdWait ==> cp.phase == SendCmd || cp.phase == RetryCmd
                                               || (cp.phase == SendCmdWait && st.cp.buf == cp.buf))
            && (st.tx.Some? ==> HasBus(st.cp) && (cp.phase == SendCmd || cp.phase == RetryCmd || cp.phase == SendCmdWait))
  {
    hide ProcessReply, CpBuild;
  }
}
