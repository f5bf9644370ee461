// The panel's protocol state machine for one device (state_update of src/osdp_cp.c, card sessions
// compiled out): pure transition tables, effects that run once per transition, entry actions, and
// requests that override the tables.
module CpState {

  const SC_RETRY_MS := 600 * 1000        // OSDP_PD_SC_RETRY_MS
  const RETRY_WAIT_MAX_MS := 300 * 1000  // OSDP_ONLINE_RETRY_WAIT_MAX_MS

  datatype State = Init | CapDet | ScChlng | ScScrypt | SetScbk | Online | Offline | Disabled

  datatype Channel = Channel(
    active: bool,        // PD_FLAG_SC_ACTIVE
    useScbkd: bool,      // PD_FLAG_SC_USE_SCBKD
    established: bool,   // PD_FLAG_SC_ESTABLISHED
    capable: bool)       // PD_FLAG_SC_CAPABLE

  // CP_REQ_RESTART_SC, OFFLINE, DISABLE, ENABLE
  datatype Requests = Requests(restart: bool, offline: bool, disable: bool, enable: bool)

  datatype Clock = Clock(tstamp: nat, waitMs: nat, scTstamp: nat)

  datatype Device = Device(
    state: State,
    sc: Channel,
    req: Requests,
    hasKey: bool,        // no PD_FLAG_SC_DISABLED
    enforce: bool,       // PD_FLAG_ENFORCE_SECURE
    clock: Clock,
    toldOnline: bool)    // last PD_STATUS notification

  // What one pass of state_update finds once the phy has settled. ok: the command was answered as
  // expected, or there was none. keyset: the answer was the ACK to a KEYSET of the application.
  // broken: the phy dropped the session over a bad MAC, which is never ok. caps: the device's answer
  // to the capability request. reset: the reply was out of sequence.
  datatype Pass = Pass(now: nat, ok: bool, keyset: bool, broken: bool, caps: bool, reset: bool)

  predicate Capable(d: Device) { d.sc.capable && d.hasKey }

  predicate ShouldRetry(d: Device, now: nat) { Capable(d) && !d.sc.active && now - d.clock.scTstamp > SC_RETRY_MS }

  // get_next_ok_state
  function NextOk(d: Device, now: nat): State {
    match d.state
    case Init => CapDet
    case CapDet => if Capable(d) then ScChlng else if d.enforce then Offline else Online
    case ScChlng => ScScrypt
    case ScScrypt => if d.sc.useScbkd then SetScbk else Online
    case SetScbk => ScChlng
    case Online => if ShouldRetry(d, now) then ScChlng else Online
    case Offline => if now - d.clock.tstamp > d.clock.waitMs then Init else Offline
    case Disabled => Disabled
  }

  // get_next_err_state
  function NextErr(d: Device): State {
    match d.state
    case ScChlng =>
      if d.enforce then Offline else if !d.sc.useScbkd && !d.sc.established then ScChlng else Online
    case ScScrypt => if d.enforce then Offline else Online
    case SetScbk => if d.enforce || d.sc.useScbkd then Offline else Online
    case Disabled => Disabled
    case _ => Offline
  }

  // cp_keyset_complete
  function KeysetDone(d: Device): Device {
    d.(sc := d.sc.(active := false, useScbkd := false),
       req := d.req.(restart := d.req.restart || d.state == Online))
  }

  // cp_transition_effects, field by field.
  predicate ActiveAfter(d: Device, ok: bool) {
    if ok && d.state == ScScrypt then true else d.sc.active && d.state != SetScbk
  }

  predicate ScbkdAfter(d: Device, next: State, ok: bool) {
    if ok then d.sc.useScbkd && d.state != SetScbk && !(d.state == CapDet && next == ScChlng)
    else if d.state == ScChlng && next != Offline then next == ScChlng
    else d.sc.useScbkd
  }

  function Effects(d: Device, next: State, ok: bool, now: nat): Device {
    d.(sc := Channel(ActiveAfter(d, ok), ScbkdAfter(d, next, ok),
                     d.sc.established || (ok && d.state == ScScrypt && next != SetScbk), d.sc.capable),
       clock := if !ok && d.state == ScChlng && next != Offline && next != ScChlng
                then d.clock.(scTstamp := now) else d.clock)
  }

  // cp_state_change, field by field.
  function Enter(d: Device, next: State, now: nat): Device {
    var up := next != Offline && next != Disabled;
    Device(next, d.sc.(active := d.sc.active && up),
           d.req.(restart := d.req.restart && up, offline := d.req.offline && up), d.hasKey, d.enforce,
           if next == Offline then Clock(now, RETRY_WAIT_MAX_MS, d.clock.scTstamp) else d.clock,
           if next == Online then d.state != Online || d.toldOnline else d.state != Online && d.toldOnline)
  }

  // The phy's and the reply decoder's marks on the device, before the tables are consulted.
  function Settle(d: Device, p: Pass): Device {
    var keyset := d.state == Online && p.keyset;
    d.(sc := Channel(d.sc.active && !p.broken && !keyset, d.sc.useScbkd && !keyset, d.sc.established,
                     if d.state == CapDet && p.ok then p.caps else d.sc.capable),
       req := d.req.(restart := d.req.restart || keyset),
       clock := if d.sc.active && !p.broken then d.clock.(scTstamp := p.now) else d.clock)
  }

  // The tables, or OFFLINE when the link is out of sequence.
  function Table(s: Device, p: Pass): State {
    if p.reset then Offline else if p.ok && !p.broken then NextOk(s, p.now) else NextErr(s)
  }

  // What the tables, their effects and the ONLINE requests make of a settled device.
  function Decide(s: Device, p: Pass): (Device, State) {
    var n := Table(s, p);
    if p.reset then (s, n)
    else
      var e := Effects(s, n, p.ok && !p.broken, p.now);
      if s.state != Online && n != Online then (e, n)
      else
        (e.(req := e.req.(restart := false, offline := false)),
         if e.req.offline then Offline else if e.req.restart then ScChlng else n)
  }

  // DISABLE and ENABLE override everything else.
  function Apply(t: Device, n: State, now: nat): Device {
    var next := if t.req.enable then Init else if t.req.disable then Disabled else n;
    var u := t.(req := t.req.(disable := false, enable := false));
    if t.state != next then Enter(u, next, now) else u
  }

  // state_update
  function Update(d: Device, p: Pass): Device {
    var (t, n) := Decide(Settle(d, p), p);
    Apply(t, n, p.now)
  }

  // ---- Runs ----

  datatype Event = Tick(p: Pass) | GoOffline | Disable | Enable | RaiseEnforce

  function Next(d: Device, e: Event): Device {
    match e
    case Tick(p) => Update(d, p)
    case GoOffline => d.(req := d.req.(offline := true))            // a file transfer that asked for it
    case Disable => if d.state == Disabled then d else d.(req := d.req.(disable := true))
    case Enable => if d.state == Disabled then d.(req := d.req.(enable := true)) else d
    case RaiseEnforce => if d.hasKey then d.(enforce := true) else d   // osdp_cp_modify_flag
  }

  // osdp_cp_setup: flags cleared, INIT is state 0.
  predicate Fresh(d: Device) {
    && d.state == Init && !d.sc.active && !d.sc.useScbkd && !d.sc.established && !d.req.restart && !d.req.offline
    && !d.req.disable && !d.req.enable && !d.toldOnline && (d.enforce ==> d.hasKey)
  }

  predicate Run(ds: seq<Device>, es: seq<Event>) {
    && |ds| == |es| + 1 && Fresh(ds[0])
    && forall i :: 0 <= i < |es| ==> ds[i + 1] == Next(ds[i], es[i])
  }

  predicate Inv(d: Device) {
    && (d.sc.active ==> d.state == SetScbk || d.state == Online)
    && (d.sc.active && d.sc.useScbkd ==> d.state == SetScbk)
    && (d.state == SetScbk ==> d.sc.active && d.sc.useScbkd)
    && (d.sc.established ==> !d.sc.useScbkd)
    && !d.req.restart && (d.toldOnline <==> d.state == Online)
    && (d.state == Disabled ==> !d.req.disable) && (d.req.enable ==> d.state == Disabled)
  }

  // A decision that keeps the invariant, whatever DISABLE and ENABLE make of it.
  predicate Sound(d: Device, t: Device, n: State) {
    && t.state == d.state && t.toldOnline == d.toldOnline && t.hasKey == d.hasKey && t.enforce == d.enforce
    && t.req.disable == d.req.disable && t.req.enable == d.req.enable
    && (t.sc.active ==> n == SetScbk || n == Online || n == Offline)
    && (n == SetScbk ==> t.sc.active && t.sc.useScbkd)
    && (t.sc.active && t.sc.useScbkd ==> n != Online)
    && (t.sc.established ==> !t.sc.useScbkd)
    && (t.req.restart ==> n == Offline && t.state != Offline)
    && (d.state == Disabled ==> !t.sc.active && !t.req.restart) && (n == d.state ==> n != SetScbk && !t.req.restart)
    && (n == d.state && n != Online ==> !t.sc.active)
  }

  lemma DecideSound(d: Device, p: Pass)
    requires Inv(d)
    ensures var (t, n) := Decide(Settle(d, p), p); Sound(d, t, n)
  {
    match d.state
    case Init =>
    case CapDet =>
    case ScChlng =>
    case ScScrypt =>
    case SetScbk =>
    case Online =>
    case Offline =>
    case Disabled =>
  }

  lemma ApplyKeeps(d: Device, t: Device, n: State, now: nat)
    requires Inv(d) && Sound(d, t, n)
    ensures Inv(Apply(t, n, now))
  {
  }

  lemma StepKeeps(d: Device, e: Event)
    requires Inv(d)
    ensures Inv(Next(d, e))
  {
    hide Decide, Settle, Apply, Sound;
    match e
    case Tick(p) =>
      DecideSound(d, p);
      var (t, n) := Decide(Settle(d, p), p);
      ApplyKeeps(d, t, n, p.now);
      assert Next(d, e) == Apply(t, n, p.now);
    case GoOffline =>
    case Disable =>
    case Enable =>
    case RaiseEnforce =>
  }

  lemma {:induction false} RunKeeps(ds: seq<Device>, es: seq<Event>, i: nat)
    requires Run(ds, es) && i < |ds|
    ensures Inv(ds[i])
  {
    hide Next, Inv;
    if i == 0 {
      FreshInv(ds[0]);
    } else {
      RunKeeps(ds, es, i - 1);
      StepKeeps(ds[i - 1], es[i - 1]);
    }
  }

  lemma FreshInv(d: Device)
    requires Fresh(d)
    ensures Inv(d)
  {
  }

  // Between passes a secure session exists only in SET_SCBK or ONLINE, one on the default key only
  // in SET_SCBK, no handshake command is ever built under one, and the last status notification
  // tells the truth.
  lemma ChannelDiscipline(ds: seq<Device>, es: seq<Event>, i: nat)
    requires Run(ds, es) && i < |ds|
    ensures var d := ds[i];
            && (d.sc.active ==> d.state == SetScbk || d.state == Online)
            && (d.sc.active && d.sc.useScbkd <==> d.state == SetScbk)
            && (d.state == ScChlng || d.state == ScScrypt ==> !d.sc.active)
            && (d.toldOnline <==> d.state == Online)
  {
    RunKeeps(ds, es, i);
  }

  // Set up with ENFORCE_SECURE, the panel is never ONLINE without a session on the real key.
  lemma {:induction false} EnforcedOnline(ds: seq<Device>, es: seq<Event>, i: nat)
    requires Run(ds, es) && ds[0].enforce && i < |ds|
    ensures ds[i].enforce && !ds[i].sc.useScbkd && ds[i].hasKey && (ds[i].state == Online ==> ds[i].sc.active)
  {
    hide Next;
    if i > 0 {
      EnforcedOnline(ds, es, i - 1);
      RunKeeps(ds, es, i - 1);
      EnforcedStep(ds[i - 1], es[i - 1]);
    }
  }

  lemma EnforcedStep(d: Device, e: Event)
    requires Inv(d) && d.enforce && !d.sc.useScbkd && d.hasKey && (d.state == Online ==> d.sc.active)
    ensures var t := Next(d, e); t.enforce && !t.sc.useScbkd && t.hasKey && (t.state == Online ==> t.sc.active)
  {
    hide Decide, Settle, Apply;
    if e.Tick? {
      EnforcedDecision(d, e.p);
      var (t, n) := Decide(Settle(d, e.p), e.p);
      EnforcedApply(d, t, n, e.p.now);
    }
  }

  lemma EnforcedDecision(d: Device, p: Pass)
    requires Inv(d) && d.enforce && !d.sc.useScbkd && d.hasKey && (d.state == Online ==> d.sc.active)
    ensures var (t, n) := Decide(Settle(d, p), p);
            t.state == d.state && t.enforce && !t.sc.useScbkd && t.hasKey && (n == Online ==> t.sc.active)
  {
    match d.state
    case CapDet =>
    case ScChlng =>
    case ScScrypt =>
    case SetScbk =>
    case Online =>
    case _ =>
  }

  lemma EnforcedApply(d: Device, t: Device, n: State, now: nat)
    requires t.enforce && !t.sc.useScbkd && t.hasKey && (n == Online ==> t.sc.active)
    ensures var u := Apply(t, n, now); u.enforce && !u.sc.useScbkd && u.hasKey && (u.state == Online ==> u.sc.active)
  {
  }

  // ... but raised on a running plain link it does not take the link down: the device stays ONLINE
  // in the clear until a handshake is due or the link fails.
  lemma RaisedLate(d: Device, p: Pass)
    requires Inv(d) && d.state == Online && !d.sc.active && d.hasKey && !d.req.disable && !d.req.offline
    ensures var t := Next(Next(d, RaiseEnforce), Tick(p));
            t.enforce && t.state == Online && !t.sc.active
            <==> p.ok && !p.broken && !p.reset && !p.keyset && !ShouldRetry(d, p.now)
  {
  }

  // No downgrade: once a session has come up on the real key, the default key is never tried again,
  // across offline dwells, restarts, re-initialisation and key changes.
  lemma {:induction false} NoDowngrade(ds: seq<Device>, es: seq<Event>, i: nat, j: nat)
    requires Run(ds, es) && i <= j < |ds| && ds[i].sc.established
    ensures ds[j].sc.established && !ds[j].sc.useScbkd && ds[j].state != SetScbk
    decreases j
  {
    hide Next, Inv;
    RunKeeps(ds, es, j);
    if i < j {
      NoDowngrade(ds, es, i, j - 1);
      EstablishedStays(ds[j - 1], es[j - 1]);
    }
    InvNoScbkd(ds[j]);
  }

  lemma EstablishedStays(d: Device, e: Event)
    ensures d.sc.established ==> Next(d, e).sc.established
  {
    hide Decide, Settle, Apply;
    if e.Tick? {
      var (t, n) := Decide(Settle(d, e.p), e.p);
      assert Settle(d, e.p).sc.established == d.sc.established by { SettleKeeps(d, e.p); }
      assert d.sc.established ==> t.sc.established by { DecideEstablished(Settle(d, e.p), e.p); }
      assert Apply(t, n, e.p.now).sc.established == t.sc.established by { ApplyEstablished(t, n, e.p.now); }
    }
  }

  lemma DecideEstablished(s: Device, p: Pass)
    ensures s.sc.established ==> Decide(s, p).0.sc.established
  {
    hide NextOk, NextErr;
  }

  lemma ApplyEstablished(t: Device, n: State, now: nat)
    ensures Apply(t, n, now).sc.established == t.sc.established
  {
  }

  lemma SettleKeeps(d: Device, p: Pass)
    ensures Settle(d, p).sc.established == d.sc.established && Settle(d, p).state == d.state
  {
  }

  lemma InvNoScbkd(d: Device)
    requires Inv(d) && d.sc.established
    ensures !d.sc.useScbkd && d.state != SetScbk
  {
  }

  // ---- As it runs ----

  class Machine {
    var state: State
    var active: bool
    var useScbkd: bool
    var established: bool
    var capable: bool
    const hasKey: bool
    var enforce: bool
    var restartReq: bool
    var offlineReq: bool
    var disableReq: bool
    var enableReq: bool
    var tstamp: nat
    var waitMs: nat
    var scTstamp: nat
    var toldOnline: bool

    function Value(): Device
      reads this
    {
      Device(state, Channel(active, useScbkd, established, capable),
             Requests(restartReq, offlineReq, disableReq, enableReq), hasKey, enforce,
             Clock(tstamp, waitMs, scTstamp), toldOnline)
    }

    constructor (key: bool, secure: bool)
      requires secure ==> key
      ensures Fresh(Value()) && hasKey == key && enforce == secure
    {
      state, active, useScbkd, established, capable, hasKey, enforce := Init, false, false, false, false, key, secure;
      restartReq, offlineReq, disableReq, enableReq, toldOnline := false, false, false, false, false;
      tstamp, waitMs, scTstamp := 0, 0, 0;
    }

    // cp_keyset_complete
    method CompleteKeyset()
      modifies `active, `useScbkd, `restartReq
      ensures Value() == KeysetDone(old(Value()))
    {
      if useScbkd {
        useScbkd := false;
      }
      active := false;
      if state == Online {
        restartReq := true;
      }
    }

    // cp_transition_effects of a command answered.
    method OkEffects(next: State)
      modifies `active, `useScbkd, `restartReq, `established
      ensures Value() == Effects(old(Value()), next, true, 0)
    {
      match state {
        case CapDet =>
          if next == ScChlng {
            useScbkd := false;
          }
        case ScScrypt =>
          active := true;
          if next != SetScbk {
            established := true;
          }
        case SetScbk => CompleteKeyset();
        case _ =>
      }
    }

    // ... and of one that failed.
    method ErrEffects(next: State, now: nat)
      modifies `active, `useScbkd, `scTstamp
      ensures Value() == Effects(old(Value()), next, false, now)
    {
      match state {
        case ScChlng =>
          if next == ScChlng {
            useScbkd := true;
          } else if next != Offline {
            useScbkd := false;
            scTstamp := now;
          }
        case SetScbk => active := false;
        case _ =>
      }
    }

    method ApplyEffects(next: State, ok: bool, now: nat)
      modifies `active, `useScbkd, `restartReq, `established, `scTstamp
      ensures Value() == Effects(old(Value()), next, ok, now)
    {
      if ok {
        OkEffects(next);
      } else {
        ErrEffects(next, now);
      }
    }

    // The entry actions of cp_state_change.
    method RunEntryActions(next: State, now: nat)
      modifies `active, `restartReq, `offlineReq, `tstamp, `waitMs
      ensures Value() == Enter(old(Value()), next, now).(state := old(state), toldOnline := old(toldOnline))
    {
      match next {
        case Offline =>
          tstamp, waitMs := now, RETRY_WAIT_MAX_MS;
          restartReq, offlineReq, active := false, false, false;
        case Disabled => restartReq, offlineReq, active := false, false, false;
        case _ =>
      }
    }

    // cp_state_change: the notification comes last, when the new state is in place.
    method ChangeState(next: State, now: nat)
      modifies `state, `active, `restartReq, `offlineReq, `tstamp, `waitMs, `toldOnline
      ensures Value() == Enter(old(Value()), next, now)
    {
      var wasOnline, nowOnline := state == Online, next == Online;
      RunEntryActions(next, now);
      state := next;
      if wasOnline != nowOnline {
        toldOnline := nowOnline;
      }
    }

    // check_request, for the two requests that only a device going or being ONLINE answers to.
    method TakeOnlineRequests(n: State) returns (next: State)
      modifies `restartReq, `offlineReq
      ensures Value() == old(Value()).(req := old(Value()).req.(restart := false, offline := false))
      ensures next == if old(offlineReq) then Offline else if old(restartReq) then ScChlng else n
    {
      next := n;
      if restartReq {
        next := ScChlng;
      }
      if offlineReq {
        next := Offline;
      }
      restartReq, offlineReq := false, false;
    }

    // The first half of state_update once the phy is done: the marks it and the reply leave.
    method Mark(p: Pass)
      modifies `capable, `active, `scTstamp, `useScbkd, `restartReq
      ensures Value() == Settle(old(Value()), p)
    {
      if state == CapDet && p.ok {
        capable := p.caps;
      }
      if p.broken {
        active := false;
      } else if active {
        scTstamp := p.now;
      }
      if state == Online && p.keyset {
        CompleteKeyset();
      }
    }

    method Choose(p: Pass) returns (next: State)
      modifies `active, `useScbkd, `restartReq, `offlineReq, `established, `scTstamp
      ensures (Value(), next) == Decide(old(Value()), p)
    {
      hide Effects, NextOk, NextErr;
      if p.reset {
        return Offline;
      }
      var ok := p.ok && !p.broken;
      next := if ok then NextOk(Value(), p.now) else NextErr(Value());
      ApplyEffects(next, ok, p.now);
      if state == Online || next == Online {
        next := TakeOnlineRequests(next);
      }
    }

    // state_update
    method StateUpdate(p: Pass)
      modifies this
      ensures Value() == Update(old(Value()), p)
    {
      hide Decide, Settle, Enter;
      Mark(p);
      var next := Choose(p);
      if disableReq {
        next := Disabled;
      }
      if enableReq {
        next := Init;
      }
      disableReq, enableReq := false, false;
      if state != next {
        ChangeState(next, p.now);
      }
    }
  }
}
