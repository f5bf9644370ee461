// How the panel comes up, comes back and obeys: the runs in which a device answers, from wherever the
// link was lost to ONLINE, and what a single request or failure does.
module CpRecovery {
  import opened CpState

  // Pass after pass.
  function After(d: Device, ps: seq<Pass>): Device
    decreases |ps|
  {
    if ps == [] then d else After(Update(d, ps[0]), ps[1..])
  }

  // The device answered as expected and nothing else happened.
  predicate Good(p: Pass) { p.ok && !p.keyset && !p.broken && !p.reset }

  predicate AllGood(ps: seq<Pass>) { forall i :: 0 <= i < |ps| ==> Good(ps[i]) }

  // It did not, or with an error.
  predicate Bad(p: Pass) { !p.ok && !p.keyset && !p.reset }

  predicate Quiet(d: Device) { d.req == Requests(false, false, false, false) }

  predicate Secure(d: Device) { d.state == Online && d.sc.active && !d.sc.useScbkd && d.sc.established }

  predicate Clear(d: Device) { d.state == Online && !d.sc.active }

  // No session, on the real key, nothing asked for: how a handshake on the real key begins.
  predicate Challenging(d: Device) { d.state == ScChlng && !d.sc.active && !d.sc.useScbkd && Quiet(d) }

  lemma Two(d: Device, p: Pass, q: Pass)
    ensures After(d, [p, q]) == Update(Update(d, p), q)
  {
    hide Update;
    assert [p, q][1..] == [q] && [q][1..] == [];
    assert After(Update(d, p), [q]) == After(Update(Update(d, p), q), []);
  }

  lemma {:induction false} AfterAppend(d: Device, ps: seq<Pass>, qs: seq<Pass>)
    ensures After(d, ps + qs) == After(After(d, ps), qs)
    decreases |ps|
  {
    hide Update;
    if ps == [] {
      assert ps + qs == qs;
    } else {
      assert (ps + qs)[1..] == ps[1..] + qs;
      AfterAppend(Update(d, ps[0]), ps[1..], qs);
    }
  }

  // ---- Up from OFFLINE ----

  // Two answers take a handshake on the real key to a session on it.
  lemma HandshakeOk(d: Device, p: Pass, q: Pass)
    requires Challenging(d) && Good(p) && Good(q)
    ensures Secure(After(d, [p, q])) && Quiet(After(d, [p, q]))
  {
    Two(d, p, q);
    assert Update(d, p) == d.(state := ScScrypt);
  }

  lemma Capabilities(d: Device, p: Pass, q: Pass)
    requires Inv(d) && d.state == Init && Quiet(d) && Good(p) && Good(q)
    ensures var t := After(d, [p, q]);
            && Quiet(t) && t.hasKey == d.hasKey && t.enforce == d.enforce && t.sc.established == d.sc.established
            && (if d.hasKey && q.caps then Challenging(t) && t.sc.capable
                else !t.sc.active && t.state == (if d.enforce then Offline else Online))
  {
    Two(d, p, q);
    assert Update(d, p) == d.(state := CapDet);
  }

  // From the start of the climb four answers at most lead to the end of it: under a session on the
  // real key with a device that can and a key to do it with; without, in the clear if that is allowed,
  // and back OFFLINE if it is not.
  lemma ComesUp(d: Device, ps: seq<Pass>)
    requires Inv(d) && d.state == Init && Quiet(d) && AllGood(ps) && |ps| == 4
    ensures if d.hasKey && ps[1].caps then Secure(After(d, ps))
            else if d.enforce then After(d, ps[..2]).state == Offline
            else Clear(After(d, ps[..2]))
  {
    hide Update, Inv, After;
    Capabilities(d, ps[0], ps[1]);
    assert ps[..2] == [ps[0], ps[1]];
    if d.hasKey && ps[1].caps {
      HandshakeOk(After(d, ps[..2]), ps[2], ps[3]);
      assert ps[2..] == [ps[2], ps[3]] && ps == ps[..2] + ps[2..];
      AfterAppend(d, ps[..2], ps[2..]);
    }
  }

  // OFFLINE, once the dwell is over, begins the climb; until then nothing the device does matters.
  lemma Dwells(d: Device, p: Pass)
    requires Inv(d) && d.state == Offline && Quiet(d) && Good(p)
    ensures Update(d, p)
         == if p.now - d.clock.tstamp > d.clock.waitMs then d.(state := Init) else d
  {
  }

  lemma InitInv(d: Device)
    requires Inv(d) && d.state == Offline
    ensures Inv(d.(state := Init))
  {
  }

  // Recovery: from OFFLINE with nothing asked for, once the dwell is over, five answers at most.
  lemma Recovers(d: Device, ps: seq<Pass>)
    requires Inv(d) && d.state == Offline && Quiet(d) && AllGood(ps) && |ps| == 5
    requires ps[0].now - d.clock.tstamp > d.clock.waitMs
    ensures if d.hasKey && ps[2].caps then Secure(After(d, ps))
            else if d.enforce then After(d, ps[..3]).state == Offline
            else Clear(After(d, ps[..3]))
  {
    hide Update, Inv;
    Dwells(d, ps[0]);
    InitInv(d);
    ComesUp(d.(state := Init), ps[1..]);
    assert ps[..3][1..] == ps[1..][..2];
  }

  // However the link is lost, the dwell runs from that very pass for RETRY_WAIT_MAX_MS, without a
  // session and with nothing left asked for.
  lemma LostFor(d: Device, p: Pass, q: Pass)
    requires Inv(d) && d.state != Offline && Update(d, p).state == Offline && Good(q)
    ensures Quiet(Update(d, p)) && !Update(d, p).sc.active
    ensures Update(Update(d, p), q).state == (if q.now > p.now + RETRY_WAIT_MAX_MS then Init else Offline)
  {
    hide Decide, Settle;
    StepKeeps(d, Tick(p));
    EntersOffline(d, p);
    Dwells(Update(d, p), q);
  }

  lemma EntersOffline(d: Device, p: Pass)
    requires d.state != Offline && Update(d, p).state == Offline
    ensures var t := Update(d, p);
            t.clock.tstamp == p.now && t.clock.waitMs == RETRY_WAIT_MAX_MS && !t.sc.active && Quiet(t)
  {
    hide Decide, Settle;
    RequestsKept(d, p);
  }

  // What takes a device that was coming up or was up OFFLINE: no answer where one is needed, or a reply
  // out of sequence, whatever the state.
  lemma Loses(d: Device, p: Pass)
    requires Inv(d) && Quiet(d) && d.state != Disabled
    requires p.reset || (Bad(p) && d.state in {Init, CapDet, Online})
    ensures var t := Update(d, p);
            && t.state == Offline
            && t.clock.scTstamp == (if d.sc.active && !p.broken then p.now else d.clock.scTstamp)
            && (Bad(p) ==> t.sc == d.sc.(active := false))
  {
  }

  // ---- The default key ----

  // A panel that may, and has never had a session on the real key, answers a first refusal on it with
  // one try on the default key.
  lemma TriesDefaultKey(d: Device, p: Pass)
    requires Inv(d) && Challenging(d) && Bad(p)
    ensures var t := Update(d, p);
            if d.enforce then t.state == Offline
            else if d.sc.established then Clear(t)
            else t == d.(sc := d.sc.(useScbkd := true))
  {
  }

  // Where security is enforced no refusal changes which key the next handshake is on.
  lemma EnforcedKeepsKey(d: Device, p: Pass)
    requires Inv(d) && d.state in {ScChlng, ScScrypt} && d.enforce && Quiet(d) && Bad(p)
    ensures var t := Update(d, p);
            t.state == Offline && !t.sc.active && t.sc.useScbkd == d.sc.useScbkd && t.clock.scTstamp == d.clock.scTstamp
  {
  }

  // A device that fails the second half of the handshake is taken on in the clear, on whatever key the
  // handshake was; one that will not have its key set is taken off the link, its session over.
  lemma RefusedHalfway(d: Device, p: Pass)
    requires Inv(d) && d.state in {ScScrypt, SetScbk} && !d.enforce && Quiet(d) && Bad(p)
    ensures var t := Update(d, p);
            if d.state == ScScrypt then t == d.(state := Online, toldOnline := true)
            else t.state == Offline && !t.sc.active
  {
  }

  // ... which, answered, goes through SET_SCBK to a session on the real key: the handshake on the
  // default key, the key set, and the handshake on the real one.
  lemma FallsBack(d: Device, ps: seq<Pass>)
    requires Inv(d) && Challenging(d) && !d.enforce && !d.sc.established
    requires |ps| == 6 && Bad(ps[0]) && AllGood(ps[1..])
    ensures After(d, ps[..3]).state == SetScbk && After(d, ps[..3]).sc.active && After(d, ps[..3]).sc.useScbkd
    ensures Secure(After(d, ps))
  {
    hide Update, After, Inv;
    TriesDefaultKey(d, ps[0]);
    var e := Update(d, ps[0]);
    DefaultHandshake(e, ps[1], ps[2]);
    var f := After(e, [ps[1], ps[2]]);
    One(d, ps[0]);
    assert ps[..3] == [ps[0]] + [ps[1], ps[2]];
    AfterAppend(d, [ps[0]], [ps[1], ps[2]]);
    SetsKey(f, ps[3]);
    One(f, ps[3]);
    HandshakeOk(Update(f, ps[3]), ps[4], ps[5]);
    AfterAppend(f, [ps[3]], [ps[4], ps[5]]);
    assert ps == ps[..3] + ([ps[3]] + [ps[4], ps[5]]);
    AfterAppend(d, ps[..3], [ps[3]] + [ps[4], ps[5]]);
  }

  lemma One(d: Device, p: Pass)
    ensures After(d, [p]) == Update(d, p)
  {
    hide Update;
    assert [p][1..] == [];
  }

  lemma DefaultHandshake(d: Device, p: Pass, q: Pass)
    requires d.state == ScChlng && !d.sc.active && d.sc.useScbkd && Quiet(d) && !d.sc.established && Good(p) && Good(q)
    ensures After(d, [p, q]) == d.(state := SetScbk, sc := d.sc.(active := true))
  {
    Two(d, p, q);
    assert Update(d, p) == d.(state := ScScrypt);
  }

  lemma SetsKey(d: Device, p: Pass)
    requires d.state == SetScbk && d.sc.active && d.sc.useScbkd && Quiet(d) && Good(p)
    ensures Challenging(Update(d, p))
  {
  }

  // Refused on the default key as well, the panel settles for the clear, on record with the real key,
  // and does not try again before SC_RETRY_MS have passed; then it does, on the real key.
  lemma TriesOnce(d: Device, p: Pass, q: Pass)
    requires Inv(d) && d.state == ScChlng && d.sc.useScbkd && !d.enforce && Quiet(d) && Bad(p) && Good(q)
    requires Capable(d)
    ensures var t := Update(d, p);
            && Clear(t) && !t.sc.useScbkd && Quiet(t)
            && (if q.now > p.now + SC_RETRY_MS then Challenging(Update(t, q)) else Update(t, q) == t)
  {
  }

  // ---- Staying up ----

  // A panel that is up stays as it is while the device answers and nobody asks for anything.
  lemma StaysUp(d: Device, p: Pass)
    requires Inv(d) && Quiet(d) && Good(p) && d.state == Online && (d.sc.active || !Capable(d))
    ensures var t := Update(d, p);
            t == d.(clock := t.clock) && t.clock == (if d.sc.active then d.clock.(scTstamp := p.now) else d.clock)
  {
  }

  // A new key acknowledged under the session it came in by: the session is given up and taken up again
  // on the new key.
  lemma Rekeys(d: Device, p: Pass, q: Pass, r: Pass)
    requires Inv(d) && Quiet(d) && d.state == Online && p.ok && p.keyset && !p.broken && !p.reset && Good(q) && Good(r)
    ensures Challenging(Update(d, p)) && Secure(After(Update(d, p), [q, r]))
  {
    hide After;
    HandshakeOk(Update(d, p), q, r);
  }

  // ---- Requests ----

  // A device that is to be disabled is after the next pass, whatever that brings, without a session;
  // it stays so until it is enabled, and then begins at INIT.
  lemma Disables(d: Device, p: Pass, q: Pass)
    requires Inv(d) && d.state != Disabled
    ensures var t := Update(Next(d, Disable), p);
            && t.state == Disabled && !t.sc.active && !t.toldOnline && !t.req.disable
            && Update(t, q).state == (if q.reset then Offline else Disabled)
            && Update(Next(t, Enable), q).state == Init
  {
    hide Update, Inv, Next;
    var e := Next(d, Disable);
    StepKeeps(d, Disable);
    Asked(d);
    StepKeeps(e, Tick(p));
    Disabling(e, p);
    StaysDisabled(Update(e, p), q);
    Enabling(Next(Update(e, p), Enable), q);
  }

  lemma Asked(d: Device)
    requires Inv(d) && d.state != Disabled
    ensures var e := Next(d, Disable); e.req.disable && !e.req.enable
    ensures forall e: Device :: e.state == Disabled ==> Next(e, Enable) == e.(req := e.req.(enable := true))
    ensures forall e: Device, p: Pass :: Next(e, Tick(p)) == Update(e, p)
  {
  }

  lemma RequestsKept(d: Device, p: Pass)
    ensures var t := Decide(Settle(d, p), p).0;
            t.state == d.state && t.req.disable == d.req.disable && t.req.enable == d.req.enable
  {
    hide Effects, Table;
    EffectsLeave(Settle(d, p), Table(Settle(d, p), p), p.ok && !p.broken, p.now);
  }

  lemma EffectsLeave(d: Device, n: State, ok: bool, now: nat)
    ensures Effects(d, n, ok, now).state == d.state && Effects(d, n, ok, now).req == d.req
  {
  }

  lemma Disabling(d: Device, p: Pass)
    requires Inv(d) && !d.req.enable && d.req.disable
    ensures var t := Update(d, p); t.state == Disabled && !t.sc.active && !t.toldOnline && !t.req.disable && !t.req.enable
  {
    hide Decide, Settle;
    RequestsKept(d, p);
    StepKeeps(d, Tick(p));
  }

  lemma DisabledTable(d: Device, p: Pass)
    requires d.state == Disabled && !p.reset
    ensures Decide(Settle(d, p), p).1 == Disabled
  {
  }

  lemma StaysDisabled(t: Device, q: Pass)
    requires Inv(t) && t.state == Disabled && !t.req.enable
    ensures Update(t, q).state == (if q.reset then Offline else Disabled)
  {
    hide Settle;
    RequestsKept(t, q);
    if q.reset {
    } else {
      DisabledTable(t, q);
    }
  }

  lemma Enabling(t: Device, q: Pass)
    requires t.state == Disabled && t.req.enable
    ensures Update(t, q).state == Init
  {
    hide Decide, Settle;
    RequestsKept(t, q);
  }

  // A panel asked to go offline does at the next pass that finds it, or would make it, ONLINE.
  lemma GoesOffline(d: Device, p: Pass)
    requires Inv(d) && !d.req.disable && !d.req.enable && !d.req.offline && (d.state == Online || Update(d, p).state == Online)
    ensures Update(Next(d, GoOffline), p).state == Offline
  {
    hide Table, Effects, Inv;
    var s := Settle(d, p);
    var asked := s.(req := s.req.(offline := true));
    assert Settle(Next(d, GoOffline), p) == asked;
    EffectsLeave(s, Table(s, p), p.ok && !p.broken, p.now);
    EffectsLeave(asked, Table(s, p), p.ok && !p.broken, p.now);
    SameTable(s, p);
  }

  lemma SameTable(s: Device, p: Pass)
    ensures Table(s.(req := s.req.(offline := true)), p) == Table(s, p)
    ensures p.reset ==> Table(s, p) == Offline
  {
  }
}
