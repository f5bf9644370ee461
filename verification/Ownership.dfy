// A queue of what the application has handed over, and giving it back: submit, complete, drain, flush.
// Completion callbacks may submit and flush again in the middle of all this.
module Ownership {
  import opened Bytes
  import opened TrsBand

  datatype Status = CmdOk | CmdFailed | CmdFlushed | CmdAborted

  // What the application's callbacks do, call by call: submissions (ok: every check but the band's is
  // passed) and flushes, up to the return of each callback.
  datatype Call = Leave | Queue(kind: Kind, ok: bool) | FlushAll

  // What the calls look at and do not change; session: the open card session still owes its STOP.
  datatype Gate = Gate(online: bool, tearingDown: bool, session: bool)

  // next: submissions accepted so far, each with its number for a ticket. log: completions delivered.
  datatype Core = Core(queue: seq<Command>, bandOpen: bool, next: nat, log: seq<(nat, Status)>, script: seq<Call>, gate: Gate)

  // From c to r callbacks have run: the application has used up some of its script and has been
  // given more back.
  predicate Later(c: Core, r: Core) {
    && |r.script| <= |c.script| && r.gate == c.gate && c.log <= r.log && c.next <= r.next
    && (c.gate.tearingDown ==> r.next == c.next && r.queue == c.queue)
  }

  // Nothing was given back from c to r but with this status, or by a flush from inside a callback; and
  // while the context is being torn down a callback gives nothing back.
  predicate Says(c: Core, r: Core, status: Status) {
    forall k :: |c.log| <= k < |r.log| ==>
      r.log[k].1 == status || (r.log[k].1 == CmdFlushed && !c.gate.tearingDown)
  }

  // osdp_cp_submit_command of a command that rides the queue; osdp_pd_submit_event.
  function AfterSubmit(c: Core, kind: Kind, ok: bool): (Core, bool) {
    if c.gate.tearingDown || !c.gate.online || !ok || Admit(kind, c.bandOpen) == None then (c, false)
    else
      (c.(bandOpen := Admit(kind, c.bandOpen).value, queue := c.queue + [Command(c.next, kind)], next := c.next + 1), true)
  }

  // cp_complete_cmd, pd_complete_event: the command is the application's again, and the application
  // may act on it before this returns.
  function AfterComplete(c: Core, cmd: Command, status: Status): (r: Core)
    ensures Later(c, r) && c.log + [(cmd.ticket, status)] <= r.log && Says(c, r, status)
    decreases |c.script|, 1
  {
    AfterCallback(c.(log := c.log + [(cmd.ticket, status)]))
  }

  // One callback of the application, to its return.
  function AfterCallback(c: Core): (r: Core)
    ensures Later(c, r) && Says(c, r, CmdFlushed) && (c.gate.tearingDown ==> r.log == c.log)
    decreases |c.script|, 0
  {
    if c.script == [] then c
    else
      var d := c.(script := c.script[1..]);
      match c.script[0]
      case Leave => d
      case Queue(kind, ok) => AfterCallback(AfterSubmit(d, kind, ok).0)
      case FlushAll => AfterCallback(AfterFlush(d).0)
  }

  // osdp_cp_flush_commands, osdp_pd_flush_events
  function AfterFlush(c: Core): (r: (Core, nat))
    ensures Later(c, r.0) && Says(c, r.0, CmdFlushed) && (c.gate.tearingDown ==> r.0.log == c.log)
    decreases |c.script|, 4
  {
    if c.gate.tearingDown then (c, 0)
    else
      var (d, n) := AfterDrain(c, CmdFlushed);
      (d.(bandOpen := d.gate.session), n)
  }

  // cp_drain_queue, pd_drain_queue: the queue is detached first, so that what callbacks do is done to
  // another one.
  function AfterDrain(c: Core, status: Status): (r: (Core, nat))
    ensures Later(c.(queue := []), r.0) && Says(c, r.0, status)
    decreases |c.script|, 3
  {
    (AfterGiveBack(c.(queue := []), c.queue, status), |c.queue|)
  }

  function AfterGiveBack(c: Core, q: seq<Command>, status: Status): (r: Core)
    ensures Later(c, r) && Says(c, r, status)
    decreases |c.script|, 2, |q|
  {
    if q == [] then c else AfterGiveBack(AfterComplete(c, q[0], status), q[1..], status)
  }

  // cp_flush_trs_band, as far as the band goes: what is left of the queue and whether a STOP was seen.
  function AfterDropBand(c: Core, q: seq<Command>): (r: (Core, seq<Command>, bool))
    ensures Later(c, r.0) && Says(c, r.0, CmdFlushed)
    decreases |q|
  {
    if q == [] then (c, [], false)
    else
      var d := AfterComplete(c, q[0], CmdFlushed);
      if q[0].kind == Stop then (d, q[1..], true) else AfterDropBand(d, q[1..])
  }

  // What the band did not swallow goes ahead of what completions submitted meanwhile.
  function AfterFlushBand(c: Core): (r: Core)
    ensures Says(c, r, CmdFlushed) && c.log <= r.log && r.gate == c.gate
  {
    var (d, rest, stopSeen) := AfterDropBand(c.(queue := []), c.queue);
    d.(queue := rest + d.queue, bandOpen := stopSeen && d.bandOpen)
  }

  // ---- Every ticket is in one place ----

  // How often t waits in a queue, and how often it has been given back.
  function Queued(q: seq<Command>, t: nat): nat {
    if q == [] then 0 else (if q[0].ticket == t then 1 else 0) + Queued(q[1..], t)
  }

  function Given(log: seq<(nat, Status)>, t: nat): nat {
    if log == [] then 0 else Given(log[..|log| - 1], t) + (if log[|log| - 1].0 == t then 1 else 0)
  }

  function Issued(next: nat, t: nat): nat { if t < next then 1 else 0 }

  // 0 when the core accounts for t.
  function Balance(c: Core, t: nat): int {
    Queued(c.queue, t) + Given(c.log, t) - Issued(c.next, t)
  }

  function One(c: Command, t: nat): nat { if c.ticket == t then 1 else 0 }

  lemma {:induction false} QueuedAppend(q: seq<Command>, r: seq<Command>, t: nat)
    ensures Queued(q + r, t) == Queued(q, t) + Queued(r, t)
  {
    if q == [] {
      assert q + r == r;
    } else {
      assert (q + r)[1..] == q[1..] + r;
      QueuedAppend(q[1..], r, t);
    }
  }

  lemma SubmitBalances(c: Core, kind: Kind, ok: bool, t: nat)
    ensures Balance(AfterSubmit(c, kind, ok).0, t) == Balance(c, t)
  {
    hide Given;
    QueuedAppend(c.queue, [Command(c.next, kind)], t);
    assert [Command(c.next, kind)][1..] == [];
  }

  lemma GateBalances(c: Core, d: Core, t: nat)
    requires d == c.(gate := d.gate)
    ensures Balance(d, t) == Balance(c, t)
  {
  }

  lemma {:induction false} CompleteBalances(c: Core, cmd: Command, status: Status, t: nat)
    ensures Balance(AfterComplete(c, cmd, status), t) == Balance(c, t) + One(cmd, t)
    decreases |c.script|, 1
  {
    hide Queued, AfterCallback;
    var d := c.(log := c.log + [(cmd.ticket, status)]);
    assert d.log[..|d.log| - 1] == c.log;
    CallbackBalances(d, t);
  }

  lemma {:induction false} CallbackBalances(c: Core, t: nat)
    ensures Balance(AfterCallback(c), t) == Balance(c, t)
    decreases |c.script|, 0
  {
    hide Queued, Given, AfterSubmit, AfterFlush;
    if c.script != [] {
      var d := c.(script := c.script[1..]);
      match c.script[0] {
        case Leave =>
        case Queue(kind, ok) =>
          SubmitBalances(d, kind, ok, t);
          SubmitLater(d, kind, ok);
          CallbackBalances(AfterSubmit(d, kind, ok).0, t);
        case FlushAll =>
          FlushBalances(d, t);
          CallbackBalances(AfterFlush(d).0, t);
      }
    }
  }

  lemma SubmitLater(c: Core, kind: Kind, ok: bool)
    ensures Later(c, AfterSubmit(c, kind, ok).0)
  {
  }

  lemma {:induction false} FlushBalances(c: Core, t: nat)
    ensures Balance(AfterFlush(c).0, t) == Balance(c, t)
    decreases |c.script|, 4
  {
    hide Queued, Given, AfterDrain;
    if !c.gate.tearingDown {
      DrainBalances(c, CmdFlushed, t);
    }
  }

  lemma {:induction false} DrainBalances(c: Core, status: Status, t: nat)
    ensures Balance(AfterDrain(c, status).0, t) == Balance(c, t)
    decreases |c.script|, 3
  {
    hide AfterGiveBack, Given;
    GiveBackBalances(c.(queue := []), c.queue, status, t);
  }

  lemma {:induction false} GiveBackBalances(c: Core, q: seq<Command>, status: Status, t: nat)
    ensures Balance(AfterGiveBack(c, q, status), t) == Balance(c, t) + Queued(q, t)
    decreases |c.script|, 2, |q|
  {
    hide AfterComplete, Balance;
    if q != [] {
      CompleteBalances(c, q[0], status, t);
      GiveBackBalances(AfterComplete(c, q[0], status), q[1..], status, t);
    }
  }

  lemma {:induction false} DropBandBalances(c: Core, q: seq<Command>, t: nat)
    ensures var (d, rest, _) := AfterDropBand(c, q); Balance(d, t) + Queued(rest, t) == Balance(c, t) + Queued(q, t)
    decreases |q|
  {
    hide AfterComplete, Balance;
    if q != [] {
      CompleteBalances(c, q[0], CmdFlushed, t);
      if q[0].kind != Stop {
        DropBandBalances(AfterComplete(c, q[0], CmdFlushed), q[1..], t);
      }
    }
  }

  lemma FlushBandBalances(c: Core, t: nat)
    ensures Balance(AfterFlushBand(c), t) == Balance(c, t)
  {
    hide AfterDropBand, Given;
    DropBandBalances(c.(queue := []), c.queue, t);
    var (d, rest, _) := AfterDropBand(c.(queue := []), c.queue);
    QueuedAppend(rest, d.queue, t);
  }

  // ---- With what status it comes back ----

  predicate Since(c: Command, status: Status, was: seq<(nat, Status)>, log: seq<(nat, Status)>) {
    exists k :: |was| <= k < |log| && log[k] == (c.ticket, status)
  }

  // Since `was`, every command of q was completed with `status`.
  predicate AllSince(q: seq<Command>, status: Status, was: seq<(nat, Status)>, log: seq<(nat, Status)>) {
    forall i :: 0 <= i < |q| ==> Since(q[i], status, was, log)
  }

  lemma SinceGrows(was: seq<(nat, Status)>, mid: seq<(nat, Status)>, log: seq<(nat, Status)>, c: Command, status: Status)
    requires was <= mid <= log
    ensures Since(c, status, was, mid) || Since(c, status, mid, log) ==> Since(c, status, was, log)
  {
    if Since(c, status, was, mid) {
      var k :| |was| <= k < |mid| && mid[k] == (c.ticket, status);
      assert log[k] == mid[k];
    }
    if Since(c, status, mid, log) {
      var k :| |mid| <= k < |log| && log[k] == (c.ticket, status);
      assert |was| <= k;
    }
  }

  lemma CompleteTells(c: Core, cmd: Command, status: Status)
    ensures Since(cmd, status, c.log, AfterComplete(c, cmd, status).log)
  {
    hide AfterComplete;
    var log := AfterComplete(c, cmd, status).log;
    assert log[|c.log|] == (c.log + [(cmd.ticket, status)])[|c.log|];
  }

  lemma {:induction false} GiveBackTells(c: Core, q: seq<Command>, status: Status)
    ensures AllSince(q, status, c.log, AfterGiveBack(c, q, status).log)
    decreases |q|
  {
    hide AfterComplete, Since;
    if q != [] {
      var d := AfterComplete(c, q[0], status);
      var r := AfterGiveBack(c, q, status);
      CompleteTells(c, q[0], status);
      GiveBackTells(d, q[1..], status);
      forall i | 0 <= i < |q| ensures Since(q[i], status, c.log, r.log) {
        SinceGrows(c.log, d.log, r.log, q[i], status);
        if i > 0 {
          assert q[i] == q[1..][i - 1];
        }
      }
    }
  }

  // A flush gives back everything that waited, flushed, and says how many; what callbacks submit
  // meanwhile waits on.
  lemma FlushTells(c: Core)
    ensures var (r, n) := AfterFlush(c);
            if c.gate.tearingDown then r == c && n == 0
            else n == |c.queue| && AllSince(c.queue, CmdFlushed, c.log, r.log) && r.bandOpen == c.gate.session
  {
    hide AfterGiveBack;
    if !c.gate.tearingDown {
      GiveBackTells(c.(queue := []), c.queue, CmdFlushed);
    }
  }

  lemma {:induction false} DropBandTells(c: Core, q: seq<Command>)
    ensures var (r, rest, stopSeen) := AfterDropBand(c, q);
            rest == AfterBand(q) && (stopSeen <==> HasStop(q)) && AllSince(q[..BandLen(q)], CmdFlushed, c.log, r.log)
    decreases |q|
  {
    hide AfterComplete, Since;
    if q != [] {
      var d := AfterComplete(c, q[0], CmdFlushed);
      var r := AfterDropBand(c, q).0;
      CompleteTells(c, q[0], CmdFlushed);
      if q[0].kind != Stop {
        HasStopTail(q);
        DropBandTells(d, q[1..]);
        forall i | 0 <= i < BandLen(q) ensures Since(q[i], CmdFlushed, c.log, r.log) {
          SinceGrows(c.log, d.log, r.log, q[i], CmdFlushed);
          if i > 0 {
            assert q[1..][..BandLen(q[1..])][i - 1] == q[i];
          }
        }
      } else {
        assert q[..BandLen(q)] == [q[0]];
      }
    }
  }

  // A band that is dropped is given back, flushed, up to its STOP; the rest keeps its place at the
  // front, and without a STOP no band is open any more.
  lemma FlushBandTells(c: Core)
    ensures var r := AfterFlushBand(c);
            && AllSince(c.queue[..BandLen(c.queue)], CmdFlushed, c.log, r.log) && AfterBand(c.queue) <= r.queue
            && (!HasStop(c.queue) ==> !r.bandOpen)
  {
    hide AfterDropBand, AllSince, HasStop;
    DropBandTells(c.(queue := []), c.queue);
  }

  // ---- In place ----

  class Ledger {
    var queue: seq<Command>
    var bandOpen: bool
    var next: nat
    var log: seq<(nat, Status)>
    var script: seq<Call>
    var gate: Gate

    function Value(): Core
      reads this
    {
      Core(queue, bandOpen, next, log, script, gate)
    }

    constructor (calls: seq<Call>, g: Gate)
      ensures Value() == Core([], false, 0, [], calls, g)
    {
      queue, bandOpen, next, log, script, gate := [], false, 0, [], calls, g;
    }

    method Submit(kind: Kind, ok: bool) returns (accepted: bool)
      modifies `queue, `bandOpen, `next
      ensures (Value(), accepted) == AfterSubmit(old(Value()), kind, ok)
    {
      if gate.tearingDown || !gate.online || !ok {
        return false;
      }
      var band := Admit(kind, bandOpen);
      if band == None {
        return false;
      }
      bandOpen := band.value;
      queue := queue + [Command(next, kind)];
      next := next + 1;
      return true;
    }

    method Complete(c: Command, status: Status)
      modifies `queue, `bandOpen, `next, `log, `script
      ensures Value() == AfterComplete(old(Value()), c, status)
      decreases |script|, 1
    {
      hide AfterCallback;
      log := log + [(c.ticket, status)];
      Callback();
    }

    method Callback()
      modifies `queue, `bandOpen, `next, `log, `script
      ensures Value() == AfterCallback(old(Value()))
      decreases |script|, 0
    {
      hide AfterSubmit, AfterFlush;
      while script != []
        invariant |script| <= |old(script)| && AfterCallback(Value()) == AfterCallback(old(Value()))
        decreases |script|
      {
        ghost var c := Value();
        var call := script[0];
        script := script[1..];
        match call
        case Leave => return;
        case Queue(kind, ok) =>
          var _ := Submit(kind, ok);
          assert |script| < |c.script| by { SubmitLater(c.(script := c.script[1..]), kind, ok); }
        case FlushAll =>
          var _ := Flush();
          assert |script| < |c.script| by { FlushLater(c.(script := c.script[1..])); }
      }
    }

    method Flush() returns (count: nat)
      modifies `queue, `bandOpen, `next, `log, `script
      ensures (Value(), count) == AfterFlush(old(Value()))
      decreases |script|, 4
    {
      hide AfterDrain;
      if gate.tearingDown {
        return 0;
      }
      count := Drain(CmdFlushed);
      bandOpen := gate.session;
    }

    method Drain(status: Status) returns (count: nat)
      modifies `queue, `bandOpen, `next, `log, `script
      ensures (Value(), count) == AfterDrain(old(Value()), status)
      decreases |script|, 3
    {
      hide AfterComplete;
      var drain := queue;
      queue, count := [], 0;
      ghost var start := Value();
      while drain != []
        invariant |script| <= |old(script)| && count + |drain| == |old(queue)|
        invariant AfterGiveBack(Value(), drain, status) == AfterGiveBack(start, old(queue), status)
        decreases |drain|
      {
        Complete(drain[0], status);
        drain := drain[1..];
        count := count + 1;
      }
    }

    method FlushBand()
      modifies `queue, `bandOpen, `next, `log, `script
      ensures Value() == AfterFlushBand(old(Value()))
    {
      hide AfterComplete;
      var drain, stopSeen := queue, false;
      queue := [];
      ghost var start := Value();
      while !stopSeen && drain != []
        invariant if stopSeen then AfterDropBand(start, old(queue)) == (Value(), drain, true)
                  else AfterDropBand(Value(), drain) == AfterDropBand(start, old(queue))
        decreases |drain|, !stopSeen
      {
        var c := drain[0];
        drain := drain[1..];
        Complete(c, CmdFlushed);
        stopSeen := c.kind == Stop;
      }
      queue := drain + queue;
      if !stopSeen {
        bandOpen := false;
      }
    }
  }

  lemma FlushLater(c: Core)
    ensures Later(c, AfterFlush(c).0)
  {
    hide AfterFlush;
  }
}
