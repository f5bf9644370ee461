// A file transfer gets done: with a source that has data and a device that takes it, in as many
// fragments as there are bytes at most; with a source that has none, it is given up.
module FileProgress {
  import opened Bytes
  import opened Multipart
  import opened Notices
  import opened File
  import opened FileRun
  import M = MultipartRun

  const READY: byte := 1    // control of a status report: interleaving welcome, no polling asked for

  // ---- What the panel asks for next ----

  // While a transfer goes on the panel does what the last report asked: hold the line or let other
  // commands pass while the delay runs, then poll for the next report or send the next fragment.
  lemma AsksAsTold(f: File, control: byte, delay: nat, status: int, rxSize: nat, waiting: bool)
    requires Sound(f) && delay < 0x1_0000 && -0x8000 <= status < 0x8000 && rxSize < 0x1_0000
    ensures var g := TakeStat(f, StatBytes(control, delay, status, rxSize)).0;
            Active(f.mp) && Active(g.mp) && g.errors <= ERROR_RETRY_MAX ==>
              (Tick(g, false, waiting).1 == (
                if waiting then (if control % 2 == 0 then HoldOff else Nothing)
                else if control / 4 % 2 == 1 then Poll else FileTransfer))
  {
    hide Told, Terminal, StatusIn, StatBytes;
    ControlFirst(control, delay, status, rxSize);
    if Active(f.mp) {
      SoundTx(f);
      var buf := StatBytes(control, delay, status, rxSize);
      var g := f.(exclusive := buf[0] % 2 == 0, pollResp := buf[0] / 4 % 2 == 1, mp := TxCommit(f.mp));
      EndedDelivers(g, OutcomeOf(StatusIn(buf)));
    }
  }

  // A transfer starts exactly if no engine is at work and the application opens a file with something in
  // it; a refusal leaves nothing open and what runs running.
  lemma StartsExactly(f: File, id: byte, content: Option<seq<byte>>, busy: bool)
    requires Sound(f) && (content.Some? ==> |content.value| < 0x1_0000_0000)
    ensures var (g, started) := Command(f, id, content, busy);
            && (started <==> !Active(f.mp) && !busy && content.Some? && content.value != [])
            && (started ==> Active(g.mp) && g.id == id && !g.mp.started && g.opens == g.closes + 1)
            && (!started ==> g.mp == f.mp && g.opens - g.closes == f.opens - f.closes)
  {
    hide Told;
  }

  // Cancelled, it is aborted at the next occasion to ask for a fragment, and the device is told.
  lemma CancelEnds(f: File, waiting: bool)
    requires Sound(f) && Active(f.mp)
    ensures var (g, pick) := Tick(f, true, waiting);
            !Active(g.mp) && Closed(g.mp.notices, Aborted) && g.closes == g.opens && pick == AbortCmd
  {
    hide Told;
  }

  // ---- One fragment ----

  // All of it out, and the device has asked for more time.
  predicate Keeping(f: File) { f.mp.stage == Parked && f.mp.offset == f.mp.total }

  // A packet is built exactly if it has room for a byte of the file past what a session may need, or
  // just for the header if it is to keep the device company, and the source does not fail; if not, the
  // transfer is aborted.
  lemma BuildsExactly(f: File, maxLen: int, offered: int)
    requires Sound(f) && Active(f.mp) && f.mp.started && f.mp.cap == None
    ensures var (g, p) := Build(f, maxLen, offered);
            && (p.Some? <==> if Keeping(f) then maxLen > 1 + HdrSize(W32)
                             else maxLen > 1 + HdrSize(W32) + SC_RESERVE && offered >= 0)
            && (p == None ==> !Active(g.mp) && Closed(g.mp.notices, Aborted) && g.closes == g.opens)
  {
    hide Told, Terminal, HdrWrite;
    EndsClean(f, Aborted);
  }

  // Once the last fragment is in, a report of more time needed leaves the transfer open to keep the device
  // company, and any other ends it.
  lemma LastReport(f: File, control: byte, delay: nat, status: int, rxSize: nat)
    requires Sound(f) && Active(f.mp) && f.mp.offset + f.mp.lastLen == f.mp.total
    requires delay < 0x1_0000 && -0x8000 <= status < 0x8000 && rxSize < 0x1_0000
    ensures var g := TakeStat(f, StatBytes(control, delay, status, rxSize)).0;
            if status == KEEP_ALIVE then Active(g.mp) && Keeping(g) && g.mp.notices == f.mp.notices
            else !Active(g.mp) && Closed(g.mp.notices, OutcomeOf(status))
  {
    hide Told, Terminal, StatusIn, StatBytes, OutcomeOf;
    StatusRead(control, delay, status, rxSize);
    CommitSound(f);
    var buf := StatBytes(control, delay, status, rxSize);
    EndsClean(f.(exclusive := buf[0] % 2 == 0, pollResp := buf[0] / 4 % 2 == 1, mp := TxCommit(f.mp)), OutcomeOf(status));
  }

  // Keeping it company can go on for ever: it reads nothing and counts no errors.
  lemma KeepsCompany(f: File, id: byte, s: seq<byte>, maxLen: int, offered: int)
    requires Sends(f, id, s) && Active(f.mp) && f.mp.started && Keeping(f) && maxLen > 1 + HdrSize(W32)
    ensures Build(f, maxLen, offered) == (f, Some([id] + HdrWrite(W32, |s|, |s|, 0)))
  {
    hide Told;
  }

  // Under way, and nothing the device said or the source failed to give stands in the way.
  predicate Ready(f: File) { Active(f.mp) && !f.pollResp && f.errors <= ERROR_RETRY_MAX }

  lemma ReadyAsks(f: File)
    requires Ready(f)
    ensures Tick(f, false, false) == (f.(mp := EmitStart(f.mp)), FileTransfer)
  {
  }

  // A packet with room for one byte carries some of the file, if its source gives any.
  lemma BuildMoves(f: File, id: byte, s: seq<byte>, maxLen: int, offered: int)
    requires Sends(f, id, s) && Ready(f) && f.mp.started && f.mp.offset < |s|
    requires 1 + SC_RESERVE + HdrSize(W32) < maxLen < 0x1_0000 && offered > 0
    ensures var (f', p) := Build(f, maxLen, offered); p.Some? && f'.mp.lastLen > 0 && Ready(f') && f'.mp.started && f'.errors == 0
  {
    hide Told, HdrWrite;
  }

  // One fragment across: asked for, read, built, taken and reported, a device that has the file
  // reporting how it ended.
  ghost function Exchange(r: Relay, maxLen: int, offered: int, o: Outcome): Relay
    requires Sound(r.f) && RxValid(r.rx)
  {
    hide Told, Terminal, RxConsume;
    TickSound(r.f, false, false);
    var t := FileRun.Next(r, Ticks(false, false));
    if Tick(r.f, false, false).1 != FileTransfer then t
    else
      BuildSound(t.f, maxLen, offered);
      var b := FileRun.Next(t, Builds(maxLen, offered, true, WriteOk));
      var whole := b.rx.lastOff + b.rx.lastLen == b.rx.total;
      FileRun.Next(b, Hears(StatBytes(READY, 0, if whole then StatusOf(o) else 0, 0)))
  }

  ghost predicate GoingWell(r: Relay, id: byte, s: seq<byte>) {
    Wired(r, id, s) && r.prompt && Ready(r.f) && r.f.mp.offset < |s|
  }

  // Asked for and built: the packet brings the device what it lacks.
  lemma FragmentTaken(r: Relay, id: byte, s: seq<byte>, maxLen: int, offered: int)
    requires GoingWell(r, id, s) && r.f.mp.started
    requires 1 + SC_RESERVE + HdrSize(W32) < maxLen < 0x1_0000 && offered > 0
    ensures RxValid(r.rx)
    ensures var b := FileRun.Next(r, Builds(maxLen, offered, true, WriteOk));
            && Wired(b, id, s) && b.prompt && b.reached && Ready(b.f)
            && b.f.mp.offset == r.f.mp.offset && b.f.mp.lastLen > 0
            && b.rx.lastOff == b.f.mp.offset && b.rx.lastLen == b.f.mp.lastLen && b.rx.total == |s|
  {
    hide Told, Terminal, Holds, Delivered, Build, Fragment, RxConsume, OnTheWire, Sound, Ready;
    M.HoldsValid(r.rx, s);
    SoundTx(r.f);
    NextKeeps(r, id, s, Builds(maxLen, offered, true, WriteOk));
    BuildMoves(r.f, id, s, maxLen, offered);
    BuildSends(r.f, id, s, maxLen, offered);
    var (f', p) := Build(r.f, maxLen, offered);
    TakesFragment(r.rx, s, [], r.f.mp.offset, f'.mp.lastLen, p.value[1..], WriteOk);
  }

  lemma ExchangeMoves(r: Relay, id: byte, s: seq<byte>, maxLen: int, offered: int, o: Outcome)
    requires GoingWell(r, id, s)
    requires 1 + SC_RESERVE + HdrSize(W32) < maxLen < 0x1_0000 && offered > 0
    ensures RxValid(r.rx)
    ensures var q := Exchange(r, maxLen, offered, o);
            && Wired(q, id, s)
            && (Active(q.f.mp) ==> GoingWell(q, id, s) && q.f.mp.offset > r.f.mp.offset)
            && (!Active(q.f.mp) ==> Closed(q.f.mp.notices, o) && q.rx.offset == |s|)
  {
    hide Told, Terminal, Holds, Delivered, OnTheWire, Build, TakeStat, RxConsume, Sound, StatBytes, RxCommit, Closed;
    M.HoldsValid(r.rx, s);
    ReadyAsks(r.f);
    NextKeeps(r, id, s, Ticks(false, false));
    var t := FileRun.Next(r, Ticks(false, false));
    FragmentTaken(t, id, s, maxLen, offered);
    var b := FileRun.Next(t, Builds(maxLen, offered, true, WriteOk));
    var status := if b.rx.lastOff + b.rx.lastLen == b.rx.total then StatusOf(o) else 0;
    NextKeeps(b, id, s, Hears(StatBytes(READY, 0, status, 0)));
    Reported(b, id, s, o);
  }

  // The report that answers it: the transfer goes on from there, or is over with the whole file taken.
  lemma Reported(b: Relay, id: byte, s: seq<byte>, o: Outcome)
    requires Wired(b, id, s) && b.prompt && b.reached && Ready(b.f) && b.f.mp.lastLen > 0
    requires b.rx.lastOff == b.f.mp.offset && b.rx.lastLen == b.f.mp.lastLen && b.rx.total == |s| && RxValid(b.rx)
    ensures var whole := b.rx.lastOff + b.rx.lastLen == b.rx.total;
            var q := FileRun.Next(b, Hears(StatBytes(READY, 0, if whole then StatusOf(o) else 0, 0)));
            && q.prompt
            && (if whole then !Active(q.f.mp) && Closed(q.f.mp.notices, o) && q.rx.offset == |s|
                else Ready(q.f) && q.f.mp.offset == b.f.mp.offset + b.f.mp.lastLen < |s|)
  {
    hide Told, Terminal, Holds, Delivered, OnTheWire, StatBytes, StatusIn, Closed;
    var whole := b.rx.lastOff + b.rx.lastLen == b.rx.total;
    StatusRead(READY, 0, if whole then StatusOf(o) else 0, 0);
    ControlFirst(READY, 0, if whole then StatusOf(o) else 0, 0);
    SoundTx(b.f);
    if whole {
      OutcomeTold(b.f, o, READY, 0, 0);
    }
  }

  lemma ControlFirst(control: byte, delay: nat, status: int, rxSize: nat)
    requires delay < 0x1_0000 && -0x8000 <= status < 0x8000 && rxSize < 0x1_0000
    ensures StatBytes(control, delay, status, rxSize)[0] == control
  {
  }

  // ---- The whole file ----

  // Fragment by fragment, with whatever packet sizes and read counts come up.
  ghost function Serve(r: Relay, offers: seq<(int, int)>, o: Outcome): Relay
    requires Sound(r.f) && RxValid(r.rx)
    decreases |offers|
  {
    if !Active(r.f.mp) || offers == [] then r
    else
      var q := Exchange(r, offers[0].0, offers[0].1, o);
      if Sound(q.f) && RxValid(q.rx) then Serve(q, offers[1..], o) else q
  }

  predicate Ample(offers: seq<(int, int)>) {
    forall k :: 0 <= k < |offers| ==> 1 + SC_RESERVE + HdrSize(W32) < offers[k].0 < 0x1_0000 && offers[k].1 > 0
  }

  lemma {:induction false} ServesWhole(r: Relay, id: byte, s: seq<byte>, offers: seq<(int, int)>, o: Outcome)
    requires GoingWell(r, id, s) && Ample(offers) && |offers| >= |s| - r.f.mp.offset
    ensures RxValid(r.rx)
    ensures var q := Serve(r, offers, o);
            !Active(q.f.mp) && Closed(q.f.mp.notices, o) && Holds(q.rx, s) && q.rx.offset == |s|
    decreases |offers|
  {
    hide Exchange, Holds, Told, OnTheWire, Delivered, Closed;
    M.HoldsValid(r.rx, s);
    ExchangeMoves(r, id, s, offers[0].0, offers[0].1, o);
    var q := Exchange(r, offers[0].0, offers[0].1, o);
    M.HoldsValid(q.rx, s);
    if Active(q.f.mp) {
      ServesWhole(q, id, s, offers[1..], o);
    }
  }

  // A file whose source has data for every read, sent to a device that takes every packet, is there
  // after at most as many packets as it has bytes, and the application is told what the device said.
  lemma FileArrives(r: Relay, id: byte, s: seq<byte>, offers: seq<(int, int)>, o: Outcome)
    requires Armed(r, id, s) && Ample(offers) && |offers| >= |s|
    ensures Sound(r.f) && RxValid(r.rx)
    ensures var q := Serve(r, offers, o);
            && !Active(q.f.mp) && Closed(q.f.mp.notices, o)
            && |s| <= |q.rx.data| && q.rx.data[..|s|] == s
  {
    hide Serve, Told, OnTheWire, Closed;
    ArmedWired(r, id, s);
    ArmedReady(r, id, s);
    ServesWhole(r, id, s, offers, o);
    M.WholeAtEnd(Serve(r, offers, o).rx, s);
  }

  lemma ArmedReady(r: Relay, id: byte, s: seq<byte>)
    requires Armed(r, id, s)
    ensures Ready(r.f) && r.f.mp.offset == 0 && !r.f.exclusive
  {
    hide Told;
    var f0 :| Sound(f0) && Command(f0, id, Some(s), false) == (r.f, true);
  }

  // ---- Nothing to send ----

  // A round in which the source has nothing: an empty frame, answered.
  function Idles(f: File, maxLen: int, n: nat): File
    requires Active(f.mp) ==> TxValid(f.mp)
    decreases n
  {
    if n == 0 then f
    else
      var (t, pick) := Tick(f, false, false);
      if pick != FileTransfer then t
      else
        var (b, _) := Build(t, maxLen, 0);
        if Active(b.mp) && !TxValid(b.mp) then b
        else
          var (g, _) := TakeStat(b, StatBytes(READY, 0, 0, 0));
          if Active(g.mp) && !TxValid(g.mp) then g else Idles(g, maxLen, n - 1)
  }

  lemma IdleBuild(f: File, id: byte, s: seq<byte>, maxLen: int)
    requires Sends(f, id, s) && Ready(f) && f.mp.offset < |s| && f.mp.cap == None && f.mp.started
    requires 1 + SC_RESERVE + HdrSize(W32) < maxLen < 0x1_0000
    ensures var (b, p) := Build(f, maxLen, 0);
            p.Some? && OfFile(p.value, id) && Sends(b, id, s)
            && b == f.(errors := f.errors + 1, mp := f.mp.(lastLen := 0, stage := Parked))
  {
    hide Told, Terminal, HdrWrite;
    BuildSound(f, maxLen, 0);
  }

  lemma IdleStat(f: File, id: byte, s: seq<byte>)
    requires Sends(f, id, s) && Active(f.mp) && f.mp.offset < |s| && f.mp.lastLen == 0
    ensures TakeStat(f, StatBytes(READY, 0, 0, 0)).0 == f.(exclusive := false, pollResp := false)
  {
    hide Told, Terminal, StatBytes, StatusIn;
    StatusRead(READY, 0, 0, 0);
    ControlFirst(READY, 0, 0, 0);
  }

  lemma IdleRound(f: File, id: byte, s: seq<byte>, maxLen: int)
    requires Sends(f, id, s) && Ready(f) && f.mp.offset < |s| && f.mp.cap == None
    requires 1 + SC_RESERVE + HdrSize(W32) < maxLen < 0x1_0000
    ensures Active(Tick(f, false, false).0.mp) && TxValid(Tick(f, false, false).0.mp)
    ensures var (b, p) := Build(Tick(f, false, false).0, maxLen, 0);
            && p.Some? && OfFile(p.value, id) && Sends(b, id, s) && Active(b.mp)
            && var g := TakeStat(b, StatBytes(READY, 0, 0, 0)).0;
            && Sends(g, id, s) && Active(g.mp) && !g.pollResp && g.errors == f.errors + 1
            && g.mp.offset == f.mp.offset && g.mp.cap == None
  {
    hide Told, Terminal, StatBytes, Build, TakeStat;
    TickSound(f, false, false);
    var t := Tick(f, false, false).0;
    IdleBuild(t, id, s, maxLen);
    var b := Build(t, maxLen, 0).0;
    IdleStat(b, id, s);
  }

  // A source that never has anything is given eleven frames; then the transfer is aborted.
  lemma {:induction false} GivesUpOnSilence(f: File, id: byte, s: seq<byte>, maxLen: int, n: nat)
    requires Sends(f, id, s) && Active(f.mp) && !f.pollResp && f.mp.offset < |s| && f.errors <= ERROR_RETRY_MAX + 1
    requires f.mp.cap == None
    requires 1 + SC_RESERVE + HdrSize(W32) < maxLen < 0x1_0000
    ensures var g := Idles(f, maxLen, n);
            if f.errors + n <= ERROR_RETRY_MAX + 1
            then Active(g.mp) && g.errors == f.errors + n && g.mp.offset == f.mp.offset
            else !Active(g.mp) && Closed(g.mp.notices, Aborted)
    decreases n
  {
    hide Told, Terminal, StatBytes, TakeStat, Build, Closed;
    if n > 0 {
      if f.errors > ERROR_RETRY_MAX {
        Ended(f.(mp := EmitStart(f.mp)));
      } else {
        IdleRound(f, id, s, maxLen);
        var b := Build(Tick(f, false, false).0, maxLen, 0).0;
        GivesUpOnSilence(TakeStat(b, StatBytes(READY, 0, 0, 0)).0, id, s, maxLen, n - 1);
      }
    }
  }

  // ---- Giving up ----

  // However a transfer ends, its file is closed, its end is told and nothing of it is left for the next.
  lemma EndsClean(f: File, o: Outcome)
    requires Sound(f) && Active(f.mp)
    ensures var g := Terminal(f, o);
            && !Active(g.mp) && Closed(g.mp.notices, o) && g.closes == g.opens && g.id == 0 && g.errors == 0
            && !g.exclusive && !g.pollResp && g.mp == Blank(g.mp.notices)
  {
    hide Told;
  }

  // An abort ends a transfer that is under way, and does nothing otherwise.
  lemma AbortEnds(f: File)
    requires Sound(f)
    ensures var g := Abort(f);
            if Active(f.mp) then !Active(g.mp) && Closed(g.mp.notices, Aborted) && g.closes == g.opens else g == f
  {
    hide Told, Terminal;
    if Active(f.mp) {
      EndsClean(f, Aborted);
    }
  }

  lemma Ended(f: File)
    requires Active(f.mp)
    ensures !Active(Terminal(f, Aborted).mp) && Closed(Terminal(f, Aborted).mp.notices, Aborted)
  {
  }
}
