// What a file transfer puts on the wire, and what reaches the device: every packet a fragment of the
// file under its own id, and all of the file there when the application is told it is done.
module FileRun {
  import opened Bytes
  import opened Multipart
  import M = MultipartRun
  import opened Notices
  import opened File

  // f: the panel's end. rx: the device's, committed whenever the panel commits. packets: everything
  // put on the wire. reached: the device has taken the last of them, or that very packet before.
  // prompt: every status report so far came when it had, or when neither end had anything to commit.
  datatype Relay = Relay(f: File, rx: Transfer, packets: seq<seq<byte>>, reached: bool, prompt: bool)

  // What happens in the course of a transfer: a packet that is built may be lost, and the device's
  // write callback may refuse what it brings.
  datatype Happening =
    | Ticks(cancelled: bool, waiting: bool)
    | Builds(maxLen: int, offered: int, delivered: bool, ws: WriteRc)
    | Hears(buf: seq<byte>)
    | GivesUp

  predicate Took(v: Verdict) { v == More || v == Complete || v == EarlyTerm }

  predicate NothingPending(r: Relay) { r.f.mp.lastLen == 0 && r.rx.lastLen == 0 }

  ghost function Next(r: Relay, e: Happening): Relay
    requires Sound(r.f) && RxValid(r.rx)
  {
    match e
    case Ticks(cancelled, waiting) => r.(f := Tick(r.f, cancelled, waiting).0)
    case Builds(maxLen, offered, delivered, ws) =>
      (match Build(r.f, maxLen, offered)
       case (f', None) => r.(f := f')
       case (f', Some(packet)) =>
         var q := r.(f := f', packets := r.packets + [packet]);
         if !delivered || packet == [] then q.(reached := r.reached && r.packets != [] && packet == r.packets[|r.packets| - 1])
         else
           var c := RxConsume(r.rx, packet[1..], 0, ws);
           q.(rx := c.t, reached := Took(c.verdict)))
    case Hears(buf) =>
      var (f', taken) := TakeStat(r.f, buf);
      if !taken then r.(f := f')
      else r.(f := f', rx := RxCommit(r.rx), reached := false, prompt := r.prompt && (r.reached || NothingPending(r)))
    case GivesUp => r.(f := Abort(r.f))
  }

  // ---- Safety ----

  // The panel has been given file s under id, and the device has yet to receive it.
  ghost predicate Armed(r: Relay, id: byte, s: seq<byte>) {
    && 0 < |s| < 0x1_0000_0000
    && (exists f0 :: Sound(f0) && Command(f0, id, Some(s), false) == (r.f, true))
    && RxValid(r.rx) && r.rx.width == W32 && (r.rx.total == |s| || r.rx.total == 0)
    && r.rx.offset == r.rx.lastOff == r.rx.lastLen == 0 && (r.rx.cap.Some? ==> |s| <= r.rx.cap.value)
    && r.packets == [] && !r.reached && r.prompt
  }

  predicate OfFile(packet: seq<byte>, id: byte) { packet != [] && packet[0] == id }

  ghost predicate Sends(f: File, id: byte, s: seq<byte>) {
    && Sound(f) && (Active(f.mp) ==> f.id == id && f.mp.data == s && f.mp.total == |s| && f.mp.width == W32)
  }

  ghost predicate OnTheWire(packets: seq<seq<byte>>, id: byte, s: seq<byte>) {
    forall k :: 0 <= k < |packets| ==> OfFile(packets[k], id) && M.IsFragment(s, W32, [], packets[k][1..])
  }

  // The two ends stand at the same place as long as reports come when they should.
  ghost predicate Abreast(r: Relay, s: seq<byte>) {
    r.prompt ==>
      && (Active(r.f.mp) ==> r.rx.offset == r.f.mp.offset)
      && (Active(r.f.mp) && r.reached ==>
            && r.rx.lastLen == r.f.mp.lastLen && (r.rx.lastLen > 0 ==> r.rx.lastOff == r.rx.offset)
            && r.packets != [] && |r.packets[|r.packets| - 1]| == 1 + HdrSize(W32) + r.f.mp.lastLen)
      && (r.rx.offset == |s| ==> r.rx.lastLen == 0)
  }

  predicate Delivered(f: File) { !Active(f.mp) && (Closed(f.mp.notices, Okay) || Closed(f.mp.notices, Rebooting)) }

  ghost predicate Wired(r: Relay, id: byte, s: seq<byte>) {
    && Sends(r.f, id, s) && s != [] && Holds(r.rx, s) && r.rx.width == W32 && OnTheWire(r.packets, id, s) && Abreast(r, s)
    && (Delivered(r.f) && r.prompt ==> r.rx.offset == |s|)
  }

  lemma ArmedWired(r: Relay, id: byte, s: seq<byte>)
    requires Armed(r, id, s)
    ensures Wired(r, id, s)
  {
    hide Told;
    var f0 :| Sound(f0) && Command(f0, id, Some(s), false) == (r.f, true);
  }

  lemma EndedDelivers(f: File, o: Outcome)
    requires Active(f.mp)
    ensures Delivered(Terminal(f, o)) <==> o == Okay || o == Rebooting
    ensures !Active(Terminal(f, o).mp)
  {
  }

  lemma TickKeeps(r: Relay, id: byte, s: seq<byte>, cancelled: bool, waiting: bool)
    requires Wired(r, id, s)
    ensures Wired(Next(r, Ticks(cancelled, waiting)), id, s)
  {
    hide Told, Terminal, Holds, Delivered, OnTheWire, M.IsFragment;
    M.HoldsValid(r.rx, s);
    TickSound(r.f, cancelled, waiting);
    if Active(r.f.mp) {
      EndedDelivers(r.f.(mp := EmitStart(r.f.mp)), Aborted);
      Undelivered(EmitStartOf(r.f));
    }
  }

  function EmitStartOf(f: File): File { f.(mp := EmitStart(f.mp)) }

  lemma Undelivered(f: File)
    requires Active(f.mp)
    ensures !Delivered(f)
  {
  }

  lemma SoundTx(f: File)
    requires Sound(f)
    ensures Active(f.mp) ==> TxValid(f.mp)
  {
  }

  // What Build sends is the id and the fragment at the committed offset.
  lemma BuildSends(f: File, id: byte, s: seq<byte>, maxLen: int, offered: int)
    requires Sends(f, id, s) && maxLen < 0x1_0000
    ensures var (f', p) := Build(f, maxLen, offered);
            && Sends(f', id, s)
            && (p.Some? ==>
                  && Active(f.mp) && Active(f'.mp) && f'.mp.offset == f.mp.offset <= |s| - f'.mp.lastLen && OfFile(p.value, id)
                  && |p.value| == 1 + HdrSize(W32) + f'.mp.lastLen
                  && Fragment(s, W32, [], f.mp.offset, f'.mp.lastLen, p.value[1..]))
            && (p == None ==> f' == f || (Active(f.mp) && f' == Terminal(f, Aborted)))
  {
    hide Told, Terminal, HdrWrite, Fragment;
    BuildSound(f, maxLen, offered);
    if Active(f.mp) {
      EndedDelivers(f, Aborted);
      BuildsFragments(f.mp, maxLen - 1 - SC_RESERVE, [], offered);
      IdleFragment(f.mp);
    }
  }

  lemma IdleFragment(t: Transfer)
    requires TxValid(t) && t.total == |t.data|
    ensures Fragment(t.data, t.width, [], t.offset, 0, HdrWrite(t.width, t.total, t.offset, 0))
  {
  }

  lemma MoreOnTheWire(packets: seq<seq<byte>>, packet: seq<byte>, id: byte, s: seq<byte>)
    requires OnTheWire(packets, id, s) && OfFile(packet, id) && M.IsFragment(s, W32, [], packet[1..])
    ensures OnTheWire(packets + [packet], id, s)
  {
    hide M.IsFragment;
  }

  lemma BuildKeeps(r: Relay, id: byte, s: seq<byte>, maxLen: int, offered: int, delivered: bool, ws: WriteRc)
    requires Wired(r, id, s) && maxLen < 0x1_0000
    ensures Wired(Next(r, Builds(maxLen, offered, delivered, ws)), id, s)
  {
    hide Sound, Terminal, Holds, Delivered, Build, Fragment, RxConsume, OnTheWire;
    M.HoldsValid(r.rx, s);
    SoundTx(r.f);
    BuildSends(r.f, id, s, maxLen, offered);
    var (f', p) := Build(r.f, maxLen, offered);
    if p == None {
      if Active(r.f.mp) {
        EndedDelivers(r.f, Aborted);
      }
    } else {
      Undelivered(f');
      assert M.IsFragment(s, W32, [], p.value[1..]);
      MoreOnTheWire(r.packets, p.value, id, s);
      TakesFragment(r.rx, s, [], r.f.mp.offset, f'.mp.lastLen, p.value[1..], ws);
      M.ConsumeWidth(r.rx, p.value[1..], 0, ws);
      if delivered {
        TakeKeeps(r.rx, s, p.value[1..], ws);
      }
    }
  }

  // A fragment past the end leaves what is pending alone.
  lemma TakeKeeps(t: Transfer, s: seq<byte>, frame: seq<byte>, ws: WriteRc)
    requires RxValid(t)
    ensures var c := RxConsume(t, frame, 0, ws);
            !(c.verdict == More || c.verdict == Complete) ==> c.t.lastLen == t.lastLen && c.t.lastOff == t.lastOff
  {
    hide HdrRead, Splice;
  }

  lemma StatKeeps(r: Relay, id: byte, s: seq<byte>, buf: seq<byte>)
    requires Wired(r, id, s)
    ensures Wired(Next(r, Hears(buf)), id, s)
  {
    hide Told, Terminal, Holds, Delivered, OnTheWire, RxCommit, TakeStat;
    M.HoldsValid(r.rx, s);
    StatSound(r.f, buf);
    CommitHolds(r.rx, s);
    CommitMoves(r.rx);
    StatFacts(r.f, id, s, buf);
  }

  // A report that is taken commits; it ends the transfer, or the transfer goes on from there. A transfer
  // that went through is out to its last byte.
  lemma StatFacts(f: File, id: byte, s: seq<byte>, buf: seq<byte>)
    requires Sends(f, id, s)
    ensures var (g, taken) := TakeStat(f, buf);
            && Sends(g, id, s) && (taken <==> Active(f.mp) && |buf| >= STAT_LEN) && (!taken ==> g == f)
            && (taken && Active(g.mp) ==> g.mp.offset == f.mp.offset + f.mp.lastLen && g.mp.lastLen == 0 && !Delivered(g))
            && (taken && Delivered(g) ==> f.mp.offset + f.mp.lastLen == |s|)
  {
    hide Told, Terminal, Delivered, StatusIn, OutcomeOf;
    StatSound(f, buf);
    if Active(f.mp) && |buf| >= STAT_LEN {
      CommitSound(f);
      var status := StatusIn(buf);
      var g := f.(exclusive := buf[0] % 2 == 0, pollResp := buf[0] / 4 % 2 == 1, mp := TxCommit(f.mp));
      Undelivered(g);
      Undelivered(g.(mp := g.mp.(stage := Parked)));
      EndedDelivers(g, OutcomeOf(status));
      NegativeFails(status);
    }
  }

  lemma CommitMoves(t: Transfer)
    requires RxValid(t)
    ensures var r := RxCommit(t);
            && r.lastLen == 0 && r.width == t.width && (t.lastLen == 0 ==> r.offset == t.offset)
            && (t.lastOff == t.offset ==> r.offset == t.offset + t.lastLen)
  {
  }

  lemma NegativeFails(status: int)
    ensures status < 0 ==> OutcomeOf(status) != Okay && OutcomeOf(status) != Rebooting
  {
  }

  lemma NextKeeps(r: Relay, id: byte, s: seq<byte>, e: Happening)
    requires Wired(r, id, s) && (e.Builds? ==> e.maxLen < 0x1_0000)
    ensures RxValid(r.rx) && Wired(Next(r, e), id, s)
  {
    hide Told, Terminal, Holds, Delivered, OnTheWire, Build, TakeStat, Tick;
    M.HoldsValid(r.rx, s);
    match e
    case Ticks(cancelled, waiting) => TickKeeps(r, id, s, cancelled, waiting);
    case Builds(maxLen, offered, delivered, ws) => BuildKeeps(r, id, s, maxLen, offered, delivered, ws);
    case Hears(buf) => StatKeeps(r, id, s, buf);
    case GivesUp =>
      if Active(r.f.mp) {
        TerminalSound(r.f, Aborted);
        EndedDelivers(r.f, Aborted);
      }
  }

  ghost predicate Trace(rs: seq<Relay>, es: seq<Happening>) {
    && |rs| == |es| + 1
    && (forall i :: 0 <= i < |es| && es[i].Builds? ==> es[i].maxLen < 0x1_0000)
    && forall i :: 0 <= i < |es| ==> Sound(rs[i].f) && RxValid(rs[i].rx) ==> rs[i + 1] == Next(rs[i], es[i])
  }

  lemma {:induction false} RunWired(rs: seq<Relay>, es: seq<Happening>, id: byte, s: seq<byte>, i: nat)
    requires Trace(rs, es) && Armed(rs[0], id, s) && i < |rs|
    ensures Wired(rs[i], id, s)
  {
    hide Next, Holds, Told;
    if i == 0 {
      ArmedWired(rs[0], id, s);
    } else {
      RunWired(rs, es, id, s, i - 1);
      NextKeeps(rs[i - 1], id, s, es[i - 1]);
    }
  }

  // Whatever is ticked, read, lost, refused, reported or aborted: every packet of a transfer opens with
  // the id of its file and carries a fragment of it.
  lemma PacketsCarryFile(rs: seq<Relay>, es: seq<Happening>, id: byte, s: seq<byte>, i: nat, k: nat)
    requires Trace(rs, es) && Armed(rs[0], id, s) && i < |rs| && k < |rs[i].packets|
    ensures var p := rs[i].packets[k]; p != [] && p[0] == id && M.IsFragment(s, W32, [], p[1..])
  {
    hide Next, Holds, Told;
    RunWired(rs, es, id, s, i);
  }

  // The device always holds a prefix of the file. As long as status reports come only once the device has
  // taken the packet they answer, it holds as much as the panel counts as sent, and when the
  // application is told the transfer went through it holds the file.
  lemma ArrivesWhole(rs: seq<Relay>, es: seq<Happening>, id: byte, s: seq<byte>, i: nat)
    requires Trace(rs, es) && Armed(rs[0], id, s) && i < |rs|
    ensures var rx := rs[i].rx; rx.offset <= |rx.data| && rx.offset <= |s| && rx.data[..rx.offset] == s[..rx.offset]
    ensures rs[i].prompt && Active(rs[i].f.mp) ==> rs[i].rx.offset == rs[i].f.mp.offset
    ensures rs[i].prompt && !Active(rs[i].f.mp)
              && (Closed(rs[i].f.mp.notices, Okay) || Closed(rs[i].f.mp.notices, Rebooting)) ==>
              |s| <= |rs[i].rx.data| && rs[i].rx.data[..|s|] == s
  {
    hide Next, Told;
    RunWired(rs, es, id, s, i);
    assert s[..|s|] == s;
  }

  // When every packet gets there and the device can store what it brings, no report is ever out of turn.
  lemma {:induction false} TakenInTurn(rs: seq<Relay>, es: seq<Happening>, id: byte, s: seq<byte>, i: nat)
    requires Trace(rs, es) && Armed(rs[0], id, s) && i < |rs|
    requires forall k :: 0 <= k < |es| && es[k].Builds? ==> es[k].delivered && es[k].ws == WriteOk
    ensures rs[i].prompt && (Active(rs[i].f.mp) ==> rs[i].reached || NothingPending(rs[i]))
  {
    hide Next, Wired, Told, Sound;
    if i == 0 {
      ArmedPending(rs[0], id, s);
    } else {
      TakenInTurn(rs, es, id, s, i - 1);
      RunWired(rs, es, id, s, i - 1);
      WiredFits(rs[i - 1], id, s);
      TurnKept(rs[i - 1], id, s, es[i - 1]);
    }
  }

  // So then the application is told a transfer went through only of a file the device holds, whatever is
  // read, reported, cancelled or aborted on the way.
  lemma TakenArrivesWhole(rs: seq<Relay>, es: seq<Happening>, id: byte, s: seq<byte>, i: nat)
    requires Trace(rs, es) && Armed(rs[0], id, s) && i < |rs|
    requires forall k :: 0 <= k < |es| && es[k].Builds? ==> es[k].delivered && es[k].ws == WriteOk
    requires !Active(rs[i].f.mp) && (Closed(rs[i].f.mp.notices, Okay) || Closed(rs[i].f.mp.notices, Rebooting))
    ensures |s| <= |rs[i].rx.data| && rs[i].rx.data[..|s|] == s
  {
    hide Next, Told, Trace, Armed;
    TakenInTurn(rs, es, id, s, i);
    ArrivesWhole(rs, es, id, s, i);
  }

  lemma ArmedPending(r: Relay, id: byte, s: seq<byte>)
    requires Armed(r, id, s)
    ensures r.prompt && NothingPending(r)
  {
    hide Told;
    var f0 :| Sound(f0) && Command(f0, id, Some(s), false) == (r.f, true);
  }

  lemma WiredFits(r: Relay, id: byte, s: seq<byte>)
    requires Wired(r, id, s)
    ensures Sound(r.f) && RxValid(r.rx)
  {
    hide Told;
  }

  lemma TurnKept(r: Relay, id: byte, s: seq<byte>, e: Happening)
    requires Wired(r, id, s) && r.prompt && (Active(r.f.mp) ==> r.reached || NothingPending(r))
    requires e.Builds? ==> e.maxLen < 0x1_0000 && e.delivered && e.ws == WriteOk
    ensures RxValid(r.rx)
    ensures var q := Next(r, e); q.prompt && (Active(q.f.mp) ==> q.reached || NothingPending(q))
  {
    hide Told, Terminal, Holds, Delivered, OnTheWire, Build, TakeStat, RxConsume, Fragment, RxCommit;
    M.HoldsValid(r.rx, s);
    SoundTx(r.f);
    match e
    case Ticks(cancelled, waiting) =>
      if Active(r.f.mp) {
        EndedDelivers(r.f.(mp := EmitStart(r.f.mp)), Aborted);
      }
    case Builds(maxLen, offered, delivered, ws) =>
      BuildSends(r.f, id, s, maxLen, offered);
      var (f', p) := Build(r.f, maxLen, offered);
      if p == None {
        if Active(r.f.mp) {
          EndedDelivers(r.f, Aborted);
        }
      } else {
        TakesFragment(r.rx, s, [], r.f.mp.offset, f'.mp.lastLen, p.value[1..], ws);
      }
    case Hears(buf) =>
      StatFacts(r.f, id, s, buf);
      CommitMoves(r.rx);
    case GivesUp =>
      if Active(r.f.mp) {
        EndedDelivers(r.f, Aborted);
      }
  }

  // A packet built again because its answer was lost is answered as the first one was. The two ends stay
  // at the same place if and only if the source gives for it again what it gave before.
  lemma RereadMustAgree(r: Relay, id: byte, s: seq<byte>, first: Happening, again: Happening, buf: seq<byte>)
    requires Wired(r, id, s) && r.prompt && Active(r.f.mp) && r.f.mp.offset < |s| && |buf| >= STAT_LEN
    requires first.Builds? && again.Builds? && first.maxLen < 0x1_0000 && again.maxLen < 0x1_0000
    requires first.delivered && first.ws == WriteOk && !again.delivered
    requires Build(r.f, first.maxLen, first.offered).1.Some?
    requires Build(Build(r.f, first.maxLen, first.offered).0, again.maxLen, again.offered).1.Some?
    ensures RxValid(r.rx)
    ensures var b := Next(r, first);
            && Sound(b.f) && RxValid(b.rx)
            && var c := Next(b, again);
            && Sound(c.f) && RxValid(c.rx) && |c.packets| == |r.packets| + 2
            && var q := Next(c, Hears(buf));
            Active(q.f.mp) ==> (q.rx.offset == q.f.mp.offset <==> c.packets[|r.packets|] == c.packets[|r.packets| + 1])
  {
    hide Told, Terminal, Holds, Delivered, OnTheWire, Build, Fragment, RxConsume, TakeStat, Sound, RxCommit;
    M.HoldsValid(r.rx, s);
    SoundTx(r.f);
    BuildSends(r.f, id, s, first.maxLen, first.offered);
    var (f1, p1) := Build(r.f, first.maxLen, first.offered);
    SoundTx(f1);
    BuildSends(f1, id, s, again.maxLen, again.offered);
    var (f2, p2) := Build(f1, again.maxLen, again.offered);
    TakesFragment(r.rx, s, [], r.f.mp.offset, f1.mp.lastLen, p1.value[1..], WriteOk);
    var c := RxConsume(r.rx, p1.value[1..], 0, WriteOk);
    M.HoldsValid(c.t, s);
    CommitMoves(c.t);
    StatFacts(f2, id, s, buf);
    SameFragment(s, r.f.mp.offset, f1.mp.lastLen, f2.mp.lastLen, p1.value, p2.value);
  }

  lemma SameFragment(s: seq<byte>, off: nat, n: nat, m: nat, p: seq<byte>, q: seq<byte>)
    requires p != [] && q != [] && p[0] == q[0]
    requires Fragment(s, W32, [], off, n, p[1..]) && Fragment(s, W32, [], off, m, q[1..])
    ensures p == q <==> n == m
  {
    hide HdrWrite;
    assert p == [p[0]] + p[1..] && q == [q[0]] + q[1..];
  }
}
