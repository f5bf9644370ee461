// One payload from a sender to a receiver over a channel that may lose, repeat and reorder
// fragments at will; and over one that keeps the stop-and-wait discipline of the link.
module MultipartRun {
  import opened Bytes
  import opened Multipart

  // sent holds every fragment ever built; verdict is the receiver's on the fragment it has not yet
  // committed.
  datatype Pipe = Pipe(tx: Transfer, rx: Transfer, sent: seq<seq<byte>>, verdict: Option<Verdict>)

  datatype Op =
    | Build(maxLen: int, offered: int)
    | CommitTx
    | Deliver(k: nat, ws: WriteRc)
    | CommitRx

  function Next(p: Pipe, pfx: seq<byte>, op: Op): Pipe
    requires TxValid(p.tx) && RxValid(p.rx)
  {
    match op
    case Build(maxLen, offered) =>
      (match TxBuild(p.tx, maxLen, pfx, offered)
       case None => p
       case Some((tx', frame)) => p.(tx := tx', sent := p.sent + [frame]))
    case CommitTx => p.(tx := TxCommit(p.tx))
    case Deliver(k, ws) =>
      if k >= |p.sent| then p
      else
        var c := RxConsume(p.rx, p.sent[k], |pfx|, ws);
        p.(rx := c.t, verdict := Some(c.verdict))
    case CommitRx => p.(rx := RxCommit(p.rx), verdict := None)
  }

  // A sender armed with s and a receiver armed for it, its total given or left to the first frame.
  ghost predicate Armed(p: Pipe, s: seq<byte>) {
    && TxValid(p.tx) && RxValid(p.rx) && p.tx.data == s && p.tx.total == |s| && p.tx.offset == 0
    && p.rx.width == p.tx.width && |s| < Limit(p.tx.width) && (p.rx.total == |s| || p.rx.total == 0)
    && p.rx.offset == p.rx.lastOff == p.rx.lastLen == 0 && (p.rx.cap.Some? ==> |s| <= p.rx.cap.value)
    && p.sent == [] && p.verdict == None
  }

  ghost predicate Wired(p: Pipe, pfx: seq<byte>, s: seq<byte>) {
    && TxValid(p.tx) && p.tx.data == s && p.tx.total == |s| && p.tx.width == p.rx.width && Holds(p.rx, s)
    && (forall k :: 0 <= k < |p.sent| ==> IsFragment(s, p.tx.width, pfx, p.sent[k]))
    && (p.verdict == Some(Complete) ==> p.rx.total == p.rx.lastOff + p.rx.lastLen == |s|)
  }

  ghost predicate IsFragment(s: seq<byte>, w: Width, pfx: seq<byte>, frame: seq<byte>) {
    exists off: nat, n: nat :: Fragment(s, w, pfx, off, n, frame)
  }

  lemma ReceiveKeeps(rx: Transfer, w: Width, s: seq<byte>, pfx: seq<byte>, frame: seq<byte>, ws: WriteRc)
    requires Holds(rx, s) && s != [] && rx.width == w && IsFragment(s, w, pfx, frame)
    ensures var c := RxConsume(rx, frame, |pfx|, ws);
            && Holds(c.t, s) && c.t.width == w && c.t.offset == rx.offset
            && (c.verdict == Complete ==> c.t.total == c.t.lastOff + c.t.lastLen == |s|)
  {
    hide Fragment, Holds, RxConsume;
    var off: nat, n: nat :| Fragment(s, w, pfx, off, n, frame);
    TakesFragment(rx, s, pfx, off, n, frame, ws);
    HoldsValid(rx, s);
    ConsumeWidth(rx, frame, |pfx|, ws);
  }

  lemma ConsumeWidth(t: Transfer, frame: seq<byte>, pfxLen: nat, ws: WriteRc)
    requires RxValid(t)
    ensures RxConsume(t, frame, pfxLen, ws).t.width == t.width
  {
    hide HdrRead, Splice;
  }

  lemma OpKeeps(p: Pipe, pfx: seq<byte>, s: seq<byte>, op: Op)
    requires Wired(p, pfx, s) && (op.Build? ==> op.maxLen < 0x1_0000)
    ensures Wired(Next(p, pfx, op), pfx, s)
    ensures p.rx.offset <= Next(p, pfx, op).rx.offset
  {
    hide Holds, RxConsume, Fragment, HdrWrite;
    assert RxValid(p.rx) by { HoldsValid(p.rx, s); }
    match op
    case Build(maxLen, offered) =>
      BuildsFragments(p.tx, maxLen, pfx, offered);
      var r := TxBuild(p.tx, maxLen, pfx, offered);
      if r.Some? {
        assert Fragment(s, p.tx.width, pfx, p.tx.offset, r.value.0.lastLen, r.value.1);
        assert IsFragment(s, p.tx.width, pfx, r.value.1);
      }
    case CommitTx =>
    case Deliver(k, ws) =>
      if k < |p.sent| {
        ReceiveKeeps(p.rx, p.tx.width, s, pfx, p.sent[k], ws);
      }
    case CommitRx => CommitHolds(p.rx, s);
  }

  lemma HoldsValid(t: Transfer, s: seq<byte>)
    requires Holds(t, s)
    ensures RxValid(t)
  {
  }

  ghost predicate Trace(ps: seq<Pipe>, ops: seq<Op>, pfx: seq<byte>) {
    && |ps| == |ops| + 1
    && (forall i :: 0 <= i < |ops| && ops[i].Build? ==> ops[i].maxLen < 0x1_0000)
    && forall i :: 0 <= i < |ops| ==>
         TxValid(ps[i].tx) && RxValid(ps[i].rx) ==> ps[i + 1] == Next(ps[i], pfx, ops[i])
  }

  lemma {:induction false} RunWired(ps: seq<Pipe>, ops: seq<Op>, pfx: seq<byte>, s: seq<byte>, i: nat)
    requires Trace(ps, ops, pfx) && Armed(ps[0], s) && i < |ps|
    ensures Wired(ps[i], pfx, s)
  {
    hide Next, TxValid, Holds;
    if i == 0 {
      ArmedWired(ps[0], pfx, s);
    } else {
      RunWired(ps, ops, pfx, s, i - 1);
      HoldsValid(ps[i - 1].rx, s);
      OpKeeps(ps[i - 1], pfx, s, ops[i - 1]);
    }
  }

  lemma ArmedWired(p: Pipe, pfx: seq<byte>, s: seq<byte>)
    requires Armed(p, s)
    ensures Wired(p, pfx, s)
  {
  }

  // Whatever the channel does with the fragments, what the receiver has committed is a prefix of
  // what was sent, within total and buffer; and once it has seen the end, a commit makes it whole.
  lemma NeverCorrupts(ps: seq<Pipe>, ops: seq<Op>, pfx: seq<byte>, s: seq<byte>, i: nat)
    requires Trace(ps, ops, pfx) && Armed(ps[0], s) && i < |ps|
    ensures var rx := ps[i].rx;
            && RxValid(rx) && rx.offset <= |s| && rx.data[..rx.offset] == s[..rx.offset]
            && (rx.cap.Some? ==> rx.offset <= rx.cap.value)
            && (ps[i].verdict == Some(Complete) ==>
                  RxCommit(rx).offset == |s| <= |rx.data| && RxCommit(rx).data[..|s|] == s)
  {
    RunWired(ps, ops, pfx, s, i);
    CommitHolds(ps[i].rx, s);
    assert s[..|s|] == s;
  }

  // ---- Stop and wait ----

  // A fragment built twice in a row, as a link retry does, is the same fragment.
  lemma RebuildSame(t: Transfer, maxLen: int, pfx: seq<byte>, offered: int)
    requires TxValid(t) && TxBuild(t, maxLen, pfx, offered).Some?
    ensures var (t', frame) := TxBuild(t, maxLen, pfx, offered).value;
            TxBuild(t', maxLen, pfx, offered) == Some((t', frame))
  {
  }

  // One fragment across: built, taken in, acknowledged.
  function Round(tx: Transfer, rx: Transfer, pfx: seq<byte>, maxLen: int): Option<(Transfer, Consumed)>
    requires TxValid(tx) && RxValid(rx)
  {
    match TxBuild(tx, maxLen, pfx, 0)
    case None => None
    case Some((tx', frame)) =>
      var c := RxConsume(rx, frame, |pfx|, WriteOk);
      Some((TxCommit(tx'), c.(t := RxCommit(c.t))))
  }

  // Both ends stand at the same place in s.
  ghost predicate InStep(tx: Transfer, rx: Transfer, s: seq<byte>) {
    && TxValid(tx) && tx.data == s && tx.total == |s| && tx.cap.Some? && tx.width == rx.width && Holds(rx, s)
    && rx.offset == tx.offset && rx.lastLen == 0
  }

  // A packet with room for the header, the prefix and one byte moves both ends on together by at
  // least a byte; the receiver knows of the end exactly when it is there.
  lemma RoundMoves(tx: Transfer, rx: Transfer, pfx: seq<byte>, s: seq<byte>, maxLen: int)
    requires InStep(tx, rx, s) && tx.offset < |s|
    requires HdrSize(tx.width) + |pfx| < maxLen < 0x1_0000
    ensures var r := Round(tx, rx, pfx, maxLen);
            && r.Some?
            && var (tx', c) := r.value;
            && InStep(tx', c.t, s) && tx'.offset > tx.offset
            && c.verdict == (if tx'.offset == |s| then Complete else More)
            && (tx.offset == 0 && pfx != [] ==> c.pfx == Some(pfx))
            && tx'.notices == (if tx'.offset == |s| then tx.notices else tx.notices + [Progress(tx'.offset)])
            && c.t.notices == (if tx'.offset == |s| then rx.notices else rx.notices + [Progress(tx'.offset)])
  {
    hide HdrWrite, RxConsume, Fragment;
    BuildsFragments(tx, maxLen, pfx, 0);
    var (tx', frame) := TxBuild(tx, maxLen, pfx, 0).value;
    var n := tx'.lastLen;
    TakesFragment(rx, s, pfx, tx.offset, n, frame, WriteOk);
    var c := RxConsume(rx, frame, |pfx|, WriteOk);
    ConsumeWidth(rx, frame, |pfx|, WriteOk);
    CommitHolds(c.t, s);
  }

  // The whole payload, fragment by fragment, with whatever packet sizes come up.
  function Convey(tx: Transfer, rx: Transfer, pfx: seq<byte>, sizes: seq<int>): Option<(Transfer, Transfer)>
    requires TxValid(tx) && RxValid(rx)
    decreases |sizes|
  {
    if tx.offset >= tx.total || sizes == [] then Some((tx, rx))
    else
      match Round(tx, rx, pfx, sizes[0])
      case None => None
      case Some((tx', c)) =>
        if TxValid(tx') && (c.verdict == More || c.verdict == Complete) then Convey(tx', c.t, pfx, sizes[1..]) else None
  }

  // As many packets as there are bytes always suffice.
  lemma {:induction false} ConveysWhole(tx: Transfer, rx: Transfer, pfx: seq<byte>, s: seq<byte>, sizes: seq<int>)
    requires InStep(tx, rx, s) && |sizes| >= |s| - tx.offset
    requires forall k :: 0 <= k < |sizes| ==> HdrSize(tx.width) + |pfx| < sizes[k] < 0x1_0000
    ensures var r := Convey(tx, rx, pfx, sizes);
            && r.Some? && r.value.0.offset == r.value.1.offset == |s| <= |r.value.1.data|
            && r.value.1.data[..|s|] == s
    decreases |sizes|
  {
    hide Round, Holds;
    if tx.offset < |s| {
      HoldsValid(rx, s);
      RoundMoves(tx, rx, pfx, s, sizes[0]);
      var (tx', c) := Round(tx, rx, pfx, sizes[0]).value;
      RoundWidth(tx, rx, pfx, sizes[0]);
      ConveysWhole(tx', c.t, pfx, s, sizes[1..]);
    } else {
      WholeAtEnd(rx, s);
    }
  }

  lemma RoundWidth(tx: Transfer, rx: Transfer, pfx: seq<byte>, maxLen: int)
    requires TxValid(tx) && RxValid(rx) && Round(tx, rx, pfx, maxLen).Some?
    ensures Round(tx, rx, pfx, maxLen).value.0.width == tx.width
  {
    hide RxConsume;
  }

  lemma WholeAtEnd(rx: Transfer, s: seq<byte>)
    requires Holds(rx, s) && rx.offset == |s|
    ensures |s| <= |rx.data| && rx.data[..|s|] == s && (s != [] ==> rx.total == |s|)
  {
    assert s[..|s|] == s;
  }
}
