// Biometric templates (src/osdp_bio.c): one packet when the template fits, else fragments, the first
// of which carries the ordinary reply header in place of the fragment header.
module Bio {
  import opened Bytes
  import opened Multipart
  import opened MultipartRun
  import opened Notices

  const TEMPLATE_MAX := 256  // OSDP_EVENT_BIOREADR_MAX_TEMPLATE_LEN
  const STD_HDR := 6         // REPLY_BIOREADR_DATA_LEN

  datatype Template = Template(reader: byte, status: byte, kind: byte, quality: byte, data: seq<byte>)

  // started: start_emitted of the operation. store: data[].
  datatype Bio = Bio(active: bool, started: bool, reader: byte, status: byte, kind: byte, quality: byte,
                     mp: Transfer, store: seq<byte>)

  // bio_write_std_header
  function StdHeader(b: Bio, total: nat): (s: seq<byte>)
    ensures |s| == STD_HDR
  {
    [b.reader, b.status, b.kind, b.quality] + Le16(total % 0x1_0000)
  }

  // bio_op_reset
  function Reset(b: Bio): Bio { b.(active := false, mp := Blank(b.mp.notices)) }

  // bio_emit_start
  function Announce(b: Bio): Bio {
    if b.started then b else b.(started := true, mp := EmitStart(b.mp))
  }

  // osdp_bio_abort
  function Abort(b: Bio): Bio {
    if !b.active then b
    else
      var c := Announce(b);
      Reset(c.(mp := Finish(c.mp, Aborted)))
  }

  // bio_op_open: whatever a previous operation left behind is superseded.
  function Open(b: Bio): Bio {
    var c := Abort(b);
    c.(started := false, mp := Blank(c.mp.notices))
  }

  // The device's operation armed on the template, and the panel's on its buffer.
  function OpenToSend(b: Bio, d: seq<byte>): (c: Bio)
    requires 0 < |d|
    ensures c.active && TxValid(c.mp) && d <= c.store
  {
    var o := Open(b).(store := Splice(b.store, 0, d));
    var mp := TxInit(o.mp.(cap := Some(|d|), data := d), |d|, W16).value;
    Announce(o.(mp := mp)).(active := true)
  }

  function OpenToTake(b: Bio, total: nat): (c: Bio)
    ensures c.active && RxValid(c.mp)
  {
    var o := Open(b);
    Announce(o.(mp := RxInit(o.mp.(cap := Some(|o.store|), data := o.store), W16, total))).(active := true)
  }

  // ---- Device ----

  // The next fragment, committed at once.
  function Next(b: Bio, maxLen: int): (r: (Bio, Option<seq<byte>>))
    requires b.active && TxValid(b.mp)
    ensures r.0.active ==> TxValid(r.0.mp)
  {
    match TxBuild(b.mp, maxLen - SC_RESERVE, [], 0)
    case None => (Abort(b), None)
    case Some((mp', frame)) =>
      var t := TxCommit(mp');
      // The swap is in place: both headers are six bytes long.
      var out := if b.mp.offset == 0 && |frame| >= STD_HDR then StdHeader(b, b.mp.total) + frame[STD_HDR..] else frame;
      (if t.offset >= t.total then Reset(b.(mp := Finish(t, Okay))) else b.(mp := t), Some(out))
  }

  // osdp_bio_pd_reply_build: e seeds the reply, None continues one under way.
  // The smallest packet leaves more room than header and reserve.
  function BuildReply(b: Bio, e: Option<Template>, maxLen: int): (r: (Bio, Option<seq<byte>>))
    requires b.active ==> TxValid(b.mp)
    requires maxLen >= STD_HDR + SC_RESERVE
    ensures r.0.active ==> TxValid(r.0.mp)
  {
    match e
    case Some(t) =>
      if |t.data| > TEMPLATE_MAX then (b, None)
      else
        var h := b.(reader := t.reader, status := t.status, kind := t.kind, quality := t.quality);
        if |t.data| <= maxLen - STD_HDR - SC_RESERVE then (h, Some(StdHeader(h, |t.data|) + t.data))
        else Next(OpenToSend(h, t.data), maxLen)
    case None => if !b.active || b.mp.offset >= b.mp.total then (b, None) else Next(b, maxLen)
  }

  // ---- Panel ----

  function Event(b: Bio, d: seq<byte>): Template { Template(b.reader, b.status, b.kind, b.quality, d) }

  // After a complete template osdp_bio_cp_reply_finish ends the operation.
  function Conclude(b: Bio, c: Consumed): (r: (Bio, Option<Template>))
    requires b.active && RxValid(c.t)
    ensures r.0.active ==> RxValid(r.0.mp)
  {
    var t := RxCommit(c.t);
    match c.verdict
    case More => (b.(mp := t, store := t.data), None)
    case Complete =>
      (Reset(b.(mp := Finish(t, Okay), store := t.data)),
       if t.total <= |t.data| then Some(Event(b, t.data[..t.total])) else None)
    case _ => (Abort(b.(mp := c.t, store := c.t.data)), None)
  }

  // osdp_bio_cp_reply_consume
  function TakeReply(b: Bio, buf: seq<byte>): (r: (Bio, Option<Template>))
    requires b.active ==> RxValid(b.mp)
    ensures r.0.active ==> RxValid(r.0.mp)
  {
    if b.active then Conclude(b, RxConsume(b.mp, buf, 0, WriteOk))
    else if |buf| < STD_HDR then (b, None)
    else
      var h := b.(reader := buf[0], status := buf[1], kind := buf[2], quality := buf[3]);
      var total, chunk := FromLe16(buf[4], buf[5]), buf[STD_HDR..];
      if total > |h.store| || |chunk| > total then (h, None)
      else if |chunk| == total then (h, Some(Event(h, chunk)))
      else
        // Fragment 0: the engine is fed the header it would have had.
        var q := OpenToTake(h, total);
        Conclude(q, RxConsume(q.mp, HdrWrite(W16, total, 0, |chunk|) + chunk, 0, WriteOk))
  }

  // ---- Fragment by fragment ----

  predicate SameHeader(b: Bio, e: Template) {
    b.reader == e.reader && b.status == e.status && b.kind == e.kind && b.quality == e.quality
  }

  ghost predicate Between(cp: Bio, pd: Bio, e: Template) {
    && cp.active && pd.active && SameHeader(cp, e) && InStep(pd.mp, cp.mp, e.data) && pd.mp.width == W16
    && 0 < pd.mp.offset < |e.data| && Active(cp.mp) && Active(pd.mp)
  }

  lemma FragmentParts(tx: Transfer, maxLen: int)
    requires TxValid(tx) && tx.width == W16 && 6 < maxLen && tx.offset < tx.total && tx.cap.Some?
    ensures var r := TxBuild(tx, maxLen, [], 0);
            && r.Some?
            && var (tx', frame) := r.value;
            && 0 < tx'.lastLen && tx'.offset == tx.offset && |frame| == 6 + tx'.lastLen
            && frame == HdrWrite(W16, tx.total, tx.offset, tx'.lastLen) + frame[6..]
            && frame[6..] == tx.data[tx.offset..tx.offset + tx'.lastLen]
            && tx'.lastLen <= maxLen - 6
  {
    hide HdrWrite;
  }

  // How the panel ends up: waiting for more, or idle with the template handed over and the end told.
  predicate HandedOver(cp: Bio, pd: Bio) {
    !cp.active && !pd.active && Closed(cp.mp.notices, Okay)
  }

  // From fragment to fragment the two ends keep step, and the last one hands over the template.
  lemma ContinuationCrosses(cp: Bio, pd: Bio, e: Template, size: int)
    requires Between(cp, pd, e) && STD_HDR + SC_RESERVE < size < 0x1_0000
    ensures RxValid(cp.mp) && TxValid(pd.mp)
    ensures var (pd1, buf) := BuildReply(pd, None, size);
            && buf.Some? && |buf.value| == Min(size - SC_RESERVE, 6 + |e.data| - pd.mp.offset)
            && var (cp1, got) := TakeReply(cp, buf.value);
            && if got.Some? then got == Some(e) && HandedOver(cp1, pd1)
               else Between(cp1, pd1, e) && pd1.mp.offset > pd.mp.offset
  {
    hide HdrRead, HdrWrite, RxConsume, Fragment, Holds;
    HoldsValid(cp.mp, e.data);
    RoundMoves(pd.mp, cp.mp, [], e.data, size - SC_RESERVE);
    var (tx, frame) := TxBuild(pd.mp, size - SC_RESERVE, [], 0).value;
    var c := RxConsume(cp.mp, frame, 0, WriteOk);
    ConsumeFrame(cp.mp, frame, 0);
    if RxCommit(c.t).offset == |e.data| {
      WholeAtEnd(RxCommit(c.t), e.data);
    }
  }

  // Does the template go in one packet?
  predicate Single(e: Template, size: int) { |e.data| <= size - STD_HDR - SC_RESERVE }

  // The first packet: the whole template, or a first fragment with its header swapped on the way out
  // and put back at the other end.
  lemma FirstCrosses(cp: Bio, pd: Bio, e: Template, size: int)
    requires !cp.active && |cp.store| == TEMPLATE_MAX && |e.data| <= TEMPLATE_MAX
    requires STD_HDR + SC_RESERVE < size < 0x1_0000 && (pd.active ==> TxValid(pd.mp))
    ensures var (pd1, buf) := BuildReply(pd, Some(e), size);
            && buf.Some? && |buf.value| == Min(size - SC_RESERVE, 6 + |e.data|)
            && var (cp1, got) := TakeReply(cp, buf.value);
            if Single(e, size) then got == Some(e) && !cp1.active && cp1.mp == cp.mp && pd1.mp == pd.mp && pd1.active == pd.active
            else got == None && Between(cp1, pd1, e)
  {
    hide HdrRead, HdrWrite, RxConsume, Fragment, Holds, Le16, FromLe16;
    Le16RoundTrip(|e.data|);
    var h := pd.(reader := e.reader, status := e.status, kind := e.kind, quality := e.quality);
    if Single(e, size) {
      var buf := StdHeader(h, |e.data|) + e.data;
      assert buf[STD_HDR..] == e.data && buf[4] == Le16(|e.data|)[0] && buf[5] == Le16(|e.data|)[1];
    } else {
      SplitCrosses(cp, h, e, size);
    }
  }

  // The first fragment leaves with the header of the reply.
  lemma SplitSent(h: Bio, e: Template, size: int) returns (tx: Transfer, frame: seq<byte>)
    requires SameHeader(h, e) && 0 < size - SC_RESERVE - STD_HDR < |e.data| <= TEMPLATE_MAX && size < 0x1_0000
    ensures var q := OpenToSend(h, e.data);
            && SameHeader(q, e) && q.mp.data == e.data && q.mp.total == |e.data| && q.mp.cap.Some? && q.mp.width == W16
            && q.mp.offset == 0 && Active(q.mp)
            && TxBuild(q.mp, size - SC_RESERVE, [], 0) == Some((tx, frame))
            && tx.width == W16 && Active(tx)
            && |frame| == size - SC_RESERVE && tx.offset == 0 && 0 < tx.lastLen == |frame| - 6 < |e.data|
            && Next(q, size) == (q.(mp := TxCommit(tx)), Some(StdHeader(h, |e.data|) + frame[6..]))
  {
    hide HdrWrite, Abort;
    OpenKeeps(h);
    var q := OpenToSend(h, e.data);
    FragmentParts(q.mp, size - SC_RESERVE);
    tx, frame := TxBuild(q.mp, size - SC_RESERVE, [], 0).value.0, TxBuild(q.mp, size - SC_RESERVE, [], 0).value.1;
    assert StdHeader(q, |e.data|) == StdHeader(h, |e.data|);
  }

  // What the panel makes of it.
  lemma SplitTaken(cp: Bio, e: Template, h: Bio, chunk: seq<byte>)
    requires !cp.active && |cp.store| == TEMPLATE_MAX && SameHeader(h, e) && |chunk| < |e.data| <= TEMPLATE_MAX
    ensures var b := cp.(reader := e.reader, status := e.status, kind := e.kind, quality := e.quality);
            var w := OpenToTake(b, |e.data|);
            && SameHeader(w, e) && w.store == cp.store && Active(w.mp)
            && w.mp.offset == w.mp.lastOff == w.mp.lastLen == 0 && w.mp.total == |e.data| && w.mp.width == W16
            && w.mp.cap == Some(|w.mp.data|) && |w.mp.data| == TEMPLATE_MAX
            && TakeReply(cp, StdHeader(h, |e.data|) + chunk)
            == Conclude(w, RxConsume(w.mp, HdrWrite(W16, |e.data|, 0, |chunk|) + chunk, 0, WriteOk))
  {
    hide HdrWrite, RxConsume, Le16, FromLe16, Abort, Conclude;
    Le16RoundTrip(|e.data|);
    var buf := StdHeader(h, |e.data|) + chunk;
    assert buf[STD_HDR..] == chunk && buf[4] == Le16(|e.data|)[0] && buf[5] == Le16(|e.data|)[1];
    OpenKeeps(cp.(reader := e.reader, status := e.status, kind := e.kind, quality := e.quality));
  }

  lemma SplitCrosses(cp: Bio, h: Bio, e: Template, size: int)
    requires !cp.active && |cp.store| == TEMPLATE_MAX && SameHeader(h, e)
    requires 0 < size - SC_RESERVE - STD_HDR < |e.data| <= TEMPLATE_MAX && size < 0x1_0000
    ensures var (pd1, buf) := Next(OpenToSend(h, e.data), size);
            && buf.Some? && |buf.value| == size - SC_RESERVE
            && var (cp1, got) := TakeReply(cp, buf.value);
            got == None && Between(cp1, pd1, e)
  {
    hide HdrRead, HdrWrite, RxConsume, Fragment, Holds, OpenToSend, OpenToTake, Next, TakeReply, TxBuild, StdHeader, Abort;
    var tx, frame := SplitSent(h, e, size);
    var q := OpenToSend(h, e.data);
    var chunk := frame[6..];
    SplitTaken(cp, e, h, chunk);
    var w := OpenToTake(cp.(reader := e.reader, status := e.status, kind := e.kind, quality := e.quality), |e.data|);
    StartsInStep(q.mp, w.mp, e.data);
    FrameIs(q.mp, size - SC_RESERVE);
    RoundMoves(q.mp, w.mp, [], e.data, size - SC_RESERVE);
    ConsumeFrame(w.mp, frame, 0);
  }

  lemma FrameIs(t: Transfer, maxLen: int)
    requires TxValid(t) && t.width == W16 && t.cap.Some? && t.offset == 0 && 6 < maxLen < 6 + t.total
    ensures var r := TxBuild(t, maxLen, [], 0);
            r.Some? && r.value.1 == HdrWrite(W16, t.total, 0, |r.value.1[6..]|) + r.value.1[6..]
  {
    hide HdrWrite, TxBuild;
    FragmentParts(t, maxLen);
    var (t', frame) := TxBuild(t, maxLen, [], 0).value;
    assert |frame[6..]| == t'.lastLen;
  }

  lemma OpenKeeps(b: Bio)
    ensures var o := Open(b);
            && o.store == b.store && o.reader == b.reader && o.status == b.status && o.kind == b.kind && o.quality == b.quality
            && o.mp == Blank(o.mp.notices)
  {
  }

  lemma StartsInStep(tx: Transfer, rx: Transfer, s: seq<byte>)
    requires TxValid(tx) && tx.data == s && tx.total == |s| && tx.cap.Some? && tx.width == rx.width == W16 && tx.offset == 0
    requires rx.offset == rx.lastOff == rx.lastLen == 0 && rx.total == |s|
    requires rx.cap == Some(|rx.data|) && |s| <= |rx.data| && |s| < 0x1_0000
    ensures InStep(tx, rx, s)
  {
  }

  // ---- What is refused ----

  // A template longer than an event holds is not sent, and without one there is nothing to send but the
  // rest of one under way.
  lemma NothingToSend(b: Bio, e: Option<Template>, maxLen: int)
    requires (b.active ==> TxValid(b.mp)) && maxLen >= STD_HDR + SC_RESERVE
    requires if e.Some? then |e.value.data| > TEMPLATE_MAX else !b.active || b.mp.offset >= b.mp.total
    ensures BuildReply(b, e, maxLen) == (b, None)
  {
    hide Next;
  }

  // A first reply that announces more than an event holds, or brings more than it announces, starts
  // nothing and hands over nothing.
  lemma BadFirstReply(b: Bio, buf: seq<byte>)
    requires !b.active
    requires |buf| < STD_HDR || FromLe16(buf[4], buf[5]) > |b.store| || |buf| - STD_HDR > FromLe16(buf[4], buf[5])
    ensures var (c, got) := TakeReply(b, buf); got == None && !c.active && c.mp == b.mp && c.store == b.store
  {
  }

  // A fragment that does not fit in where the panel stands, or ends the reply early, ends the operation:
  // nothing is handed over, and the application is told it was aborted.
  lemma BadFragmentAborts(b: Bio, buf: seq<byte>)
    requires b.active && RxValid(b.mp) && Active(b.mp)
    ensures var v := RxConsume(b.mp, buf, 0, WriteOk).verdict;
            v != More && v != Complete ==>
              var (c, got) := TakeReply(b, buf); got == None && !c.active && Closed(c.mp.notices, Aborted)
    ensures |buf| < STD_HDR && b.mp.width == W16 ==> !TakeReply(b, buf).0.active
  {
    ConsumeFrame(b.mp, buf, 0);
  }

  // The staging buffer is what the engine received into, and a template handed over is its beginning.
  lemma StoreFollows(b: Bio, buf: seq<byte>)
    requires b.active ==> RxValid(b.mp) && b.store == b.mp.data
    ensures var (c, got) := TakeReply(b, buf);
            && (c.active ==> c.store == c.mp.data)
            && (b.active && got.Some? ==> got.value.data <= c.store)
  {
    hide RxConsume, HdrWrite, Open;
  }

  // An operation that ends leaves its engine as if it had never run.
  lemma AbortClears(b: Bio)
    requires b.active
    ensures !Abort(b).active && Abort(b).mp == Blank(Abort(b).mp.notices)
  {
  }

  // ---- What the application is told ----

  // An operation under way is fit for its direction, and told in order.
  ghost predicate Sound(b: Bio, takes: bool) {
    && (b.active ==> Active(b.mp) && b.started && (if takes then RxValid(b.mp) else TxValid(b.mp)))
    && Told(b.mp.notices) == Some(b.active)
  }

  lemma AbortSound(b: Bio, takes: bool)
    requires Told(b.mp.notices) == Some(b.active) && (b.active ==> Active(b.mp) && b.started)
    ensures Sound(Abort(b), takes) && !Abort(b).active
    ensures b.active ==> Closed(Abort(b).mp.notices, Aborted)
  {
    ToldNext(b.mp.notices, Done(Aborted));
  }

  lemma OpenSound(b: Bio, takes: bool, d: seq<byte>, total: nat)
    requires Sound(b, takes)
    ensures if takes then Sound(OpenToTake(b, total), true) else d != [] ==> Sound(OpenToSend(b, d), false)
  {
    hide Abort;
    AbortSound(b, takes);
    ToldNext(Abort(b).mp.notices, Start);
  }

  lemma ConcludeSound(b: Bio, c: Consumed)
    requires Sound(b, true) && b.active && RxValid(c.t) && c.t.notices == b.mp.notices && c.t.stage == b.mp.stage
    ensures Sound(Conclude(b, c).0, true)
  {
    hide Abort;
    var t := RxCommit(c.t);
    ToldNext(c.t.notices, Progress(c.t.lastOff + c.t.lastLen));
    ToldNext(t.notices, Done(Okay));
    AbortSound(b.(mp := c.t, store := c.t.data), true);
  }

  lemma TakeSound(b: Bio, buf: seq<byte>)
    requires Sound(b, true)
    ensures Sound(TakeReply(b, buf).0, true)
  {
    hide Conclude, RxConsume, Told, OpenToTake, HdrWrite;
    if b.active {
      ConsumeFrame(b.mp, buf, 0);
      ConcludeSound(b, RxConsume(b.mp, buf, 0, WriteOk));
    } else if |buf| >= STD_HDR {
      var h := b.(reader := buf[0], status := buf[1], kind := buf[2], quality := buf[3]);
      var total, chunk := FromLe16(buf[4], buf[5]), buf[STD_HDR..];
      OpenSound(h, true, [], total);
      var q := OpenToTake(h, total);
      var frame := HdrWrite(W16, total, 0, |chunk|) + chunk;
      ConsumeFrame(q.mp, frame, 0);
      ConcludeSound(q, RxConsume(q.mp, frame, 0, WriteOk));
    }
  }

  lemma NextSound(b: Bio, maxLen: int)
    requires Sound(b, false) && b.active
    ensures Sound(Next(b, maxLen).0, false)
  {
    hide HdrWrite, Abort, StdHeader, Told;
    AbortSound(b, false);
    if TxBuild(b.mp, maxLen - SC_RESERVE, [], 0).Some? {
      var t := TxBuild(b.mp, maxLen - SC_RESERVE, [], 0).value.0;
      ToldNext(b.mp.notices, Progress(t.offset + t.lastLen));
      ToldNext(b.mp.notices, Done(Okay));
    }
  }

  lemma BuildSound(b: Bio, e: Option<Template>, maxLen: int)
    requires Sound(b, false) && maxLen >= STD_HDR + SC_RESERVE
    ensures Sound(BuildReply(b, e, maxLen).0, false)
  {
    hide Next, OpenToSend, Told;
    if e.Some? {
      var t := e.value;
      var h := b.(reader := t.reader, status := t.status, kind := t.kind, quality := t.quality);
      OpenSound(h, false, t.data, 0);
      if t.data != [] {
        NextSound(OpenToSend(h, t.data), maxLen);
      }
    } else if b.active {
      NextSound(b, maxLen);
    }
  }

  // Every call either end makes on its operations; takes: the panel's.
  datatype Call = OnReply(buf: seq<byte>) | OnBuild(e: Option<Template>, maxLen: int) | OnAbort

  predicate Made(takes: bool, c: Call) {
    if takes then !c.OnBuild? else !c.OnReply? && (c.OnBuild? ==> c.maxLen >= STD_HDR + SC_RESERVE)
  }

  function NextBio(b: Bio, takes: bool, c: Call): Bio
    requires Sound(b, takes) && Made(takes, c)
  {
    match c
    case OnReply(buf) => TakeReply(b, buf).0
    case OnBuild(e, maxLen) => BuildReply(b, e, maxLen).0
    case OnAbort => Abort(b)
  }

  // Whatever either end does with multi-part reads and whatever the other sends it, what its
  // application is told of them is START PROGRESS* DONE for each in turn, superseded and aborted ones
  // included, and no operation is left open when none runs.
  lemma {:induction false} NoticesInOrder(takes: bool, bs: seq<Bio>, cs: seq<Call>, i: nat)
    requires |bs| == |cs| + 1 && i < |bs|
    requires !bs[0].active && bs[0].mp.notices == []
    requires forall k :: 0 <= k < |cs| ==> Made(takes, cs[k])
    requires forall k :: 0 <= k < |cs| ==> Sound(bs[k], takes) ==> bs[k + 1] == NextBio(bs[k], takes, cs[k])
    ensures Sound(bs[i], takes) && Told(bs[i].mp.notices) == Some(bs[i].active)
  {
    hide TakeReply, BuildReply, Abort;
    if i > 0 {
      NoticesInOrder(takes, bs, cs, i - 1);
      var b := bs[i - 1];
      match cs[i - 1]
      case OnReply(buf) => TakeSound(b, buf);
      case OnBuild(e, maxLen) => BuildSound(b, e, maxLen);
      case OnAbort => AbortSound(b, takes);
    }
  }
}
