// The multi-part engine of src/osdp_multipart.c: a payload cut into fragments with a
// total/offset/length header (section 5.10 of SIA OSDP v2.2) and put together again.
module Multipart {
  import opened Bytes

  datatype Width = W16 | W32

  datatype Stage = Unused | InProgress | Parked | Finished

  datatype Notice = Start | Progress(at: nat) | Done(outcome: Outcome)

  // enum osdp_mp_outcome; the middle ones and Rebooting are a file transfer's only.
  datatype Outcome = Okay | Rebooting | Aborted | Unrecognized | Invalid

  const SC_RESERVE := 16    // OSDP_MP_SC_RESERVE

  // data is the bound buffer, or the application's file behind a pair of callbacks (cap == None).
  datatype Transfer = Transfer(
    stage: Stage,
    width: Width,
    total: nat,
    offset: nat,          // committed
    lastLen: nat,         // moved by the last frame, not yet committed
    lastOff: nat,
    cap: Option<nat>,     // buf_len of a bound buffer
    data: seq<byte>,
    started: bool,        // start_emitted
    notices: seq<Notice>)

  // ---- Header ----

  function Limit(w: Width): nat { if w == W16 then 0x1_0000 else 0x1_0000_0000 }

  function HdrSize(w: Width): nat { if w == W16 then 6 else 10 }

  // mp_write_wide: W16 fields are cut to 16 bits.
  function WriteWide(w: Width, v: nat): seq<byte> {
    if w == W16 then Le16(v % Limit(w)) else Le32(v % Limit(w))
  }

  function HdrWrite(w: Width, total: nat, offset: nat, dlen: nat): (h: seq<byte>)
    ensures |h| == HdrSize(w)
  {
    WriteWide(w, total) + WriteWide(w, offset) + Le16(dlen % 0x1_0000)
  }

  datatype Hdr = Hdr(total: nat, off: nat, dlen: nat)

  function HdrRead(w: Width, s: seq<byte>): Option<Hdr> {
    if |s| < HdrSize(w) then None
    else if w == W16 then Some(Hdr(FromLe16(s[0], s[1]), FromLe16(s[2], s[3]), FromLe16(s[4], s[5])))
    else Some(Hdr(FromLe32(s[..4]), FromLe32(s[4..8]), FromLe16(s[8], s[9])))
  }

  // A header says what was written exactly when every field fits its width.
  lemma HdrRoundTrip(w: Width, total: nat, offset: nat, dlen: nat, rest: seq<byte>)
    ensures HdrRead(w, HdrWrite(w, total, offset, dlen) + rest)
         == Some(Hdr(total % Limit(w), offset % Limit(w), dlen % 0x1_0000))
    ensures HdrRead(w, HdrWrite(w, total, offset, dlen) + rest) == Some(Hdr(total, offset, dlen))
       <==> total < Limit(w) && offset < Limit(w) && dlen < 0x1_0000
  {
    hide Le16, FromLe16, Le32, FromLe32;
    var t, o, d := total % Limit(w), offset % Limit(w), dlen % 0x1_0000;
    var frame := HdrWrite(w, total, offset, dlen) + rest;
    Le16RoundTrip(d);
    if w == W16 {
      Le16RoundTrip(t);
      Le16RoundTrip(o);
      assert frame[0] == Le16(t)[0] && frame[1] == Le16(t)[1] && frame[2] == Le16(o)[0] && frame[3] == Le16(o)[1];
      assert frame[4] == Le16(d)[0] && frame[5] == Le16(d)[1];
    } else {
      Le32RoundTrip(t);
      Le32RoundTrip(o);
      assert frame[..4] == Le32(t) && frame[4..8] == Le32(o);
      assert frame[8] == Le16(d)[0] && frame[9] == Le16(d)[1];
    }
  }

  // ---- Sender ----

  predicate TxValid(t: Transfer) {
    && 0 < t.total <= |t.data| && t.offset + t.lastLen <= t.total
    && (t.cap.Some? ==> t.cap.value == |t.data|)
  }

  function Min(a: int, b: int): int { if a < b then a else b }

  // osdp_mp_reset
  function Blank(notices: seq<Notice>): Transfer {
    Transfer(Unused, W16, 0, 0, 0, 0, None, [], false, notices)
  }

  // osdp_mp_is_active
  predicate Active(t: Transfer) { t.stage == InProgress || t.stage == Parked }

  // osdp_mp_tx_init on a bound buffer or file.
  function TxInit(t: Transfer, total: nat, w: Width): Option<Transfer> {
    if total == 0 then None
    else Some(t.(width := w, total := total, offset := 0, lastLen := 0, started := false, stage := InProgress))
  }

  // How much the source gives: all that is asked for from a buffer; from a file whatever its
  // callback chooses (offered, negative for an error) of what was asked for and is there.
  function ReadCount(t: Transfer, size: nat, offered: int): (n: int)
    requires TxValid(t)
    ensures n <= size && t.offset + n <= |t.data|
  {
    var most := Min(size, |t.data| - t.offset);
    if t.cap.Some? then most else Min(offered, most)
  }

  // osdp_mp_tx_build_ex
  function TxBuild(t: Transfer, maxLen: int, pfx: seq<byte>, offered: int): (r: Option<(Transfer, seq<byte>)>)
    requires TxValid(t)
    ensures r.Some? ==> |r.value.1| <= maxLen && TxValid(r.value.0)
  {
    var skip := if t.offset == 0 then pfx else [];
    var avail := maxLen - HdrSize(t.width) - |skip|;
    var remaining := t.total - t.offset;
    if avail < 0 || (avail == 0 && remaining > 0) then None
    else
      var n := ReadCount(t, Min(avail, remaining), offered);
      if n < 0 then None
      else if n == 0 then
        Some((t.(lastLen := 0, stage := Parked), HdrWrite(t.width, t.total, t.offset, 0)))
      else
        Some((t.(lastLen := n, stage := InProgress),
              HdrWrite(t.width, t.total, t.offset, n) + skip + t.data[t.offset..t.offset + n]))
  }

  // osdp_mp_tx_commit
  function TxCommit(t: Transfer): (r: Transfer)
    requires TxValid(t)
    ensures TxValid(r)
  {
    var end := t.offset + t.lastLen;
    t.(offset := end, lastLen := 0,
       notices := if t.lastLen > 0 && end < t.total then t.notices + [Progress(end)] else t.notices)
  }

  // ---- Receiver ----

  datatype Verdict = More | Complete | EarlyTerm | Bad | Retry

  // What a write callback answers.
  datatype WriteRc = WriteOk | WriteRetry | WriteAbort

  // A receiver never holds more than the declared total or the buffer, however odd the frames.
  predicate RxValid(t: Transfer) {
    && t.lastOff <= t.offset <= t.total && t.offset <= |t.data|
    && t.lastOff + t.lastLen <= t.total && t.lastOff + t.lastLen <= |t.data|
    && (t.cap.Some? ==> t.cap.value == |t.data|)
  }

  // osdp_mp_rx_init
  function RxInit(t: Transfer, w: Width, total: nat): Transfer {
    t.(width := w, total := total, offset := 0, lastLen := 0, lastOff := 0, started := false, stage := InProgress)
  }

  function Splice(data: seq<byte>, off: nat, chunk: seq<byte>): seq<byte>
    requires off <= |data|
  {
    data[..off] + chunk + (if off + |chunk| <= |data| then data[off + |chunk|..] else [])
  }

  predicate Unfixed(t: Transfer) { t.offset == 0 && t.lastLen == 0 && t.total == 0 }

  datatype Consumed = Consumed(verdict: Verdict, t: Transfer, pfx: Option<seq<byte>>)

  // The body of osdp_mp_rx_consume_ex once the header is read and the chunk known to be there.
  function RxTake(t: Transfer, h: Hdr, chunk: seq<byte>, ws: WriteRc): (r: (Verdict, Transfer))
    requires RxValid(t) && |chunk| == h.dlen
    ensures RxValid(r.1)
  {
    var total := if Unfixed(t) then h.total else t.total;
    if h.total != total then (Bad, t)
    else if t.cap.Some? && total > t.cap.value then (Bad, t)
    else if h.off >= total && h.dlen == 0 then (EarlyTerm, t.(total := total))
    else if h.off > t.offset || h.dlen > total - h.off then (Bad, t)
    else if h.dlen > 0 && t.cap == None && ws == WriteRetry then (Retry, t)
    else if h.dlen > 0 && t.cap == None && ws == WriteAbort then (Bad, t)
    else
      (if h.dlen >= total - h.off then Complete else More,
       t.(total := total, lastOff := h.off, lastLen := h.dlen, data := Splice(t.data, h.off, chunk)))
  }

  // osdp_mp_rx_consume_ex
  function RxConsume(t: Transfer, frame: seq<byte>, pfxLen: nat, ws: WriteRc): (r: Consumed)
    requires RxValid(t)
    ensures RxValid(r.t)
  {
    match HdrRead(t.width, frame)
    case None => Consumed(Bad, t, None)
    case Some(h) =>
      var skip := if h.off == 0 then pfxLen else 0;
      var body := HdrSize(t.width) + skip;
      if |frame| - body < h.dlen then Consumed(Bad, t, None)
      else
        var (verdict, t') := RxTake(t, h, frame[body..body + h.dlen], ws);
        Consumed(verdict, t', if skip > 0 then Some(frame[HdrSize(t.width)..body]) else None)
  }

  // osdp_mp_rx_commit
  function RxCommit(t: Transfer): (r: Transfer)
    requires RxValid(t)
    ensures RxValid(r)
  {
    var end := t.lastOff + t.lastLen;
    t.(offset := if end > t.offset then end else t.offset, lastLen := 0,
       notices := if t.lastLen > 0 && end > t.offset && end < t.total then t.notices + [Progress(end)] else t.notices)
  }

  // What a receiver keeps through one frame, whatever it says.
  lemma ConsumeFrame(t: Transfer, frame: seq<byte>, pfxLen: nat)
    requires RxValid(t)
    ensures var c := RxConsume(t, frame, pfxLen, WriteOk);
            && c.t.stage == t.stage && c.t.cap == t.cap && c.t.started == t.started && c.t.notices == t.notices
            && c.t.width == t.width && (t.cap.Some? ==> |c.t.data| == |t.data|)
  {
    hide HdrRead;
  }

  // ---- Notices ----

  // osdp_mp_emit_start
  function EmitStart(t: Transfer): Transfer {
    if t.started then t else t.(started := true, notices := t.notices + [Start])
  }

  // osdp_mp_finish
  function Finish(t: Transfer, outcome: Outcome): Transfer {
    if t.stage == Finished || t.stage == Unused then t
    else t.(stage := Finished, notices := t.notices + [Done(outcome)])
  }

  // ---- What is refused, and what is told ----

  // A frame is built exactly if there is room for header, prefix and, short of the end, one byte, and the
  // source does not fail.
  lemma BuildsExactly(t: Transfer, maxLen: int, pfx: seq<byte>, offered: int)
    requires TxValid(t)
    ensures var least := HdrSize(t.width) + (if t.offset == 0 then |pfx| else 0) + (if t.offset < t.total then 1 else 0);
            TxBuild(t, maxLen, pfx, offered).Some? <==> maxLen >= least && (t.cap.Some? || offered >= 0)
  {
    hide HdrWrite;
  }

  // A fragment of another payload, or of one that does not fit the buffer, is refused whatever else it says,
  // and leaves the receiver as it was; so is one that leaves a gap or goes past the end.
  lemma RefusesForeign(t: Transfer, h: Hdr, chunk: seq<byte>, ws: WriteRc)
    requires RxValid(t) && |chunk| == h.dlen
    requires || (!Unfixed(t) && h.total != t.total)
             || (t.cap.Some? && h.total > t.cap.value)
             || (h.off > t.offset && (h.off < h.total || h.dlen > 0))
             || h.dlen > h.total - h.off > 0
    ensures RxTake(t, h, chunk, ws) == (Bad, t)
  {
  }

  // An empty fragment at the end or past it ends the reply early and moves nothing.
  lemma EndsEarly(t: Transfer, h: Hdr, ws: WriteRc)
    requires RxValid(t) && h.dlen == 0 && h.off >= h.total
    requires (Unfixed(t) || h.total == t.total) && (t.cap.Some? ==> h.total <= t.cap.value)
    ensures RxTake(t, h, [], ws) == (EarlyTerm, t.(total := h.total))
  {
  }

  // A commit is told as progress exactly if it moved the receiver, short of the end.
  lemma CommitTold(t: Transfer)
    requires RxValid(t)
    ensures var r := RxCommit(t);
            r.notices == if t.offset < r.offset < t.total then t.notices + [Progress(r.offset)] else t.notices
  {
  }

  // The end is told once, of an engine that is armed, and never of one that is not.
  lemma EndTold(t: Transfer, o: Outcome, again: Outcome)
    ensures Finish(t, o).notices == if Active(t) then t.notices + [Done(o)] else t.notices
    ensures !Active(Finish(t, o)) && Finish(Finish(t, o), again) == Finish(t, o)
  {
  }

  // ---- One payload, any channel ----

  // A fragment of s: what a sender of s may put on the wire.
  ghost predicate Fragment(s: seq<byte>, w: Width, pfx: seq<byte>, off: nat, n: nat, frame: seq<byte>) {
    && off + n <= |s| && n < 0x1_0000
    && frame == HdrWrite(w, |s|, off, n) + (if off == 0 && n > 0 then pfx else []) + s[off..off + n]
  }

  lemma BuildsFragments(t: Transfer, maxLen: int, pfx: seq<byte>, offered: int)
    requires TxValid(t) && maxLen < 0x1_0000 && t.total == |t.data|
    ensures match TxBuild(t, maxLen, pfx, offered)
            case None => true
            case Some((t', frame)) => Fragment(t.data, t.width, pfx, t.offset, t'.lastLen, frame)
  {
  }

  // What the receiver has of s: everything it committed to, and everything a commit would add.
  ghost predicate Holds(t: Transfer, s: seq<byte>) {
    && RxValid(t) && |s| < Limit(t.width) && (t.cap.Some? ==> |s| <= t.cap.value)
    && (t.total == |s| || Unfixed(t))
    && t.data[..t.offset] == s[..t.offset]
    && t.data[t.lastOff..t.lastOff + t.lastLen] == s[t.lastOff..t.lastOff + t.lastLen]
  }

  // One fragment at the receiver. Nothing is lost by it, and it is refused exactly when it leaves a
  // gap, carries no prefix where one is due, or the application's file refuses it.
  lemma TakesFragment(t: Transfer, s: seq<byte>, pfx: seq<byte>, off: nat, n: nat, frame: seq<byte>, ws: WriteRc)
    requires Holds(t, s) && s != [] && Fragment(s, t.width, pfx, off, n, frame)
    ensures var c := RxConsume(t, frame, |pfx|, ws);
            && Holds(c.t, s) && c.t.offset == t.offset && c.t.notices == t.notices && c.t.stage == t.stage
            && (c.verdict == Complete <==> off <= t.offset && off + n == |s| && n > 0 && (t.cap == None ==> ws == WriteOk))
            && (c.verdict == EarlyTerm <==> off == |s|)
            && (c.verdict == Bad <==> (off > t.offset && off < |s|) || (off == 0 && n == 0 && pfx != [])
                                      || (off <= t.offset && n > 0 && t.cap == None && ws == WriteAbort))
            && (c.verdict == Retry <==> off <= t.offset && n > 0 && t.cap == None && ws == WriteRetry)
            && (c.verdict == More || c.verdict == Complete ==>
                  c.t.lastOff == off && c.t.lastLen == n && c.t.total == |s|)
            && (c.verdict == Complete || (c.verdict == More && n > 0) ==> off == 0 && pfx != [] ==> c.pfx == Some(pfx))
  {
    hide RxConsume, RxTake, Holds, RxValid, Fragment;
    ReadsFragment(t, s, pfx, off, n, frame, ws);
    TakesChunk(t, s, off, n, ws);
  }

  lemma ReadsFragment(t: Transfer, s: seq<byte>, pfx: seq<byte>, off: nat, n: nat, frame: seq<byte>, ws: WriteRc)
    requires Holds(t, s) && s != [] && Fragment(s, t.width, pfx, off, n, frame)
    ensures off + n <= |s|
    ensures RxConsume(t, frame, |pfx|, ws)
         == if off == 0 && n == 0 && pfx != [] then Consumed(Bad, t, None)
            else
              var (v, t') := RxTake(t, Hdr(|s|, off, n), s[off..off + n], ws);
              Consumed(v, t', if off == 0 && pfx != [] then Some(pfx) else None)
  {
    hide HdrRead, HdrWrite, RxTake, Holds, RxValid;
    var skip := if off == 0 && n > 0 then pfx else [];
    FragmentFits(t, s, off, n);
    HdrRoundTrip(t.width, |s|, off, n, skip + s[off..off + n]);
    PartsOf(HdrWrite(t.width, |s|, off, n), skip, s[off..off + n], frame);
  }

  lemma PartsOf(hdr: seq<byte>, skip: seq<byte>, chunk: seq<byte>, frame: seq<byte>)
    requires frame == hdr + skip + chunk
    ensures frame == hdr + (skip + chunk) && |frame| == |hdr| + |skip| + |chunk|
    ensures frame[|hdr|..|hdr| + |skip|] == skip && frame[|hdr| + |skip|..|hdr| + |skip| + |chunk|] == chunk
  {
  }

  lemma FragmentFits(t: Transfer, s: seq<byte>, off: nat, n: nat)
    requires Holds(t, s) && off + n <= |s|
    ensures RxValid(t) && |s| < Limit(t.width) && off < Limit(t.width)
  {
  }

  lemma TakesChunk(t: Transfer, s: seq<byte>, off: nat, n: nat, ws: WriteRc)
    requires Holds(t, s) && s != [] && off + n <= |s|
    ensures var (v, t') := RxTake(t, Hdr(|s|, off, n), s[off..off + n], ws);
            && Holds(t', s) && t'.offset == t.offset && t'.notices == t.notices && t'.stage == t.stage
            && (v == Complete <==> off <= t.offset && off + n == |s| && n > 0 && (t.cap == None ==> ws == WriteOk))
            && (v == EarlyTerm <==> off == |s|)
            && (v == Bad <==> (off > t.offset && off < |s|) || (off <= t.offset && n > 0 && t.cap == None && ws == WriteAbort))
            && (v == Retry <==> off <= t.offset && n > 0 && t.cap == None && ws == WriteRetry)
            && (v == More || v == Complete ==> t'.lastOff == off && t'.lastLen == n && t'.total == |s|)
  {
    hide Splice;
    if off <= t.offset {
      SpliceHolds(t, s, off, n);
    }
  }

  lemma SpliceHolds(t: Transfer, s: seq<byte>, off: nat, n: nat)
    requires Holds(t, s) && off <= t.offset && off + n <= |s|
    ensures var d := Splice(t.data, off, s[off..off + n]);
            && |d| >= |t.data| && |d| >= off + n && (off + n <= |t.data| ==> |d| == |t.data|)
            && d[..t.offset] == s[..t.offset] && d[off..off + n] == s[off..off + n]
  {
    var d := Splice(t.data, off, s[off..off + n]);
    forall k | 0 <= k < t.offset ensures d[k] == s[k] {
      if k < off || k >= off + n {
        assert d[k] == t.data[k] == t.data[..t.offset][k];
      } else {
        assert d[k] == s[off..off + n][k - off];
      }
    }
  }

  lemma CommitHolds(t: Transfer, s: seq<byte>)
    requires Holds(t, s)
    ensures Holds(RxCommit(t), s)
  {
    var end := t.lastOff + t.lastLen;
    if end > t.offset {
      assert t.data[..end] == t.data[..t.offset][..t.lastOff] + t.data[t.lastOff..end];
      assert s[..end] == s[..t.offset][..t.lastOff] + s[t.lastOff..end];
    }
  }
}
