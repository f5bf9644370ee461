// The multi-part engine on a bound buffer in the form the source has it: one record updated in
// place, fragments written into and taken out of byte buffers.
module MultipartInPlace {
  import opened Bytes
  import opened Multipart
  import opened SecureChannelInPlace

  lemma BackToFront(s: seq<byte>, hdr: seq<byte>, pfx: seq<byte>, chunk: seq<byte>)
    requires |hdr| + |pfx| + |chunk| <= |s|
    ensures Over(Over(Over(s, |hdr| + |pfx|, chunk), |hdr|, pfx), 0, hdr)
         == hdr + pfx + chunk + s[|hdr| + |pfx| + |chunk|..]
  {
  }

  class Engine {
    var stage: Stage
    var width: Width
    var total: nat
    var offset: nat
    var lastLen: nat
    var lastOff: nat
    const buf: array<byte>
    var started: bool
    var notices: seq<Notice>

    ghost function State(): Transfer
      reads this, buf
    {
      Transfer(stage, width, total, offset, lastLen, lastOff, Some(buf.Length), buf[..], started, notices)
    }

    // osdp_mp_reset and osdp_mp_bind_buffer
    constructor (buffer: array<byte>)
      ensures buf == buffer
      ensures State() == Transfer(Unused, W16, 0, 0, 0, 0, Some(buffer.Length), buffer[..], false, [])
    {
      buf, stage, width, total, offset, lastLen, lastOff := buffer, Unused, W16, 0, 0, 0, 0;
      started, notices := false, [];
    }

    method TxInit(n: nat, w: Width) returns (ok: bool)
      modifies this
      ensures match Multipart.TxInit(old(State()), n, w)
              case None => !ok && State() == old(State())
              case Some(t) => ok && State() == t
    {
      if n == 0 {
        return false;
      }
      width, total, offset, lastLen := w, n, 0, 0;
      started := false;
      stage := InProgress;
      return true;
    }

    method RxInit(w: Width, n: nat)
      modifies this
      ensures State() == Multipart.RxInit(old(State()), w, n)
    {
      width, total, offset, lastLen, lastOff := w, n, 0, 0, 0;
      started := false;
      stage := InProgress;
    }

    // Payload first, then the prefix, then the header, each to its place.
    static method Compose(out: array<byte>, hdr: seq<byte>, pfx: seq<byte>, chunk: seq<byte>) returns (len: nat)
      requires |hdr| + |pfx| + |chunk| <= out.Length
      modifies out
      ensures len == |hdr| + |pfx| + |chunk|
      ensures out[..] == hdr + pfx + chunk + old(out[len..])
    {
      hide Over;
      BackToFront(out[..], hdr, pfx, chunk);
      WriteAt(out, |hdr| + |pfx|, chunk);
      WriteAt(out, |hdr|, pfx);
      WriteAt(out, 0, hdr);
      len := |hdr| + |pfx| + |chunk|;
    }

    // osdp_mp_tx_build_ex: -1 when the packet can carry nothing, else the length written.
    method TxBuild(out: array<byte>, maxLen: int, pfx: seq<byte>) returns (len: int)
      requires TxValid(State()) && out != buf && maxLen <= out.Length
      modifies `lastLen, `stage, out
      ensures match Multipart.TxBuild(old(State()), maxLen, pfx, 0)
              case None => len == -1 && State() == old(State()) && out[..] == old(out[..])
              case Some((t, frame)) =>
                State() == t && len == |frame| <= out.Length && out[..] == frame + old(out[len..])
    {
      hide HdrWrite;
      var skip := if offset == 0 then pfx else [];
      var avail := maxLen - HdrSize(width) - |skip|;
      var remaining := total - offset;
      if avail < 0 || (avail == 0 && remaining > 0) {
        return -1;
      }
      if avail > remaining {
        avail := remaining;
      }
      var n: nat := Min(avail, buf.Length - offset);
      lastLen := n;
      if n == 0 {
        stage := Parked;
        len := Compose(out, HdrWrite(width, total, offset, 0), [], []);
        assert out[..] == HdrWrite(width, total, offset, 0) + old(out[len..]);
        return;
      }
      stage := InProgress;
      len := Compose(out, HdrWrite(width, total, offset, n), skip, buf[offset..offset + n]);
    }

    method TxCommit()
      requires TxValid(State())
      modifies this
      ensures State() == Multipart.TxCommit(old(State()))
    {
      var advanced := lastLen > 0;
      offset := offset + lastLen;
      lastLen := 0;
      if advanced && offset < total {
        notices := notices + [Progress(offset)];
      }
    }

    // The checks after the header, and the write.
    method Take(h: Hdr, chunk: seq<byte>) returns (verdict: Verdict)
      requires RxValid(State()) && |chunk| == h.dlen
      modifies `total, `lastOff, `lastLen, buf
      ensures (verdict, State()) == RxTake(old(State()), h, chunk, WriteOk)
    {
      var current := total;
      if offset == 0 && lastLen == 0 && total == 0 {
        current := h.total;
      } else if h.total != total {
        return Bad;
      }
      if current > buf.Length {
        return Bad;
      }
      if h.off >= current && h.dlen == 0 {
        total := current;
        return EarlyTerm;
      }
      if h.off > offset || h.dlen > current - h.off {
        return Bad;
      }
      if h.dlen > 0 {
        WriteAt(buf, h.off, chunk);
      }
      assert buf[..] == Splice(old(buf[..]), h.off, chunk);
      total, lastOff, lastLen := current, h.off, h.dlen;
      return if h.dlen >= total - h.off then Complete else More;
    }

    // osdp_mp_rx_consume_ex: pfx receives the prefix of a first fragment.
    method RxConsume(frame: seq<byte>, pfx: array<byte>) returns (verdict: Verdict)
      requires RxValid(State()) && pfx != buf
      modifies `total, `lastOff, `lastLen, buf, pfx
      ensures var c := Multipart.RxConsume(old(State()), frame, pfx.Length, WriteOk);
              && verdict == c.verdict && State() == c.t
              && pfx[..] == (if c.pfx.Some? then c.pfx.value else old(pfx[..]))
    {
      hide HdrRead, RxTake, RxValid;
      var h := HdrRead(width, frame);
      if h == None {
        return Bad;
      }
      var skip := if h.value.off == 0 then pfx.Length else 0;
      var body := HdrSize(width) + skip;
      if |frame| - body < h.value.dlen {
        return Bad;
      }
      if skip > 0 {
        WriteAt(pfx, 0, frame[HdrSize(width)..body]);
      }
      assert State() == old(State());
      verdict := Take(h.value, frame[body..body + h.value.dlen]);
    }

    method RxCommit()
      requires RxValid(State())
      modifies this
      ensures State() == Multipart.RxCommit(old(State()))
    {
      var end := lastOff + lastLen;
      var advanced := lastLen > 0 && end > offset;
      if end > offset {
        offset := end;
      }
      lastLen := 0;
      if advanced && offset < total {
        notices := notices + [Progress(offset)];
      }
    }

    method EmitStart()
      modifies this
      ensures State() == Multipart.EmitStart(old(State()))
    {
      if !started {
        started := true;
        notices := notices + [Start];
      }
    }

    method Finish(outcome: Outcome)
      modifies this
      ensures State() == Multipart.Finish(old(State()), outcome)
    {
      if stage == Finished || stage == Unused {
        return;
      }
      stage := Finished;
      notices := notices + [Done(outcome)];
    }
  }
}
