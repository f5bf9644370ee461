// The framer as it runs: bytes popped off the ring into packet_buf, shifted down in place when a
// header turns out to be none.
module FramerInPlace {
  import opened Bytes
  import opened Packet
  import opened Framer
  import opened RingBuffer

  class Receiver {
    const role: Role
    const ring: Ring
    const buf: array<byte>
    var bufLen: nat      // packet_buf_len
    var len: nat         // packet_len
    var mark: bool

    ghost predicate Sound()
      reads this, ring, ring.buffer, buf
    {
      && ring.Valid() && ring.buffer.Length == RING_SIZE && buf.Length == PACKET_BUF_SIZE && buf != ring.buffer
      && bufLen <= buf.Length
    }

    ghost function Value(): Rx
      requires Sound()
      reads this, ring, ring.buffer, buf
    {
      Rx(ring.Contents(), buf[..bufLen], len, mark)
    }

    constructor (r: Role)
      ensures Sound() && role == r && Value().ring == Value().buf == [] && len == 0 && !mark
      ensures fresh(ring) && fresh(ring.buffer) && fresh(buf)
    {
      role, bufLen, len, mark := r, 0, 0, false;
      buf := new byte[PACKET_BUF_SIZE](_ => 0);
      ring := new Ring(RING_SIZE);
    }

    // osdp_channel_receive, of what the channel has.
    method Receive(chunk: seq<byte>) returns (lost: bool)
      requires Sound()
      modifies ring, ring.buffer
      ensures Sound() && Value() == Framer.Receive(old(Value()), chunk)
      ensures lost <==> |old(Value()).ring| + |chunk| >= RING_SIZE
    {
      var n := ring.PushBuf(chunk);
      lost := n != |chunk|;
    }

    // The scan loop of phy_check_header.
    method FindStart()
      requires Sound() && bufLen == 0
      modifies `bufLen, buf, ring`tail
      ensures Sound() && Value() == Scan(old(Value()), 0)
    {
      hide Ring.Contents;
      var prev: byte := 0;
      assert buf[..0] == [];
      while bufLen == 0
        invariant Sound() && bufLen <= 2 && len == old(len) && mark == old(mark)
        invariant bufLen == 0 ==> Scan(Value(), prev) == Scan(old(Value()), 0)
        invariant bufLen != 0 ==> Value() == Scan(old(Value()), 0)
        decreases |ring.Contents()|, if bufLen == 0 then 1 else 0
      {
        assert buf[..0] == [];
        var b := ring.Pop();
        if b == None {
          return;
        }
        if b.value == SOM {
          if prev == MARK {
            buf[0] := MARK;
            buf[1] := SOM;
            bufLen := 2;
          } else {
            buf[0] := SOM;
            bufLen := 1;
          }
          break;
        }
        prev := b.value;
      }
    }

    // First loop of phy_rescan_packet_buf: on to the next SOM.
    method SeekSom(start: nat) returns (i: nat)
      requires Sound() && start <= bufLen
      ensures i == NextSom(buf[..bufLen], start)
    {
      i := start;
      while i < bufLen && buf[i] != SOM
        invariant start <= i <= bufLen
        invariant NextSom(buf[..bufLen], i) == NextSom(buf[..bufLen], start)
      {
        i := i + 1;
      }
    }

    // Second loop: the bytes from i on, moved down to j.
    method ShiftDown(from: nat, to: nat)
      requires Sound() && to <= from <= bufLen
      modifies buf, `bufLen
      ensures Sound() && bufLen == to + old(bufLen) - from
      ensures buf[..bufLen] == old(buf[..to]) + old(buf[from..bufLen])
    {
      var i, j := from, to;
      while i < bufLen
        invariant bufLen == old(bufLen) && from <= i <= bufLen && j - to == i - from
        invariant forall k :: 0 <= k < to || i <= k < bufLen ==> buf[k] == old(buf[k])
        invariant forall k :: to <= k < j ==> buf[k] == old(buf[k - to + from])
      {
        buf[j] := buf[i];
        i, j := i + 1, j + 1;
      }
      bufLen := j;
    }

    // The bytes from i on, behind a mark if there was one before them.
    method KeepFrom(i: nat)
      requires Sound() && 0 < i < bufLen
      modifies `bufLen, `mark, buf
      ensures Sound() && (mark <==> old(buf[i - 1]) == MARK)
      ensures buf[..bufLen] == (if mark then [MARK] else []) + old(buf[i..bufLen])
    {
      hide Ring.Contents;
      mark := buf[i - 1] == MARK;
      if mark {
        buf[0] := MARK;
        ShiftDown(i, 1);
      } else {
        ShiftDown(i, 0);
      }
    }

    // phy_rescan_packet_buf
    method RescanBuf() returns (found: bool)
      requires Sound() && bufLen > MarkLen(mark)
      modifies `bufLen, `mark, buf
      ensures Sound() && Value() == Rescan(old(Value()))
      ensures found <==> Value().buf != []
    {
      hide Ring.Contents, NextSom, Rescan;
      ghost var f := Value();
      var i := SeekSom(MarkLen(mark) + 1);
      RescanCases(f);
      if i == bufLen {
        bufLen := 0;
        assert buf[..0] == [];
        return false;
      }
      assert old(buf[i..bufLen]) == f.buf[i..];
      KeepFrom(i);
      assert [] + f.buf[i..] == f.buf[i..];
      found := true;
    }

    // osdp_rb_pop_buf behind what is buffered.
    method Fetch(n: nat)
      requires Sound() && bufLen + n <= buf.Length
      modifies `bufLen, buf, ring`tail
      ensures Sound() && Value() == TopUp(old(Value()), n)
    {
      hide Ring.Contents;
      ghost var was := Value();
      var k := ring.PopBuf(buf, bufLen, n);
      assert buf[..bufLen + k] == was.buf + was.ring[..k];
      bufLen := bufLen + k;
    }

    // A start of message in the buffer, if there is one to be found.
    method StartBuffer()
      requires Sound() && Framed(Value()) && len == 0
      modifies `bufLen, buf, ring`tail
      ensures Sound() && len == 0 && Value() == if old(bufLen) == 0 then Scan(old(Value()), 0) else old(Value())
      ensures bufLen != 0 ==> Started(Value().buf)
    {
      hide Scan, Ring.Contents;
      if bufLen == 0 {
        ScanFacts(Value(), 0);
        FindStart();
      }
    }

    // As much header behind it as there is.
    method FillHeader()
      requires Sound() && (bufLen != 0 ==> Started(Value().buf))
      modifies `bufLen, buf, ring`tail
      ensures Sound()
      ensures var s := old(Value());
              Value() == if s.buf != [] && |s.buf| < Need(s.buf) then TopUp(s, Need(s.buf) - |s.buf|) else s
      ensures old(bufLen) != 0 ==> bufLen != 0
    {
      hide TopUp, Ring.Contents;
      if bufLen > 0 {
        ghost var s := Value();
        var need := HDR + (if buf[0] == MARK then 1 else 0);
        if bufLen < need {
          Fetch(need - bufLen);
          TopUpStarted(s, need - |s.buf|);
        }
      }
    }

    // The first half of phy_check_header.
    method GatherHeader()
      requires Sound() && Framed(Value()) && len == 0
      modifies `bufLen, `mark, buf, ring`tail
      ensures Sound() && Value() == Gather(old(Value()))
    {
      hide Scan, TopUp, Ring.Contents, Started, Need;
      StartBuffer();
      FillHeader();
      if bufLen >= HDR {
        mark := buf[0] == MARK;
      }
    }

    // phy_check_header
    method ReadHeader() returns (h: Parsed)
      requires Sound() && Framed(Value()) && len == 0
      modifies `bufLen, `mark, buf, ring`tail
      ensures Sound() && (h, Value()) == CheckHeader(role, old(Value()))
    {
      hide Gather, ValidateHeader, Rescan, Ring.Contents;
      GatherFacts(Value());
      GatherHeader();
      if bufLen == 0 {
        return NoStart;
      }
      match ValidateHeader(role, buf[..bufLen], PACKET_BUF_SIZE)
      case HdrErr(PktFmt) =>
        NotShort(role, Value());
        var _ := RescanBuf();
        h := Partial;
      case HdrErr(PktSkip) => h := Foreign;
      case HdrErr(_) => h := Partial;
      case Frame(n, _) => h := Accepted(n);
    }

    // osdp_phy_check_packet up to the complete frame.
    method CollectFrame() returns (o: Outcome)
      requires Sound() && Framed(Value())
      modifies `bufLen, `len, `mark, buf, ring`tail
      ensures Sound() && Framed(Value()) && (o, Value()) == Collect(role, old(Value())) && o != Overlong
    {
      hide CheckHeader, TopUp, Ring.Contents;
      ghost var f := Value();
      CollectKeepsFramed(role, f);
      if len == 0 {
        HeaderKeepsFramed(role, f);
        var h := ReadHeader();
        match h {
          case NoStart => return NoData;
          case Partial => return Waiting;
          case Foreign => return Skipped;
          case Accepted(n) => len := n;
        }
      }
      if bufLen > len {
        return Overlong;
      }
      Fetch(len - bufLen);
      o := if bufLen == len then Complete else Waiting;
    }
  }

  lemma NotShort(role: Role, f: Rx)
    requires ValidateHeader(role, f.buf, PACKET_BUF_SIZE) == HdrErr(PktFmt)
    ensures |f.buf| >= HDR > MarkLen(f.mark)
  {
  }

  lemma RescanCases(f: Rx)
    requires |f.buf| > MarkLen(f.mark)
    ensures var i := NextSom(f.buf, MarkLen(f.mark) + 1);
            && 0 < i <= |f.buf|
            && (i == |f.buf| ==> Rescan(f) == f.(buf := []))
            && (i < |f.buf| && f.buf[i - 1] == MARK ==> Rescan(f) == f.(buf := [MARK] + f.buf[i..], mark := true))
            && (i < |f.buf| && f.buf[i - 1] != MARK ==> Rescan(f) == f.(buf := f.buf[i..], mark := false))
  {
    hide NextSom;
  }
}
