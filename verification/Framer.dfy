// The receive side of src/osdp_phy.c up to a complete frame: scan for a start of message, collect
// and check the header, rescan what was collected when it was no header, collect the rest.
module Framer {
  import opened Bytes
  import opened Packet

  const RING_SIZE := 512     // OSDP_RX_RB_SIZE; one slot stays free

  // ring: bytes received and not yet looked at. buf: packet_buf up to packet_buf_len. len:
  // packet_len, 0 until the header has been accepted. mark: PD_FLAG_PKT_HAS_MARK.
  datatype Rx = Rx(ring: seq<byte>, buf: seq<byte>, len: nat, mark: bool)

  datatype Outcome = NoData | Waiting | Skipped | Overlong | Complete

  function Min(a: nat, b: nat): nat { if a < b then a else b }

  // osdp_rb_pop_buf to the end of the buffer, at most n bytes.
  function TopUp(f: Rx, n: nat): Rx {
    var k := Min(n, |f.ring|);
    f.(buf := f.buf + f.ring[..k], ring := f.ring[k..])
  }

  // The scan loop of phy_check_header, from an empty buffer.
  function Scan(f: Rx, prev: byte): Rx
    decreases |f.ring|
  {
    if f.ring == [] then f
    else
      var g := f.(ring := f.ring[1..]);
      if f.ring[0] == SOM then g.(buf := if prev == MARK then [MARK, SOM] else [SOM])
      else Scan(g, f.ring[0])
  }

  // Index of the first SOM in s at or after i, |s| when there is none.
  function NextSom(s: seq<byte>, i: nat): (r: nat)
    requires i <= |s|
    ensures i <= r <= |s| && (r < |s| ==> s[r] == SOM) && SOM !in s[i..r]
    decreases |s| - i
  {
    if i == |s| || s[i] == SOM then i
    else
      var r := NextSom(s, i + 1);
      assert s[i..r] == [s[i]] + s[i + 1..r];
      r
  }

  // phy_rescan_packet_buf: what was collected, from the next SOM on, with the mark before it.
  function Rescan(f: Rx): Rx
    requires |f.buf| > MarkLen(f.mark)
  {
    var i := NextSom(f.buf, MarkLen(f.mark) + 1);
    if i == |f.buf| then f.(buf := [])
    else if f.buf[i - 1] == MARK then f.(buf := [MARK] + f.buf[i..], mark := true)
    else f.(buf := f.buf[i..], mark := false)
  }

  function Need(buf: seq<byte>): nat { if |buf| > 0 && buf[0] == MARK then HDR + 1 else HDR }

  // The mark flag phy_validate_header leaves, on a buffer that starts with a SOM or a mark and one.
  predicate MarkSeen(f: Rx) {
    if |f.buf| < HDR then f.mark else f.buf[0] == MARK
  }

  // The first half of phy_check_header: a start of message, and as much header as there is.
  function Gather(f: Rx): Rx {
    var s := if f.buf == [] then Scan(f, 0) else f;
    var t := if s.buf != [] && |s.buf| < Need(s.buf) then TopUp(s, Need(s.buf) - |s.buf|) else s;
    t.(mark := MarkSeen(t))
  }

  // No start of message yet; a header not complete, or not one and rescanned; a packet of the other
  // direction; a header accepted.
  datatype Parsed = NoStart | Partial | Foreign | Accepted(len: nat)

  // phy_check_header
  function CheckHeader(role: Role, f: Rx): (Parsed, Rx)
    requires Framed(f) && f.len == 0
  {
    var u := Gather(f);
    GatherFacts(f);
    if u.buf == [] then (NoStart, u)
    else
      match ValidateHeader(role, u.buf, PACKET_BUF_SIZE)
      case HdrErr(PktFmt) => (Partial, Rescan(u))
      case HdrErr(PktSkip) => (Foreign, u)
      case HdrErr(_) => (Partial, u)
      case Frame(n, _) => (Accepted(n), u)
  }

  // osdp_phy_check_packet up to the complete frame; bytes have been received already.
  function Collect(role: Role, f: Rx): (Outcome, Rx)
    requires Framed(f)
  {
    if f.len > 0 then Fill(f)
    else
      var (h, g) := CheckHeader(role, f);
      match h
      case NoStart => (NoData, g)
      case Partial => (Waiting, g)
      case Foreign => (Skipped, g)
      case Accepted(n) => Fill(g.(len := n))
  }

  function Fill(f: Rx): (Outcome, Rx) {
    if |f.buf| > f.len then (Overlong, f)
    else
      var g := TopUp(f, f.len - |f.buf|);
      (if |g.buf| == g.len then Complete else Waiting, g)
  }

  // osdp_phy_state_reset(pd, false), which every caller does after a frame or a skipped header.
  function Reset(f: Rx): Rx { f.(buf := [], len := 0) }

  // osdp_channel_receive: what does not fit the ring is lost.
  function Receive(f: Rx, chunk: seq<byte>): Rx {
    f.(ring := f.ring + chunk[..Min(|chunk|, if |f.ring| < RING_SIZE then RING_SIZE - 1 - |f.ring| else 0)])
  }

  // ---- Any input ----

  // The buffer is empty or starts with SOM or MARK, SOM; short of its header before the header is
  // accepted, short of the declared length after.
  predicate Started(buf: seq<byte>) {
    |buf| > 0 && (buf[0] == SOM || (|buf| > 1 && buf[0] == MARK && buf[1] == SOM))
  }

  predicate Framed(f: Rx) {
    && (f.buf == [] || Started(f.buf))
    && (f.len == 0 ==> |f.buf| <= Need(f.buf))
    && (f.len > 0 ==> HDR <= |f.buf| <= f.len <= PACKET_BUF_SIZE)
    && (|f.buf| >= HDR ==> f.mark == (f.buf[0] == MARK))
  }

  lemma {:induction false} ScanFacts(f: Rx, prev: byte)
    requires f.buf == []
    ensures var g := Scan(f, prev);
            && (g.buf == [] || g.buf == [SOM] || g.buf == [MARK, SOM]) && g.len == f.len && g.mark == f.mark
            && |g.buf| + |g.ring| <= |f.ring| + MarkLen(prev == MARK) && |g.ring| <= |f.ring|
            && (g.buf == [] ==> g.ring == []) && (g.buf != [] ==> |g.ring| < |f.ring|)
    decreases |f.ring|
  {
    if f.ring != [] && f.ring[0] != SOM {
      ScanFacts(f.(ring := f.ring[1..]), f.ring[0]);
    }
  }

  lemma TopUpStarted(f: Rx, n: nat)
    requires Started(f.buf)
    ensures var g := TopUp(f, n);
            && Started(g.buf) && g.buf[0] == f.buf[0] && |g.buf| + |g.ring| == |f.buf| + |f.ring|
            && |f.buf| <= |g.buf| <= |f.buf| + n && (|g.buf| < |f.buf| + n ==> g.ring == [])
            && g.len == f.len && g.mark == f.mark
  {
  }

  lemma GatherFacts(f: Rx)
    requires Framed(f) && f.len == 0
    ensures var u := Gather(f);
            && Framed(u) && u.len == 0 && |u.buf| + |u.ring| <= |f.buf| + |f.ring| && |u.ring| <= |f.ring|
            && (u.buf == [] ==> u.ring == []) && (|u.buf| < HDR ==> u.ring == [])
            && (|u.buf| >= HDR ==> u.mark == (u.buf[0] == MARK))
  {
    hide Scan, TopUp;
    var s := if f.buf == [] then Scan(f, 0) else f;
    if f.buf == [] {
      ScanFacts(f, 0);
    }
    if s.buf != [] && |s.buf| < Need(s.buf) {
      TopUpStarted(s, Need(s.buf) - |s.buf|);
    }
  }

  // Rescanning gives up at least the start of message it was called on.
  lemma RescanFacts(f: Rx)
    requires Framed(f) && f.len == 0 && |f.buf| >= HDR
    ensures var g := Rescan(f); Framed(g) && |g.buf| < |f.buf| && g.ring == f.ring && g.len == 0
  {
  }

  // It goes on at the first start of message past the one given up, with the mark before it if there is
  // one, and says whether there is.
  lemma RescanFinds(f: Rx) returns (i: nat)
    requires |f.buf| > MarkLen(f.mark)
    ensures MarkLen(f.mark) < i <= |f.buf| && SOM !in f.buf[MarkLen(f.mark) + 1..i]
    ensures var g := Rescan(f);
            if i == |f.buf| then g == f.(buf := [])
            else f.buf[i] == SOM && (g.mark <==> f.buf[i - 1] == MARK) && g.buf == WithMark(g.mark, f.buf[i..])
                 && g.ring == f.ring && g.len == f.len
  {
    i := NextSom(f.buf, MarkLen(f.mark) + 1);
  }

  lemma HeaderKeepsFramed(role: Role, f: Rx)
    requires Framed(f) && f.len == 0
    ensures var (h, g) := CheckHeader(role, f);
            && Framed(g) && g.len == 0 && (h.Accepted? ==> HDR <= |g.buf| < h.len <= PACKET_BUF_SIZE)
            && |g.ring| <= |f.ring|
            && (f.ring != [] && (h == NoStart || h == Partial) ==> |g.ring| < |f.ring| || |g.buf| < |f.buf|)
  {
    hide Gather, Rescan;
    GatherFacts(f);
    var u := Gather(f);
    if u.buf != [] && ValidateHeader(role, u.buf, PACKET_BUF_SIZE) == HdrErr(PktFmt) {
      RescanFacts(u);
    }
  }

  // A header is looked at only when it is all there, mark included, or there is nothing more to look at.
  lemma GatherWhole(f: Rx)
    requires Framed(f) && f.len == 0
    ensures var u := Gather(f);
            u.ring != [] ==> |u.buf| >= (if u.buf != [] && u.buf[0] == MARK then HDR + 1 else HDR)
  {
    hide Scan, TopUp;
    var s := if f.buf == [] then Scan(f, 0) else f;
    if f.buf == [] {
      ScanFacts(f, 0);
    }
    if s.buf != [] && |s.buf| < Need(s.buf) {
      TopUpStarted(s, Need(s.buf) - |s.buf|);
    }
  }

  // One slot of the ring stays free: everything is queued if it fits under that, and else as much as does.
  lemma QueuesWhatFits(f: Rx, chunk: seq<byte>)
    requires |f.ring| < RING_SIZE
    ensures var g := Receive(f, chunk);
            && g == f.(ring := g.ring) && f.ring <= g.ring <= f.ring + chunk
            && (if |f.ring| + |chunk| < RING_SIZE then g.ring == f.ring + chunk else |g.ring| == RING_SIZE - 1)
  {
  }

  // A call says there is no data exactly if it was handed no start of message: everything was looked at,
  // and nothing is kept.
  lemma NoDataExactly(role: Role, f: Rx)
    requires Framed(f)
    ensures var (o, g) := Collect(role, f);
            && (o == NoData ==> f.len == 0 && f.buf == [] && g.buf == [] && g.ring == [])
            && (f.len == 0 && f.buf == [] && SOM !in f.ring ==> o == NoData)
  {
    hide Scan, TopUp, Rescan, ValidateHeader;
    if f.len == 0 {
      GatherFacts(f);
    }
    if f.len == 0 && f.buf == [] {
      if SOM !in f.ring {
        ScanNothing(f, 0);
      }
    } else if f.len == 0 {
      GatherStarted(f);
    }
  }

  lemma GatherStarted(f: Rx)
    requires Framed(f) && f.len == 0 && f.buf != []
    ensures Gather(f).buf != []
  {
  }

  lemma {:induction false} ScanNothing(f: Rx, prev: byte)
    requires f.buf == [] && SOM !in f.ring
    ensures Scan(f, prev).buf == [] && Scan(f, prev).ring == []
    decreases |f.ring|
  {
    if f.ring != [] {
      ScanNothing(f.(ring := f.ring[1..]), f.ring[0]);
    }
  }

  // After any call on any bytes the buffer is framed again, a frame handed on has exactly its
  // declared length, and the guard against a buffer longer than that never fires.
  lemma CollectKeepsFramed(role: Role, f: Rx)
    requires Framed(f)
    ensures var (o, g) := Collect(role, f); Framed(g) && o != Overlong && (o == Complete ==> |g.buf| == g.len > 0)
  {
    hide CheckHeader, TopUp;
    var g := f;
    if f.len == 0 {
      HeaderKeepsFramed(role, f);
      var (h, g') := CheckHeader(role, f);
      g := if h.Accepted? then g'.(len := h.len) else g';
    }
    if g.len > 0 {
      TopUpStarted(g, g.len - |g.buf|);
    }
  }

  // Every call on a ring that is not empty takes bytes off it or gives up bytes it had collected,
  // unless it hands on a frame or skips one.
  lemma CallsProgress(role: Role, f: Rx)
    requires Framed(f) && f.ring != []
    ensures var (o, g) := Collect(role, f);
            && |g.ring| <= |f.ring|
            && (o == Waiting || o == NoData ==> |g.ring| < |f.ring| || |g.buf| < |f.buf|)
  {
    hide CheckHeader, TopUp;
    var g := f;
    if f.len == 0 {
      HeaderKeepsFramed(role, f);
      var (h, g') := CheckHeader(role, f);
      g := if h.Accepted? then g'.(len := h.len) else g';
    }
    if g.len > 0 {
      TopUpStarted(g, g.len - |g.buf|);
    }
  }
}
