// On a clean stream the frames handed on do not depend on how the bytes arrived.
module FramerStream {
  import opened Bytes
  import opened Packet
  import opened Framer

  // A packet and what precedes it on the line: idle bytes and marks, no start of message.
  datatype Item = Item(gap: seq<byte>, pkt: seq<byte>)

  predicate Marked(it: Item) { it.gap != [] && it.gap[|it.gap| - 1] == MARK }

  predicate Clean(role: Role, it: Item) {
    && SOM !in it.gap && |it.pkt| > HDR
    && ValidateHeader(role, it.pkt, PACKET_BUF_SIZE - MarkLen(Marked(it))) == Frame(|it.pkt|, false)
  }

  predicate AllClean(role: Role, items: seq<Item>) { forall i :: 0 <= i < |items| ==> Clean(role, items[i]) }

  function Stream(items: seq<Item>): seq<byte> {
    if items == [] then [] else items[0].gap + items[0].pkt + Stream(items[1..])
  }

  function Bodies(items: seq<Item>): seq<seq<byte>> {
    if items == [] then [] else [items[0].pkt] + Bodies(items[1..])
  }

  // A receiver, the frames it has handed on (their mark taken off), whether each counted as marked,
  // and what is yet to arrive.
  datatype Line = Line(rx: Rx, got: seq<seq<byte>>, marks: seq<bool>, coming: seq<byte>)

  function Body(f: Rx): seq<byte>
    requires |f.buf| >= MarkLen(f.mark)
  {
    f.buf[MarkLen(f.mark)..]
  }

  // One call of osdp_phy_check_packet: n more bytes arrive, and the caller resets after a frame.
  function Call(role: Role, l: Line, n: nat): Line
    requires Framed(l.rx) && n <= |l.coming|
  {
    CollectKeepsFramed(role, Receive(l.rx, l.coming[..n]));
    var (o, f) := Collect(role, Receive(l.rx, l.coming[..n]));
    if o == Complete then Line(Reset(f), l.got + [Body(f)], l.marks + [f.mark], l.coming[n..])
    else if o == Skipped then Line(Reset(f), l.got, l.marks, l.coming[n..])
    else Line(f, l.got, l.marks, l.coming[n..])
  }

  // ---- Where the receiver stands in the stream ----

  // Before the next packet: what is left of its gap comes first.
  ghost predicate Between(f: Rx, ahead: seq<byte>, items: seq<Item>) {
    && f.buf == [] && f.len == 0
    && if items == [] then SOM !in ahead
       else exists g: seq<byte> :: Suffix(g, items[0].gap) && ahead == g + items[0].pkt + Stream(items[1..])
  }

  predicate Suffix(g: seq<byte>, gap: seq<byte>) { |g| <= |gap| && g == gap[|gap| - |g|..] }

  // Inside it: the buffer holds its first j bytes, behind a mark if there was one to be seen.
  predicate Within(f: Rx, ahead: seq<byte>, it: Item, rest: seq<byte>, j: nat, mark: bool) {
    && 0 < j <= |it.pkt| && (mark ==> Marked(it))
    && f.buf == (if mark then [MARK] else []) + it.pkt[..j] && ahead == it.pkt[j..] + rest
    && (f.len == 0 || f.len == MarkLen(mark) + |it.pkt|) && (f.len > 0 ==> f.mark == mark)
    && (j == |it.pkt| ==> f.len == 0)
  }

  // Bytes from the start of message of the first item on.
  function FromSom(items: seq<Item>): nat
    requires items != []
  {
    |items[0].pkt| + |Stream(items[1..])|
  }

  // Between packets; lost: the whole gap of the next one has been scanned away, its mark with it.
  ghost predicate Before(f: Rx, ahead: seq<byte>, items: seq<Item>, lost: bool) {
    && Between(f, ahead, items)
    && (items != [] ==> if lost then |ahead| == FromSom(items) else |ahead| > FromSom(items) || items[0].gap == [])
  }

  // Inside a packet; it counts as marked if it is and the mark was not lost.
  ghost predicate Inside(f: Rx, ahead: seq<byte>, items: seq<Item>, lost: bool) {
    items != [] && exists j: nat :: InsideBy(f, ahead, items, lost, j)
  }

  predicate InsideBy(f: Rx, ahead: seq<byte>, items: seq<Item>, lost: bool, j: nat)
    requires items != []
  {
    Within(f, ahead, items[0], Stream(items[1..]), j, Marked(items[0]) && !lost)
  }

  ghost predicate At(role: Role, f: Rx, ahead: seq<byte>, items: seq<Item>, lost: bool) {
    AllClean(role, items) && Framed(f) && (Before(f, ahead, items, lost) || Inside(f, ahead, items, lost))
  }

  // A call made between packets when exactly the bytes before the next start of message have come.
  predicate CutsMark(f: Rx, coming: seq<byte>, items: seq<Item>) {
    items != [] && f.buf == [] && f.len == 0 && |coming| == FromSom(items)
  }

  // ---- The scan ----

  lemma {:induction false} ScanGap(f: Rx, prev: byte, g: seq<byte>, tail: seq<byte>)
    requires f.buf == [] && SOM !in g && f.ring == g + tail && (tail == [] || tail[0] == SOM)
    ensures tail == [] ==> Scan(f, prev) == f.(ring := [])
    ensures tail != [] ==>
      Scan(f, prev) == f.(ring := tail[1..], buf := if (if g == [] then prev else g[|g| - 1]) == MARK then [MARK, SOM] else [SOM])
    decreases |g|
  {
    if g == [] {
      assert f.ring == tail;
    } else {
      assert f.ring[0] == g[0] && f.ring[1..] == g[1..] + tail;
      ScanGap(f.(ring := f.ring[1..]), g[0], g[1..], tail);
    }
  }

  // What a clean packet's header says.
  lemma CleanHeader(role: Role, it: Item)
    requires Clean(role, it)
    ensures it.pkt[0] == SOM && FromLe16(it.pkt[2], it.pkt[3]) == |it.pkt| && (role == Pd) == (it.pkt[1] < 0x80)
    ensures HDR < |it.pkt| <= PACKET_BUF_SIZE - MarkLen(Marked(it))
  {
    hide FromLe16;
  }

  // A buffer holding at least the first bytes of the header of a clean packet says what the whole
  // packet says.
  lemma HeaderSays(role: Role, it: Item, j: nat, mark: bool)
    requires Clean(role, it) && j <= |it.pkt| && MarkLen(mark) + j >= HDR && (mark ==> Marked(it))
    ensures var buf := (if mark then [MARK] else []) + it.pkt[..j];
            ValidateHeader(role, buf, PACKET_BUF_SIZE) == Frame(MarkLen(mark) + |it.pkt|, mark)
  {
    hide FromLe16, Clean, Marked;
    CleanHeader(role, it);
    var h := it.pkt[..j];
    if mark {
      assert ([MARK] + h)[1..] == h;
    } else {
      assert [] + h == h;
    }
    HeaderOf(role, it.pkt, h, mark);
  }

  lemma HeaderOf(role: Role, pkt: seq<byte>, h: seq<byte>, mark: bool)
    requires HDR - 1 <= |h| <= |pkt| && h == pkt[..|h|] && |h| + MarkLen(mark) >= HDR
    requires pkt[0] == SOM && FromLe16(pkt[2], pkt[3]) == |pkt| && (role == Pd) == (pkt[1] < 0x80)
    requires HDR < |pkt| && |pkt| + MarkLen(mark) <= PACKET_BUF_SIZE
    ensures ValidateHeader(role, (if mark then [MARK] else []) + h, PACKET_BUF_SIZE) == Frame(MarkLen(mark) + |pkt|, mark)
  {
    hide FromLe16;
    var buf := (if mark then [MARK] else []) + h;
    assert h[0] == pkt[0] && h[1] == pkt[1] && h[2] == pkt[2] && h[3] == pkt[3];
    assert (if mark then buf[1..] else buf) == h;
  }

  // ---- One call ----

  // Bytes moved from the ring to the buffer are the next ones of the packet.
  lemma TopUpWithin(f: Rx, coming: seq<byte>, it: Item, rest: seq<byte>, j: nat, mark: bool, n: nat)
    requires Within(f, f.ring + coming, it, rest, j, mark) && j + n <= |it.pkt|
    ensures var g, k := TopUp(f, n), Min(n, |f.ring|);
            && g.buf == (if mark then [MARK] else []) + it.pkt[..j + k]
            && g.ring + coming == it.pkt[j + k..] + rest && g == f.(buf := g.buf, ring := g.ring)
            && (k < n ==> g.ring == [])
  {
    Slide(f.ring, coming, it.pkt, rest, j, Min(n, |f.ring|));
  }

  lemma Slide(ring: seq<byte>, coming: seq<byte>, pkt: seq<byte>, rest: seq<byte>, j: nat, k: nat)
    requires k <= |ring| && j + k <= |pkt| && ring + coming == pkt[j..] + rest
    ensures forall m: seq<byte> :: m + pkt[..j] + ring[..k] == m + pkt[..j + k]
    ensures ring[k..] + coming == pkt[j + k..] + rest
  {
    var ahead := ring + coming;
    assert ring[..k] == ahead[..k] == pkt[j..j + k];
    assert pkt[..j] + ring[..k] == pkt[..j + k];
    assert ring[k..] + coming == ahead[k..] == pkt[j + k..] + rest;
    forall m: seq<byte> ensures m + pkt[..j] + ring[..k] == m + pkt[..j + k] {
      assert m + pkt[..j] + ring[..k] == m + (pkt[..j] + ring[..k]);
    }
  }

  // What is handed on: the packet, and whether it counts as marked.
  predicate Delivered(g: Rx, it: Item, mark: bool) {
    |g.buf| >= MarkLen(g.mark) && Body(g) == it.pkt && g.mark == mark
  }

  lemma FillWithin(f: Rx, coming: seq<byte>, it: Item, rest: seq<byte>, j: nat, mark: bool)
    requires Within(f, f.ring + coming, it, rest, j, mark) && f.len > 0
    ensures var (o, g) := Fill(f);
            && (o == Complete ==> Delivered(g, it, mark) && g.ring + coming == rest)
            && (o != Complete ==> o == Waiting && g.ring == [] && exists j' :: Within(g, g.ring + coming, it, rest, j', mark))
  {
    hide TopUp;
    TopUpWithin(f, coming, it, rest, j, mark, f.len - |f.buf|);
    var k := Min(f.len - |f.buf|, |f.ring|);
    var (o, g) := Fill(f);
    if o == Complete {
      assert it.pkt[..j + k] == it.pkt && it.pkt[j + k..] == [];
    } else {
      assert Within(g, g.ring + coming, it, rest, j + k, mark);
    }
  }

  // From inside a packet whose header is not accepted yet.
  lemma CollectWithin(role: Role, f: Rx, s: Rx, coming: seq<byte>, it: Item, rest: seq<byte>, j: nat, mark: bool)
    requires Clean(role, it) && Framed(f) && f.len == 0 && Gather(f) == Gather(s)
    requires Within(s, s.ring + coming, it, rest, j, mark) && s.len == 0 && MarkLen(mark) + j <= Need(s.buf)
    ensures var (o, g) := Collect(role, f);
            && (o == Complete ==> Delivered(g, it, mark) && g.ring + coming == rest)
            && (o != Complete ==> o == Waiting && g.ring == [] && exists j' :: Within(g, g.ring + coming, it, rest, j', mark))
  {
    hide Gather, ValidateHeader, Fill;
    var j' := GatherWithin(role, s, coming, it, rest, j, mark);
    var u := Gather(s);
    if |u.buf| < HDR {
      HeaderShort(role, u.buf);
      assert Collect(role, f) == (Waiting, u);
    } else {
      HeaderSays(role, it, j', mark);
      var g := u.(len := MarkLen(mark) + |it.pkt|);
      assert CheckHeader(role, f) == (Accepted(g.len), u);
      assert Collect(role, f) == Fill(g);
      assert Within(g, g.ring + coming, it, rest, j', mark);
      FillWithin(g, coming, it, rest, j', mark);
    }
  }

  lemma GatherWithin(role: Role, s: Rx, coming: seq<byte>, it: Item, rest: seq<byte>, j: nat, mark: bool) returns (j': nat)
    requires Clean(role, it) && Within(s, s.ring + coming, it, rest, j, mark)
    requires s.len == 0 && MarkLen(mark) + j <= Need(s.buf)
    ensures var u := Gather(s);
            && Within(u, u.ring + coming, it, rest, j', mark) && u.len == 0 && j' <= HDR
            && u.buf == (if mark then [MARK] else []) + it.pkt[..j']
            && (if |u.buf| < HDR then u.ring == [] else u.mark == mark)
  {
    hide TopUp, ValidateHeader, Scan, Clean;
    CleanParts(role, it);
    var n := Need(s.buf) - |s.buf|;
    assert s.buf[0] == (if mark then MARK else SOM) by { FirstByte(role, it, j, mark); }
    TopUpWithin(s, coming, it, rest, j, mark, n);
    j' := j + Min(n, |s.ring|);
    var u := Gather(s);
    if n == 0 {
      assert u == s.(mark := MarkSeen(s));
    }
    assert u.buf[0] == (if mark then MARK else SOM) by { FirstByte(role, it, j', mark); }
  }

  lemma FirstByte(role: Role, it: Item, j: nat, mark: bool)
    requires Clean(role, it) && 0 < j <= |it.pkt|
    ensures ((if mark then [MARK] else []) + it.pkt[..j])[0] == if mark then MARK else SOM
  {
  }

  lemma HeaderShort(role: Role, buf: seq<byte>)
    requires |buf| < HDR
    ensures ValidateHeader(role, buf, PACKET_BUF_SIZE) == HdrErr(PktWait)
  {
  }

  // From before a packet.
  lemma CollectBetween(role: Role, f: Rx, coming: seq<byte>, items: seq<Item>, lost: bool)
    requires AllClean(role, items) && Framed(f) && Before(f, f.ring + coming, items, lost)
    ensures var (o, g) := Collect(role, f);
            && (o == Complete ==> items != [] && Delivered(g, items[0], Marked(items[0]) && !lost)
                                  && g.ring + coming == Stream(items[1..]))
            && (o != Complete ==> (o == Waiting || o == NoData) && g.ring == []
                                  && At(role, g, coming, items, lost || CutsMark(f, coming, items)))
  {
    hide ValidateHeader, Fill, Clean, Collect;
    CollectKeepsFramed(role, f);
    var ahead := f.ring + coming;
    if items == [] {
      NoSom(ahead, f.ring);
      ScanGap(f, 0, f.ring, []);
      assert f.ring + [] == f.ring;
      StaysBetween(role, f, coming, items, lost);
    } else {
      var it := items[0];
      var gap: seq<byte> :| Suffix(gap, it.gap) && ahead == gap + it.pkt + Stream(items[1..]);
      CleanParts(role, it);
      if |f.ring| <= |gap| {
        GapOnly(f, coming, items, gap, lost);
        StaysBetween(role, f, coming, items, lost || CutsMark(f, coming, items));
      } else {
        assert Found(gap) == (Marked(it) && !lost);
        assert |coming| < FromSom(items);
        CollectFromGap(role, f, coming, it, Stream(items[1..]), gap);
        var (o, g) := Collect(role, f);
        if o != Complete {
          assert g.ring + coming == coming;
          var j :| Within(g, g.ring + coming, it, Stream(items[1..]), j, Found(gap));
          assert InsideBy(g, coming, items, lost, j);
        }
      }
    }
  }

  // Nothing but gap has come.
  lemma GapOnly(f: Rx, coming: seq<byte>, items: seq<Item>, gap: seq<byte>, lost: bool)
    requires f.buf == [] && f.len == 0 && items != [] && SOM !in items[0].gap && Suffix(gap, items[0].gap)
    requires f.ring + coming == gap + items[0].pkt + Stream(items[1..]) && |f.ring| <= |gap|
    requires if lost then gap == [] else gap != [] || items[0].gap == []
    ensures Scan(f, 0) == f.(ring := [])
    ensures Before(f.(ring := []), coming, items, lost || CutsMark(f, coming, items))
  {
    var ahead := f.ring + coming;
    assert f.ring == ahead[..|f.ring|] == gap[..|f.ring|];
    NoSom(gap, f.ring);
    ScanGap(f, 0, f.ring, []);
    assert f.ring + [] == f.ring;
    assert coming == ahead[|f.ring|..] == gap[|f.ring|..] + items[0].pkt + Stream(items[1..]);
    assert Suffix(gap[|f.ring|..], items[0].gap);
  }

  // The ring reaches past the gap: the packet is found and begun.
  lemma CollectFromGap(role: Role, f: Rx, coming: seq<byte>, it: Item, rest: seq<byte>, gap: seq<byte>)
    requires Clean(role, it) && Framed(f) && f.buf == [] && f.len == 0 && Suffix(gap, it.gap) && |gap| < |f.ring|
    requires f.ring + coming == gap + it.pkt + rest
    ensures var (o, g) := Collect(role, f);
            && (o == Complete ==> Delivered(g, it, Found(gap)) && g.ring + coming == rest)
            && (o != Complete ==> o == Waiting && g.ring == [] && exists j' :: Within(g, g.ring + coming, it, rest, j', Found(gap)))
  {
    hide ValidateHeader, Collect, Clean, Scan, Gather;
    CleanParts(role, it);
    SplitRing(f.ring, coming, gap, it.pkt, rest);
    ScanGap(f, 0, gap, f.ring[|gap|..]);
    var s := Scan(f, 0);
    assert s.ring == f.ring[|gap| + 1..];
    assert it.pkt[..1] == [SOM];
    assert Within(s, s.ring + coming, it, rest, 1, Found(gap));
    GatherScanned(f);
    CollectWithin(role, f, s, coming, it, rest, 1, Found(gap));
  }

  lemma SplitRing(ring: seq<byte>, coming: seq<byte>, gap: seq<byte>, pkt: seq<byte>, rest: seq<byte>)
    requires ring + coming == gap + pkt + rest && |gap| < |ring| && |pkt| > 0
    ensures ring == gap + ring[|gap|..] && ring[|gap|..][0] == pkt[0]
    ensures ring[|gap|..][1..] == ring[|gap| + 1..] && ring[|gap| + 1..] + coming == pkt[1..] + rest
  {
    var ahead := ring + coming;
    assert ring[..|gap|] == ahead[..|gap|] == gap;
    assert ring[|gap|] == ahead[|gap|];
    assert ring[|gap| + 1..] + coming == ahead[|gap| + 1..];
  }

  lemma GatherScanned(f: Rx)
    requires f.buf == []
    ensures Scan(f, 0).buf != [] ==> Gather(Scan(f, 0)) == Gather(f)
  {
    hide Scan;
  }

  predicate Found(gap: seq<byte>) { (if gap == [] then 0 else gap[|gap| - 1]) == MARK }

  lemma NoSom(s: seq<byte>, t: seq<byte>)
    requires SOM !in s && |t| <= |s| && t == s[..|t|]
    ensures SOM !in t
  {
    forall i | 0 <= i < |t| ensures t[i] != SOM {
      assert t[i] == s[i];
    }
  }

  lemma CleanParts(role: Role, it: Item)
    requires Clean(role, it)
    ensures SOM !in it.gap && |it.pkt| > HDR && it.pkt[0] == SOM
  {
  }

  // Nothing but gap in the ring: it is all scanned away.
  lemma StaysBetween(role: Role, f: Rx, coming: seq<byte>, items: seq<Item>, lost: bool)
    requires AllClean(role, items) && Framed(f) && f.buf == [] && f.len == 0 && Scan(f, 0) == f.(ring := [])
    requires Before(f.(ring := []), coming, items, lost)
    ensures var (o, g) := Collect(role, f);
            (o == Waiting || o == NoData) && g.ring == [] && At(role, g, coming, items, lost)
  {
    hide Scan, ValidateHeader, Stream;
  }

  // From inside a packet.
  lemma CollectInside(role: Role, f: Rx, coming: seq<byte>, items: seq<Item>, lost: bool)
    requires AllClean(role, items) && Framed(f) && Inside(f, f.ring + coming, items, lost)
    ensures f.buf != [] && items != []
    ensures var (o, g) := Collect(role, f);
            && (o == Complete ==> Delivered(g, items[0], Marked(items[0]) && !lost) && g.ring + coming == Stream(items[1..]))
            && (o != Complete ==> o == Waiting && g.ring == [] && Inside(g, coming, items, lost))
  {
    hide ValidateHeader, Fill, CheckHeader, Gather, Clean, Stream;
    var it, rest, mark := items[0], Stream(items[1..]), Marked(items[0]) && !lost;
    var j: nat :| InsideBy(f, f.ring + coming, items, lost, j);
    if f.len > 0 {
      FillWithin(f, coming, it, rest, j, mark);
    } else {
      CollectWithin(role, f, f, coming, it, rest, j, mark);
    }
    var (o, g) := Collect(role, f);
    if o != Complete {
      assert g.ring + coming == coming;
      var j' :| Within(g, g.ring + coming, it, rest, j', mark);
      assert InsideBy(g, coming, items, lost, j');
    }
  }

  // A call on a clean stream hands on the next packet, or has used up every byte there was.
  lemma CollectClean(role: Role, f: Rx, coming: seq<byte>, items: seq<Item>, lost: bool)
    requires At(role, f, f.ring + coming, items, lost)
    ensures var (o, g) := Collect(role, f);
            && (o == Complete ==> items != [] && Delivered(g, items[0], Marked(items[0]) && !lost)
                                  && At(role, Reset(g), g.ring + coming, items[1..], false)
                                  && !CutsMark(f, coming, items))
            && (o != Complete ==> (o == Waiting || o == NoData) && g.ring == []
                                  && At(role, g, coming, items, lost || CutsMark(f, coming, items)))
  {
    hide Collect, Clean, Before, Inside;
    CollectKeepsFramed(role, f);
    var (o, g) := Collect(role, f);
    if Before(f, f.ring + coming, items, lost) {
      CollectBetween(role, f, coming, items, lost);
    } else {
      CollectInside(role, f, coming, items, lost);
    }
    if o == Complete {
      NextBefore(Reset(g), g.ring + coming, items[1..]);
      assert |g.ring + coming| == |g.ring| + |coming|;
    }
  }

  lemma NextBefore(f: Rx, ahead: seq<byte>, items: seq<Item>)
    requires f.buf == [] && f.len == 0 && ahead == Stream(items)
    ensures Before(f, ahead, items, false)
  {
    if items != [] {
      assert Suffix(items[0].gap, items[0].gap);
      assert ahead == items[0].gap + items[0].pkt + Stream(items[1..]);
    }
  }

  // ---- Runs ----

  // How many bytes arrive before each call; the ring never overflows.
  predicate Fits(role: Role, l: Line, ns: seq<nat>)
    requires Framed(l.rx)
    decreases |ns|
  {
    ns == [] ||
    (ns[0] <= |l.coming| && |l.rx.ring| + ns[0] < RING_SIZE
     && Framed(Call(role, l, ns[0]).rx) && Fits(role, Call(role, l, ns[0]), ns[1..]))
  }

  function Calls(role: Role, l: Line, ns: seq<nat>): Line
    requires Framed(l.rx) && Fits(role, l, ns)
    decreases |ns|
  {
    if ns == [] then l else Calls(role, Call(role, l, ns[0]), ns[1..])
  }

  // Standing k frames into the stream of items; lost: the mark of the next one is gone.
  ghost predicate Stands(role: Role, l: Line, items: seq<Item>, k: nat, lost: bool) {
    && k <= |items| && At(role, l.rx, l.rx.ring + l.coming, items[k..], lost) && l.got == Bodies(items[..k])
    && |l.marks| == k
  }

  // The call is made between frames, k of them handed on, and ends with exactly the bytes before the
  // next start of message arrived.
  predicate Cuts(l: Line, n: nat, items: seq<Item>, k: nat)
    requires k < |items| && n <= |l.coming|
  {
    |l.got| == k && l.rx.buf == [] && l.rx.len == 0 && |l.coming| - n == FromSom(items[k..])
  }

  lemma CallStands(role: Role, l: Line, n: nat, items: seq<Item>, k: nat, lost: bool)
    requires Stands(role, l, items, k, lost) && n <= |l.coming| && |l.rx.ring| + n < RING_SIZE
    ensures Framed(l.rx) && |l.got| == k
    ensures var m := Call(role, l, n);
            && Framed(m.rx) && m.coming == l.coming[n..]
            && if m.got == l.got then
                 && Stands(role, m, items, k, lost || (k < |items| && Cuts(l, n, items, k))) && m.rx.ring == []
                 && m.marks == l.marks
               else
                 && k < |items| && Stands(role, m, items, k + 1, false) && !Cuts(l, n, items, k)
                 && m.marks == l.marks + [Marked(items[k]) && !lost]
  {
    hide At, Collect, Stream;
    var f := Receive(l.rx, l.coming[..n]);
    assert l.coming[..n][..n] == l.coming[..n];
    assert f.ring + l.coming[n..] == l.rx.ring + l.coming;
    SameAt(role, l.rx, f, l.rx.ring + l.coming, items[k..], lost);
    CollectClean(role, f, l.coming[n..], items[k..], lost);
    CollectKeepsFramed(role, f);
    BodiesCount(items[..k]);
    var (o, g) := Collect(role, f);
    if o == Complete {
      assert items[k..][1..] == items[k + 1..];
      BodiesNext(items, k);
    } else {
      assert g.ring + l.coming[n..] == l.coming[n..];
    }
  }

  lemma SameAt(role: Role, f: Rx, g: Rx, ahead: seq<byte>, items: seq<Item>, lost: bool)
    requires At(role, f, ahead, items, lost) && g == f.(ring := g.ring)
    ensures At(role, g, ahead, items, lost) && Framed(f) && Framed(g)
  {
    hide Clean, ValidateHeader, Stream;
    if Inside(f, ahead, items, lost) {
      var j: nat :| InsideBy(f, ahead, items, lost, j);
      assert InsideBy(g, ahead, items, lost, j);
    }
  }

  lemma {:induction false} BodiesNext(items: seq<Item>, k: nat)
    requires k < |items|
    ensures Bodies(items[..k + 1]) == Bodies(items[..k]) + [items[k].pkt]
    ensures Bodies(items[..k]) + [items[k].pkt] != Bodies(items[..k])
  {
    if k > 0 {
      BodiesNext(items[1..], k - 1);
      assert items[1..][..k - 1] == items[..k][1..] && items[1..][..k] == items[..k + 1][1..];
    }
    assert |Bodies(items[..k]) + [items[k].pkt]| == |Bodies(items[..k])| + 1;
  }

  // Was a call made so in the run, while frame i was the next?
  predicate Cut(role: Role, l: Line, ns: seq<nat>, items: seq<Item>, i: nat)
    requires Framed(l.rx) && Fits(role, l, ns) && i < |items|
    decreases |ns|
  {
    ns != [] && (Cuts(l, ns[0], items, i) || Cut(role, Call(role, l, ns[0]), ns[1..], items, i))
  }

  // A run from k frames in: where it ends, and the marks of the frames handed on in it.
  lemma {:induction false} CallsStand(role: Role, l: Line, ns: seq<nat>, items: seq<Item>, k: nat, lost: bool)
    returns (k': nat, lost': bool)
    requires Stands(role, l, items, k, lost) && Framed(l.rx) && Fits(role, l, ns)
    ensures var m := Calls(role, l, ns);
            && Stands(role, m, items, k', lost') && k <= k' && |m.marks| == k' <= |items| && m.marks[..k] == l.marks
            && forall i :: k <= i < k' ==>
                 (m.marks[i] <==> Marked(items[i]) && !((i == k && lost) || Cut(role, l, ns, items, i)))
    decreases |ns|
  {
    hide Stands, Call, Cuts;
    StandsBound(role, l, items, k, lost);
    if ns == [] {
      k', lost' := k, lost;
    } else {
      CallStands(role, l, ns[0], items, k, lost);
      var m := Call(role, l, ns[0]);
      OthersUncut(l, ns[0], items, k);
      if m.got == l.got {
        k', lost' := CallsStand(role, m, ns[1..], items, k, lost || (k < |items| && Cuts(l, ns[0], items, k)));
      } else {
        k', lost' := CallsStand(role, m, ns[1..], items, k + 1, false);
        StandsBound(role, m, items, k + 1, false);
        NoCutBehind(role, m, ns[1..], items, k + 1, false, k);
        var z := Calls(role, l, ns);
        assert z.marks[k] == z.marks[..k + 1][k] == m.marks[k];
        assert z.marks[..k] == z.marks[..k + 1][..k] == m.marks[..k] == l.marks;
      }
    }
  }

  lemma OthersUncut(l: Line, n: nat, items: seq<Item>, k: nat)
    requires n <= |l.coming| && |l.got| == k
    ensures forall i :: 0 <= i < |items| && i != k ==> !Cuts(l, n, items, i)
  {
  }

  lemma {:induction false} NoCutBehind(role: Role, l: Line, ns: seq<nat>, items: seq<Item>, k: nat, lost: bool, i: nat)
    requires Stands(role, l, items, k, lost) && Framed(l.rx) && Fits(role, l, ns) && i < k && i < |items|
    ensures !Cut(role, l, ns, items, i)
    decreases |ns|
  {
    hide Stands, Call, Cuts;
    if ns != [] {
      CallStands(role, l, ns[0], items, k, lost);
      OthersUncut(l, ns[0], items, k);
      var m := Call(role, l, ns[0]);
      if m.got == l.got {
        NoCutBehind(role, m, ns[1..], items, k, lost || (k < |items| && Cuts(l, ns[0], items, k)), i);
      } else {
        NoCutBehind(role, m, ns[1..], items, k + 1, false, i);
      }
    }
  }

  // Every byte looked at, every frame handed on.
  lemma NothingLeft(role: Role, l: Line, items: seq<Item>, k: nat, lost: bool)
    requires Stands(role, l, items, k, lost) && l.rx.ring == [] && l.coming == []
    ensures l.got == Bodies(items)
  {
    hide ValidateHeader, Stream;
    assert items[..|items|] == items;
    assert l.rx.ring + l.coming == [];
    if k < |items| {
      CleanParts(role, items[k..][0]);
    }
  }

  function Start(items: seq<Item>): Line { Line(Rx([], [], 0, false), [], [], Stream(items)) }

  lemma FreshStands(role: Role, items: seq<Item>)
    requires AllClean(role, items)
    ensures Stands(role, Start(items), items, 0, false)
  {
    hide Clean;
    assert items[0..] == items;
    assert [] + Stream(items) == Stream(items);
    NextBefore(Rx([], [], 0, false), Stream(items), items);
  }

  // However a clean stream is chopped up between calls, what is handed on is a prefix of its packets
  // in order, and all of them once every byte has arrived and been looked at.
  lemma ChunkingDoesNotMatter(role: Role, items: seq<Item>, ns: seq<nat>)
    requires AllClean(role, items) && Fits(role, Start(items), ns)
    ensures var m := Calls(role, Start(items), ns);
            && m.got <= Bodies(items)
            && (m.coming == [] && m.rx.ring == [] ==> m.got == Bodies(items))
  {
    hide AllClean, Stands, Call, Fits;
    FreshStands(role, items);
    var k, lost := CallsStand(role, Start(items), ns, items, 0, false);
    var m := Calls(role, Start(items), ns);
    PrefixOfBodies(role, m, items, k, lost);
    if m.coming == [] && m.rx.ring == [] {
      NothingLeft(role, m, items, k, lost);
    }
  }

  // Whether a frame counts as marked does depend on how it arrived: it does if it is, unless a call
  // made while it was the next came just when its mark had arrived and its start of message had not.
  lemma MarkSurvives(role: Role, items: seq<Item>, ns: seq<nat>, i: nat)
    requires AllClean(role, items) && Fits(role, Start(items), ns)
    requires i < |Calls(role, Start(items), ns).marks|
    ensures i < |items| && Framed(Start(items).rx)
    ensures Calls(role, Start(items), ns).marks[i] <==> Marked(items[i]) && !Cut(role, Start(items), ns, items, i)
  {
    hide AllClean, Stands, Call, Fits, Cut;
    FreshStands(role, items);
    var k, lost := CallsStand(role, Start(items), ns, items, 0, false);
  }

  lemma {:induction false} PrefixOfBodies(role: Role, l: Line, items: seq<Item>, k: nat, lost: bool)
    requires Stands(role, l, items, k, lost)
    ensures l.got <= Bodies(items)
    decreases |items| - k
  {
    hide At;
    BodiesSplit(items, k);
  }

  lemma {:induction false} BodiesSplit(items: seq<Item>, k: nat)
    requires k <= |items|
    ensures Bodies(items) == Bodies(items[..k]) + Bodies(items[k..])
  {
    if k > 0 {
      BodiesSplit(items[1..], k - 1);
      assert items[1..][..k - 1] == items[..k][1..] && items[1..][k - 1..] == items[k..];
    } else {
      assert items[0..] == items;
    }
  }

  lemma {:induction false} BodiesCount(items: seq<Item>)
    ensures |Bodies(items)| == |items|
  {
    if items != [] {
      BodiesCount(items[1..]);
    }
  }

  lemma StaysDone(role: Role, l: Line, ns: seq<nat>, items: seq<Item>, k: nat, lost: bool)
    requires Stands(role, l, items, k, lost) && Framed(l.rx) && Fits(role, l, ns) && l.got == Bodies(items)
    ensures Calls(role, l, ns).got == Bodies(items)
  {
    hide At, Call, Calls, Fits;
    BodiesCount(items);
    BodiesCount(items[..k]);
    var k', _ := CallsStand(role, l, ns, items, k, lost);
    assert items[..k'] == items;
  }

  lemma StandsBound(role: Role, l: Line, items: seq<Item>, k: nat, lost: bool)
    requires Stands(role, l, items, k, lost)
    ensures k <= |items| && |l.marks| == k
  {
  }

  // Once everything has arrived, one call per frame still missing and one more finish the job.
  lemma {:induction false} CallsDrain(role: Role, l: Line, items: seq<Item>, k: nat, lost: bool, ns: seq<nat>)
    requires Stands(role, l, items, k, lost) && l.coming == [] && Framed(l.rx)
    requires Fits(role, l, ns) && |ns| > |items| - k
    ensures Calls(role, l, ns).got == Bodies(items)
    decreases |ns|
  {
    hide Stands, Call, Bodies, Cuts;
    StandsBound(role, l, items, k, lost);
    CallStands(role, l, ns[0], items, k, lost);
    var m := Call(role, l, ns[0]);
    assert m.coming == [];
    if m.got == l.got {
      var lost' := lost || (k < |items| && Cuts(l, ns[0], items, k));
      NothingLeft(role, m, items, k, lost');
      StaysDone(role, m, ns[1..], items, k, lost');
    } else {
      CallsDrain(role, m, items, k + 1, false, ns[1..]);
    }
  }
}
