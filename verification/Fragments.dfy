// Fragments of multi-part transfers as packets. A sender fills the room a packet leaves it but for a
// fixed reserve (OSDP_MP_SC_RESERVE) for what the secure channel will add; whether the packet can then
// be built depends on how much padding the last block needs.
module Fragments {
  import opened Bytes
  import opened SecureChannel
  import opened Packet
  import opened PacketRoundTrip
  import Multipart

  const CMD_POLL: byte := 0x60
  const POLL := Msg(CMD_POLL, [])
  const ACK := Msg(REPLY_ACK, [])

  // ---- Room and length ----

  // What is left for data after header, security block and id: the max_len a command or reply
  // builder gets.
  function Room(e: End, size: int): int {
    size - MarkLen(e.mark) - HDR - (if e.session.Some? then 2 else 0) - 1
  }

  // Length on the wire of a message with n bytes of data.
  function FrameLen(e: End, n: nat): nat {
    MarkLen(e.mark) + HDR + 1
    + (if e.session.Some? then 2 + (if n > 0 then PadLen(n + 1) else 0) + 4 else n)
    + (if e.SendsCrc() then 2 else 1)
  }

  predicate Plain(e: End, m: Msg) { !IsBusy(e.role, m.id) && !InHandshake(e.role, m.id) }

  lemma WireLenIs(e: End, m: Msg)
    requires Plain(e, m)
    ensures WireLen(e, m, 0) == FrameLen(e, |m.data|)
  {
  }

  // More data never makes a shorter packet.
  lemma LongerIsLonger(e: End, n: nat, k: nat)
    requires 0 < n <= k
    ensures FrameLen(e, n) <= FrameLen(e, k)
  {
    assert (n + 16) / 16 <= (k + 16) / 16;
  }

  // The largest fragment: a command's reserve counts its id a second time.
  function Fragment(e: End, size: int): int {
    Room(e, size) - (if e.role == Cp then 1 else 0) - Multipart.SC_RESERVE
  }

  // A packet filled to its fragment limit can be built exactly when the padding after it fits the
  // reserve; without a session it always can.
  lemma FullFragmentFits(e: End, size: int)
    requires size >= MINIMUM_PACKET_SIZE
    ensures Fragment(e, size) > 8
    ensures e.session == None ==> FrameLen(e, Fragment(e, size)) <= size
    ensures e.session.Some? ==>
              var x := Fragment(e, size) + 1;
              && x == size - MarkLen(e.mark) - (if e.role == Cp then 24 else 23)
              && (FrameLen(e, Fragment(e, size)) <= size
                  <==> x % 16 == 0 || x % 16 >= (if e.role == Pd then 7 else if e.useCrc then 6 else 5))
  {
    var x := Fragment(e, size) + 1;
    if e.session.Some? {
      PadGap(x);
    }
  }

  lemma PadGap(x: nat)
    ensures PadLen(x) - x == if x % 16 == 0 then 0 else 16 - x % 16
  {
  }

  // A 256-byte challenge to a device with a 250-byte buffer, mark and CRC on, under a session: the
  // first fragment is 224 bytes, its packet would be 255, and it cannot be built.
  lemma FullFragmentAt250(a: Algorithms, e: End, m: Msg)
    requires a.Valid() && e.Valid() && e.role == Cp && e.mark && e.useCrc && e.session.Some? && Plain(e, m)
    requires |m.data| == Fragment(e, 250)
    ensures |m.data| == 224 && FrameLen(e, 224) == 255
    ensures Build(a, e, m, 0, 250) == None
  {
    hide Build, WireLen;
    BuildFits(a, e, m, 0, 250);
    WireLenIs(e, m);
  }

  // ---- Crossing the link ----

  // Both ends of an established link and the packet size each may send.
  datatype Ends = Ends(cp: End, pd: End, cpSize: int, pdSize: int) {
    predicate Valid() {
      cp.Valid() && pd.Valid() && cpSize >= MINIMUM_PACKET_SIZE && pdSize >= MINIMUM_PACKET_SIZE
    }
  }

  // One message built at one end, framed, checked and decoded at the other; a device answers with a
  // mark if it saw one.
  function Cross(a: Algorithms, tx: End, rx: End, m: Msg, size: int): (r: Option<(End, End, Msg)>)
    requires a.Valid() && tx.Valid() && rx.Valid()
    ensures r.Some? ==> r.value.0.Valid() && r.value.1.Valid()
  {
    hide Build, ValidateHeader, Decode, Intact;
    match Build(a, tx, m, 0, size)
    case None => None
    case Some((w, s)) =>
      (match ValidateHeader(rx.role, w, PACKET_BUF_SIZE)
       case HdrErr(_) => None
       case Frame(n, mark) =>
         var pkt := w[MarkLen(mark)..];
         if n != |w| || |pkt| <= HDR || |pkt| < HDR + CheckLen(pkt[4]) || !CheckPacket(a, rx, None, pkt).Pass? then None
         else
           match Decode(a, rx, pkt)
           case Payload(p, s') =>
             if p == [] then None
             else Some((tx.(session := s), rx.(session := s', mark := if rx.role == Pd then mark else rx.mark), Msg(p[0], p[1..])))
           case _ => None)
  }

  function CrossCommand(a: Algorithms, x: Ends, m: Msg): (r: Option<(Ends, Msg)>)
    requires a.Valid() && x.Valid()
    ensures r.Some? ==> r.value.0.Valid()
  {
    match Cross(a, x.cp, x.pd, m, x.cpSize)
    case None => None
    case Some((cp, pd, got)) => Some((x.(cp := cp.(cmdId := m.id), pd := pd.(cmdId := got.id)), got))
  }

  // The reply ends the exchange: both ends move on to the next sequence number.
  function CrossReply(a: Algorithms, x: Ends, m: Msg): (r: Option<(Ends, Msg)>)
    requires a.Valid() && x.Valid()
    ensures r.Some? ==> r.value.0.Valid()
  {
    match Cross(a, x.pd, x.cp, m, x.pdSize)
    case None => None
    case Some((pd, cp, got)) => Some((x.(cp := cp.(sqn := NextSeq(cp.sqn)), pd := pd.(sqn := NextSeq(pd.sqn))), got))
  }

  // Established: in step, one session or none.
  predicate Coupled(x: Ends) {
    && x.Valid() && x.cp.role == Cp && x.pd.role == Pd && x.cp.address == x.pd.address && x.cp.session == x.pd.session
    && x.cp.sqn >= 0 && x.pd.sqn >= 0 && NextSeq(x.cp.sqn) == NextSeq(x.pd.sqn) && x.pd.scCapable
    && MINIMUM_PACKET_SIZE <= x.cpSize <= PACKET_BUF_SIZE && MINIMUM_PACKET_SIZE <= x.pdSize <= PACKET_BUF_SIZE
  }

  // All that lengths depend on.
  predicate SameRoom(e: End, e': End) {
    e.role == e'.role && e.mark == e'.mark && e.useCrc == e'.useCrc && e.session.Some? == e'.session.Some?
  }

  lemma Crosses(a: Algorithms, tx: End, rx: End, m: Msg, size: int)
    requires a.Valid() && Paired(tx, rx, m) && Plain(tx, m) && MINIMUM_PACKET_SIZE <= size <= PACKET_BUF_SIZE
    requires tx.sqn >= 0 && rx.sqn >= 0
    ensures Cross(a, tx, rx, m, size).Some? <==> FrameLen(tx, |m.data|) <= size
    ensures match Cross(a, tx, rx, m, size)
            case None => true
            case Some((tx', rx', got)) =>
              && got == m && tx'.session == rx'.session && (tx'.session.Some? <==> tx.session.Some?)
              && tx' == tx.(session := tx'.session)
              && rx' == rx.(session := rx'.session, mark := if rx.role == Pd then tx.mark else rx.mark)
  {
    hide Build, ValidateHeader, CheckPacket, Decode, WireLen;
    BuildFits(a, tx, m, 0, size);
    WireLenIs(tx, m);
    if FrameLen(tx, |m.data|) <= size {
      RoundTrip(a, tx, rx, None, m, 0, size);
      SessionStays(a, tx, m, size);
      assert ([m.id] + m.data)[1..] == m.data;
    }
  }

  lemma SessionStays(a: Algorithms, e: End, m: Msg, size: int)
    requires a.Valid() && e.Valid() && Build(a, e, m, 0, size).Some?
    ensures Build(a, e, m, 0, size).value.1.Some? <==> e.session.Some?
  {
    hide CheckBytes, Image, MacChain, CbcEncrypt;
  }

  lemma CoupledPairs(x: Ends, m: Msg)
    requires Coupled(x)
    ensures Paired(x.cp, x.pd, m) && Paired(x.pd, x.cp, m)
  {
  }

  // A command gets across an established link exactly when its packet fits, as it was sent, and
  // leaves the link established.
  lemma CommandCrosses(a: Algorithms, x: Ends, m: Msg)
    requires a.Valid() && Coupled(x) && Plain(x.cp, m)
    ensures CrossCommand(a, x, m).Some? <==> FrameLen(x.cp, |m.data|) <= x.cpSize
    ensures match CrossCommand(a, x, m)
            case None => true
            case Some((y, got)) =>
              && got == m && Coupled(y) && SameRoom(y.cp, x.cp) && SameRoom(y.pd, x.pd.(mark := x.cp.mark))
              && y.cpSize == x.cpSize && y.pdSize == x.pdSize
  {
    hide Cross, FrameLen, Paired, Plain;
    CoupledPairs(x, m);
    Crosses(a, x.cp, x.pd, m, x.cpSize);
  }

  lemma ReplyCrosses(a: Algorithms, x: Ends, m: Msg)
    requires a.Valid() && Coupled(x) && Plain(x.pd, m)
    ensures CrossReply(a, x, m).Some? <==> FrameLen(x.pd, |m.data|) <= x.pdSize
    ensures match CrossReply(a, x, m)
            case None => true
            case Some((y, got)) =>
              && got == m && Coupled(y) && SameRoom(y.cp, x.cp) && SameRoom(y.pd, x.pd)
              && y.cpSize == x.cpSize && y.pdSize == x.pdSize
  {
    hide Cross, FrameLen, Paired, Plain;
    CoupledPairs(x, m);
    Crosses(a, x.pd, x.cp, m, x.pdSize);
  }

  // The short messages that carry no data always fit.
  lemma ShortFits(e: End, size: int)
    requires size >= MINIMUM_PACKET_SIZE
    ensures forall n: nat :: n <= 8 ==> FrameLen(e, n) <= size
  {
  }

  // Ends on which the same things fit.
  predicate SameEnds(x: Ends, y: Ends) {
    && SameRoom(y.cp, x.cp) && SameRoom(y.pd.(mark := y.cp.mark), x.pd.(mark := x.cp.mark))
    && y.cpSize == x.cpSize && y.pdSize == x.pdSize
  }

  lemma SameLen(e: End, e': End, n: int)
    requires SameRoom(e, e')
    ensures n >= 0 ==> FrameLen(e, n) == FrameLen(e', n)
  {
  }

  // Once across, the link is as before, and the device marks as the panel does.
  predicate Moved(x: Ends, y: Ends) { Coupled(y) && SameEnds(x, y) && y.pd.mark == y.cp.mark }

  lemma MovedOn(x: Ends, y: Ends, z: Ends)
    requires SameEnds(x, y) && Moved(y, z)
    ensures Moved(x, z)
  {
    hide Coupled;
  }

  lemma CommandMoves(a: Algorithms, x: Ends, m: Msg)
    requires a.Valid() && Coupled(x) && !InHandshake(Cp, m.id)
    ensures CrossCommand(a, x, m).Some? <==> FrameLen(x.cp, |m.data|) <= x.cpSize
    ensures CrossCommand(a, x, m).Some? ==> CrossCommand(a, x, m).value.1 == m && Moved(x, CrossCommand(a, x, m).value.0)
  {
    hide CrossCommand;
    CommandCrosses(a, x, m);
  }

  lemma ReplyMoves(a: Algorithms, x: Ends, m: Msg)
    requires a.Valid() && Coupled(x) && x.pd.mark == x.cp.mark && !InHandshake(Pd, m.id) && m.id != REPLY_BUSY
    ensures CrossReply(a, x, m).Some? <==> FrameLen(x.pd, |m.data|) <= x.pdSize
    ensures CrossReply(a, x, m).Some? ==> CrossReply(a, x, m).value.1 == m && Moved(x, CrossReply(a, x, m).value.0)
  {
    hide CrossReply;
    ReplyCrosses(a, x, m);
  }

  // The room of a command packet, in the engine's terms.
  lemma CommandRoom(e: End, size: int)
    requires e.role == Cp && MINIMUM_PACKET_SIZE <= size <= PACKET_BUF_SIZE
    ensures Fragment(e, size) == Room(e, size) - 1 - Multipart.SC_RESERVE > 8 && Room(e, size) < 0x1_0000
  {
  }

  lemma ReplyRoom(e: End, size: int)
    requires e.role == Pd && MINIMUM_PACKET_SIZE <= size <= PACKET_BUF_SIZE
    ensures Fragment(e, size) == Room(e, size) - Multipart.SC_RESERVE > 8 && Room(e, size) < 0x1_0000
  {
  }

  lemma CoupledFacts(x: Ends)
    requires Coupled(x)
    ensures x.Valid() && x.cp.role == Cp && x.pd.role == Pd
    ensures MINIMUM_PACKET_SIZE <= x.cpSize <= PACKET_BUF_SIZE && MINIMUM_PACKET_SIZE <= x.pdSize <= PACKET_BUF_SIZE
  {
  }
}
