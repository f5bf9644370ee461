// The packet codec of src/osdp_phy.c: header, security block, payload, MAC and check bytes on the
// way out; framing, integrity, address, sequence and secure-channel checks on the way in.
module Packet {
  import opened Bytes
  import opened SecureChannel

  const MARK: byte := 0xFF
  const SOM: byte := 0x53
  const BROADCAST: byte := 0x7F
  const HDR := 5
  const PACKET_BUF_SIZE := 256
  const MINIMUM_PACKET_SIZE := 128

  const SCS_11: byte := 0x11
  const SCS_12: byte := 0x12
  const SCS_13: byte := 0x13
  const SCS_14: byte := 0x14
  const SCS_15: byte := 0x15
  const SCS_16: byte := 0x16
  const SCS_17: byte := 0x17
  const SCS_18: byte := 0x18

  const CMD_KEYSET: byte := 0x75
  const CMD_CHLNG: byte := 0x76
  const CMD_SCRYPT: byte := 0x77
  const REPLY_ACK: byte := 0x40
  const REPLY_NAK: byte := 0x41
  const REPLY_CCRYPT: byte := 0x76
  const REPLY_RMAC_I: byte := 0x78
  const REPLY_BUSY: byte := 0x79

  const NAK_MSG_CHK: byte := 1
  const NAK_SEQ_NUM: byte := 4
  const NAK_SC_UNSUP: byte := 5
  const NAK_SC_COND: byte := 6

  datatype Role = Cp | Pd

  // Algorithms the link is built from but does not define: the block cipher and the CRC-16.
  datatype Algorithms = Algorithms(cipher: Cipher, crc: seq<byte> -> nat) {
    ghost predicate Valid() {
      cipher.Valid() && forall s: seq<byte> :: crc(s) < 0x1_0000
    }
  }

  // What the codec reads of struct osdp_pd at one end of the link.
  datatype End = End(
    role: Role,
    address: nat,
    mark: bool,           // PD_FLAG_PKT_HAS_MARK
    useCrc: bool,         // PD_FLAG_CP_USE_CRC; a PD always sends CRC-16
    broadcast: bool,      // PD_FLAG_PKT_BROADCAST
    scCapable: bool,
    allowEmpty: bool,     // PD_FLAG_ALLOW_EMPTY_EDB
    enforceSecure: bool,
    cmdId: byte,          // command the CP is waiting on
    sqn: int,             // -1 after a reset, else 0..3
    session: Option<Session>)
  {
    predicate Valid() {
      address < 0x7F && -1 <= sqn <= 3
    }

    predicate SendsCrc() { role == Pd || useCrc }
  }

  datatype Msg = Msg(id: byte, data: seq<byte>)

  datatype PktErr = PktFmt | PktWait | PktSkip | PktCheck

  // ---- Sequence numbers ----

  function NextSeq(s: int): (n: int)
    ensures -1 <= s <= 3 ==> 0 <= n <= 3 && n != s
  {
    if s + 1 > 3 then 1 else s + 1
  }

  function Rollback(s: int): int {
    if s - 1 < 1 then 3 else s - 1
  }

  // Rolling a nonzero number back makes it the next one again, across the 3 -> 1 wrap too.
  lemma RollbackThenNext(s: int)
    requires 1 <= s <= 3
    ensures NextSeq(Rollback(s)) == s
  {
  }

  // ---- Header fields ----

  function Control(seqNo: int, crc: bool, scb: bool): byte
    requires 0 <= seqNo <= 3
  {
    seqNo + (if crc then 4 else 0) + (if scb then 8 else 0)
  }

  function SeqOf(control: byte): (s: nat)
    ensures s <= 3
  {
    control % 4
  }

  predicate HasCrc(control: byte) { control / 4 % 2 == 1 }

  predicate HasScb(control: byte) { control / 8 % 2 == 1 }

  lemma ControlFields(seqNo: int, crc: bool, scb: bool)
    requires 0 <= seqNo <= 3
    ensures SeqOf(Control(seqNo, crc, scb)) == seqNo
    ensures HasCrc(Control(seqNo, crc, scb)) == crc
    ensures HasScb(Control(seqNo, crc, scb)) == scb
  {
  }

  // The upper half of the control byte says nothing.
  lemma ReservedBits(control: byte)
    ensures SeqOf(control) == SeqOf(control % 16)
    ensures HasCrc(control) == HasCrc(control % 16) && HasScb(control) == HasScb(control % 16)
  {
    var q, r := control / 16, control % 16;
    assert control == 16 * q + r && control / 4 == 4 * q + r / 4 && control / 8 == 2 * q + r / 8;
  }

  function CheckLen(control: byte): nat {
    if HasCrc(control) then 2 else 1
  }

  function MarkLen(mark: bool): nat {
    if mark then 1 else 0
  }

  function Sum(msg: seq<byte>): nat {
    if msg == [] then 0 else Sum(msg[..|msg| - 1]) + msg[|msg| - 1]
  }

  function Checksum(msg: seq<byte>): byte {
    (256 - Sum(msg) % 256) % 256
  }

  // The checksum byte brings the sum of the packet to a multiple of 256.
  lemma ChecksumBalances(msg: seq<byte>)
    ensures (Sum(msg) + Checksum(msg)) % 256 == 0
  {
    var s := Sum(msg);
    assert s == s / 256 * 256 + s % 256;
  }

  method ComputeChecksum(msg: seq<byte>) returns (checksum: byte)
    ensures checksum == Checksum(msg)
  {
    var whole: nat := 0;
    checksum := 0;
    for i := 0 to |msg|
      invariant whole == Sum(msg[..i])
      invariant checksum == Checksum(msg[..i])
    {
      assert msg[..i + 1][..i] == msg[..i];
      whole := whole + msg[i];
      checksum := (255 - whole % 256 + 1) % 256;
    }
    assert msg[..|msg|] == msg;
  }

  // ---- Building ----

  predicate InHandshake(role: Role, id: byte) {
    match role
    case Cp => id == CMD_CHLNG || id == CMD_SCRYPT
    case Pd => id == REPLY_CCRYPT || id == REPLY_RMAC_I
  }

  predicate IsBusy(role: Role, id: byte) {
    role == Pd && id == REPLY_BUSY
  }

  function AddressByte(e: End): byte
    requires e.address < 0x7F
  {
    (if e.broadcast then BROADCAST else e.address) + (if e.role == Pd then 0x80 else 0)
  }

  // Security block: none for BUSY; MAC'd types under a session, encrypted when there is data;
  // handshake types while a session is being set up.
  function SecurityBlock(e: End, m: Msg, key: byte): (s: seq<byte>) {
    if IsBusy(e.role, m.id) then []
    else if e.session.Some? then
      [2, if e.role == Cp then (if m.data != [] then SCS_17 else SCS_15)
          else (if m.data != [] then SCS_18 else SCS_16)]
    else if InHandshake(e.role, m.id) then
      [3, match e.role
          case Cp => (if m.id == CMD_CHLNG then SCS_11 else SCS_13)
          case Pd => (if m.id == REPLY_CCRYPT then SCS_12 else SCS_14),
       key]
    else []
  }

  // What a security block says of a packet: who sent it, and whether its sender is under a session or
  // setting one up, with data or without: odd types are the panel's, from 15 on they come with a MAC, 17 and
  // 18 with data.
  lemma BlockSays(e: End, m: Msg, key: byte)
    ensures var s := SecurityBlock(e, m, key);
            && (s != [] ==> |s| == s[0] >= 2 && 0x11 <= s[1] <= 0x18 && (s[1] % 2 == 1 <==> e.role == Cp))
            && (s != [] && s[1] >= 0x15 <==> e.session.Some? && !(e.role == Pd && m.id == 0x79))
            && (s != [] && s[1] >= 0x15 ==> (s[1] >= 0x17 <==> m.data != []))
            && (s != [] && s[1] <= 0x14 ==>
                  && |s| == 3 && s[2] == key
                  && m.id == (if s[1] <= 0x12 then 0x76 else if s[1] == 0x13 then 0x77 else 0x78))
            && (e.session == None && m.id in (if e.role == Cp then {0x76, 0x77} else {0x76, 0x78}) ==> s != [])
  {
  }

  function TxSeq(e: End, m: Msg): (s: int)
    requires e.Valid()
    ensures 0 <= s <= 3
  {
    if IsBusy(e.role, m.id) then 0 else NextSeq(e.sqn)
  }

  // A packet whose length field is still blank: what osdp_phy_packet_init and the payload writer
  // leave in the buffer. payload is the id byte and its data block.
  datatype Draft = Draft(addr: byte, control: byte, scb: seq<byte>, payload: seq<byte>) {
    predicate Valid() {
      |payload| > 0 && (scb != [] <==> HasScb(control)) && (scb != [] ==> |scb| >= 2 && scb[0] == |scb|)
    }

    function Len(): nat { HDR + |scb| + |payload| }
  }

  function Init(e: End, m: Msg, key: byte): (d: Draft)
    requires e.Valid()
    ensures d.Valid()
  {
    var scb := SecurityBlock(e, m, key);
    Draft(AddressByte(e), Control(TxSeq(e, m), e.SendsCrc(), scb != []), scb, [m.id] + m.data)
  }

  // The bytes after the mark, with n in the length field.
  function Image(d: Draft, n: nat): (r: seq<byte>)
    ensures |r| == d.Len() && r[0] == SOM && r[1] == d.addr && r[2..4] == Le16(n % 0x1_0000) && r[4] == d.control
    ensures r[HDR..] == d.scb + d.payload
  {
    [SOM, d.addr] + Le16(n % 0x1_0000) + [d.control] + (d.scb + d.payload)
  }

  // Types 17 and 18 encrypt what follows the id byte.
  predicate Encrypts(d: Draft)
    requires d.Valid() && d.scb != []
  {
    d.scb[1] == SCS_17 || d.scb[1] == SCS_18
  }

  function Sealed(a: Algorithms, isCmd: bool, s: Session, d: Draft): (r: Draft)
    requires d.Valid() && d.scb != []
    ensures r.Valid() && r.scb == d.scb && r.control == d.control && r.payload[0] == d.payload[0]
  {
    if Encrypts(d) then d.(payload := [d.payload[0]] + EncryptData(a.cipher, s, isCmd, d.payload[1..])) else d
  }

  function OwnMac(isCmd: bool, s: Session): Block {
    if isCmd then s.cMac else s.rMac
  }

  // Encrypted if need be, and MAC'd; None is the out-of-space error.
  function Protect(a: Algorithms, isCmd: bool, s: Session, d: Draft, maxLen: int)
    : (r: Option<(seq<byte>, Session)>)
    requires d.Valid() && d.scb != []
    ensures r.Some? ==> |r.value.0| > HDR && r.value.0[4] == d.control
  {
    if Encrypts(d) && PadLen(|d.payload|) > maxLen then None else
    var d' := Sealed(a, isCmd, s, d);
    if d'.Len() + 4 > maxLen then None else
    var image := Image(d', d'.Len() + CheckLen(d.control) + 4);
    var s' := WithMac(a.cipher, s, isCmd, image);
    Some((image + OwnMac(isCmd, s')[..4], s'))
  }

  function CheckBytes(a: Algorithms, buf: seq<byte>): (r: seq<byte>)
    requires a.Valid() && |buf| >= HDR
    ensures |r| == CheckLen(buf[4])
  {
    if HasCrc(buf[4]) then Le16(a.crc(buf)) else [Checksum(buf)]
  }

  // osdp_phy_finalize_packet on the bytes after the mark, with maxLen already charged for it.
  function Finalize(a: Algorithms, e: End, d: Draft, maxLen: int)
    : (r: Option<(seq<byte>, Option<Session>)>)
    requires a.Valid() && d.Valid()
  {
    if e.session.Some? && d.scb != [] && d.scb[1] >= SCS_15 then
      match Protect(a, e.role == Cp, e.session.value, d, maxLen)
      case None => None
      case Some((out, s')) =>
        if |out| + CheckLen(d.control) > maxLen then None
        else Some((out + CheckBytes(a, out), Some(s')))
    else if d.Len() + CheckLen(d.control) > maxLen then None
    else
      var out := Image(d, d.Len() + CheckLen(d.control));
      Some((out + CheckBytes(a, out), e.session))
  }

  function WithMark(mark: bool, out: seq<byte>): (r: seq<byte>)
    ensures |r| == |out| + MarkLen(mark)
    ensures r[MarkLen(mark)..] == out
  {
    if mark then [MARK] + out else out
  }

  // The whole transmit path. None when the packet does not fit maxLen.
  function Build(a: Algorithms, e: End, m: Msg, key: byte, maxLen: int)
    : (r: Option<(seq<byte>, Option<Session>)>)
    requires a.Valid() && e.Valid()
  {
    if maxLen < MINIMUM_PACKET_SIZE then None else
    var f := Finalize(a, e, Init(e, m, key), maxLen - MarkLen(e.mark));
    if f.None? then None else Some((WithMark(e.mark, f.value.0), f.value.1))
  }

  // ---- Receiving ----

  datatype Header = HdrErr(err: PktErr) | Frame(len: nat, mark: bool)

  // phy_validate_header
  function ValidateHeader(role: Role, buf: seq<byte>, maxLen: nat): Header {
    if |buf| < HDR then HdrErr(PktWait)
    else
      var mark := buf[0] == MARK && buf[1] == SOM;
      if !mark && buf[0] != SOM then HdrErr(PktFmt)
      else
        var h := if mark then buf[1..] else buf;
        var len := FromLe16(h[2], h[3]);
        if len + MarkLen(mark) > maxLen || len < HDR + 1 then HdrErr(PktFmt)
        else if (role == Pd) == (h[1] >= 0x80) then HdrErr(PktSkip)
        else Frame(len + MarkLen(mark), mark)
  }

  // What phy_check_packet makes of a complete frame.
  datatype Check =
    | Reject(err: PktErr)
    | Busy
    | Resend                                  // repeat the cached reply, nothing else happens
    | OutOfSequence(sqn: int, keepCache: bool)
    | Pass(sqn: int, keepCache: bool, restart: bool)

  predicate Intact(a: Algorithms, pkt: seq<byte>)
    requires a.Valid() && |pkt| > HDR
  {
    var n := |pkt| - CheckLen(pkt[4]);
    n >= HDR && CheckBytes(a, pkt[..n]) == pkt[n..]
  }

  // Payload offset: after the header and, if there is one, the security block.
  function ScbLen(pkt: seq<byte>): nat
    requires |pkt| > HDR
  {
    if HasScb(pkt[4]) then pkt[HDR] else 0
  }

  // cached: id of the command whose reply is still in the transmit buffer.
  function CheckPacket(a: Algorithms, e: End, cached: Option<byte>, pkt: seq<byte>): (r: Check)
    requires a.Valid() && e.Valid() && |pkt| > HDR
  {
    var to := pkt[1] % 0x80;
    var comp := SeqOf(pkt[4]);
    if !Intact(a, pkt) then Reject(PktFmt)
    else if to != e.address && to != BROADCAST then Reject(if e.role == Cp then PktCheck else PktSkip)
    else if e.role == Cp then
      if comp == 0 && |pkt| - CheckLen(pkt[4]) == HDR + 1 && pkt[HDR] == REPLY_BUSY && !HasScb(pkt[4]) then Busy
      else if NextSeq(e.sqn) != comp then OutOfSequence(e.sqn, true)
      else Pass(e.sqn, true, false)
    else if comp == 0 then Pass(-1, false, true)
    else if comp == e.sqn then
      if cached.Some? && HDR + ScbLen(pkt) < |pkt| && pkt[HDR + ScbLen(pkt)] == cached.value then Resend
      else Pass(Rollback(e.sqn), false, false)
    else if NextSeq(e.sqn) != comp then OutOfSequence(e.sqn, true)
    else Pass(e.sqn, true, false)
  }

  datatype Decoded =
    | DecodeNak(code: byte, session: Option<Session>)
    | Payload(bytes: seq<byte>, session: Option<Session>)

  // osdp_phy_decode_packet on an intact frame, without the mark byte.
  function Decode(a: Algorithms, e: End, pkt: seq<byte>): (r: Decoded)
    requires |pkt| > HDR && |pkt| >= HDR + CheckLen(pkt[4])
  {
    var body := pkt[..|pkt| - CheckLen(pkt[4])];
    var isCmd := e.role == Pd;
    if HasScb(pkt[4]) then
      if isCmd && !e.scCapable then DecodeNak(NAK_SC_UNSUP, e.session)
      else if |body| < HDR + 2 || |body| < HDR + pkt[HDR] then DecodeNak(NAK_SC_COND, e.session)
      else if pkt[HDR + 1] < SCS_11 || pkt[HDR + 1] > SCS_18 then DecodeNak(NAK_SC_COND, e.session)
      else if e.session.None? then
        if pkt[HDR + 1] > SCS_14 then DecodeNak(NAK_SC_COND, None)
        else Payload(body[HDR + pkt[HDR]..], None)
      else if pkt[HDR + 1] < SCS_15 then Payload(body[HDR + pkt[HDR]..], e.session)
      else DecodeSecure(a, e, e.session.value, body)
    else if e.session.Some? &&
      !(e.role == Cp && e.cmdId == CMD_KEYSET && pkt[HDR] == REPLY_ACK && !e.enforceSecure)
    then DecodeNak(NAK_SC_COND, e.session)
    else Payload(body[HDR..], e.session)
  }

  // A MAC that does not check out ends the session.
  function DecodeSecure(a: Algorithms, e: End, s: Session, body: seq<byte>): (r: Decoded)
    requires |body| >= HDR + 2 && |body| >= HDR + body[HDR]
  {
    var isCmd := e.role == Pd;
    var macAt := |body| - 4;
    var payloadAt := HDR + body[HDR];
    if macAt < payloadAt then DecodeNak(NAK_SC_COND, None) else
    var s' := WithMac(a.cipher, s, isCmd, body[..macAt]);
    if body[macAt..] != OwnMac(isCmd, s')[..4] then DecodeNak(NAK_SC_COND, None)
    else if body[HDR + 1] != SCS_17 && body[HDR + 1] != SCS_18 then
      Payload(body[payloadAt..macAt], Some(s'))
    else if macAt == payloadAt then DecodeNak(NAK_SC_COND, None)
    else
      // The data IV uses the MAC of the other direction, which WithMac has left alone.
      match DecryptData(a.cipher, s', isCmd, e.allowEmpty, body[payloadAt + 1..macAt])
      case None => DecodeNak(NAK_SC_COND, None)
      case Some(d) => Payload([body[payloadAt]] + d, Some(s'))
  }
}
