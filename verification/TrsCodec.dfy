// Card commands on the wire (src/osdp_trs.c): what cp_band_admit lets in, what the panel builds of it
// and what a device in transparent mode makes of that.
module TrsCodec {
  import opened Bytes
  import opened SecureChannel
  import opened Packet
  import opened PacketRoundTrip

  const CMD_XWR: byte := 0xA1
  const APDU_MAX_LEN := 258     // OSDP_TRS_APDU_MAX_LEN
  const WIRE_OVERHEAD := 40     // osdp_trs_max_apdu_len
  const PIN_OVERHEAD := 19      // TRS_PIN_ENTRY_OVERHEAD

  // The enumeration starts at 1; any other value is not a format.
  datatype PinEntry = PinEntry(
    timeoutInitial: byte, timeoutDigit: byte,
    format: int, rightJustify: bool, offsetBits: nat, sizeBytes: byte,
    lenSizeBits: byte, lenOffsetBits: nat,
    minDigits: byte, maxDigits: byte, completeOn: nat,
    numMessages: byte, languageId: nat, msgIndex: byte, teo0: byte, teo1: byte, teo2: byte,
    apdu: seq<byte>)

  datatype Command = SendApdu(data: seq<byte>) | EnterPin(pin: PinEntry) | CardScan

  // The C types of the fields.
  predicate Typed(c: Command) {
    match c
    case SendApdu(d) => |d| <= APDU_MAX_LEN
    case EnterPin(p) => |p.apdu| <= APDU_MAX_LEN && p.languageId < 0x1_0000 && p.offsetBits < 0x1_0000 && p.lenOffsetBits < 0x1_0000
    case CardScan => true
  }

  function Be16(v: int): (s: seq<byte>)
    requires 0 <= v < 0x1_0000
    ensures |s| == 2
  {
    [v / 256, v % 256]
  }

  // ---- Bit-packed positions ----

  // trs_pin_pos_to_wire: a 4-bit offset, in bytes or in bits.
  function PosToWire(bits: nat): (r: Option<(nat, bool)>)
    ensures r.Some? ==> r.value.0 <= 15
  {
    if bits % 8 == 0 && bits / 8 <= 15 then Some((bits / 8, true))
    else if bits <= 15 then Some((bits, false))
    else None
  }

  // trs_pin_pos_from_wire
  function PosFromWire(offset: nat, bytes: bool): nat { offset * (if bytes then 8 else 1) }

  // ---- Admission ----

  // osdp_trs_pin_entry_check
  predicate PinOk(p: PinEntry) {
    && 1 <= p.format <= 3 && PosToWire(p.offsetBits).Some? && PosToWire(p.lenOffsetBits).Some?
    && p.lenSizeBits <= 15 && p.sizeBytes <= 15
  }

  // osdp_trs_apdu_capacity for a packet of txSize bytes.
  function Capacity(c: Command, txSize: int): int {
    (if txSize - WIRE_OVERHEAD > APDU_MAX_LEN then APDU_MAX_LEN else txSize - WIRE_OVERHEAD)
    - (if c.EnterPin? then PIN_OVERHEAD else 0)
  }

  // cp_band_admit's checks on the command itself.
  predicate Admitted(c: Command, txSize: int) {
    match c
    case SendApdu(d) => |d| <= Capacity(c, txSize)
    case EnterPin(p) => PinOk(p) && |p.apdu| <= Capacity(c, txSize)
    case CardScan => true
  }

  // ---- osdp_trs_cmd_build ----

  predicate Bit(v: nat, k: nat) { v / Pow2(k) % 2 == 1 }

  // bmFormatString: offset unit, PIN offset, justification, format.
  function FormatByte(p: PinEntry): byte
    requires PinOk(p)
  {
    var (at, bytes) := PosToWire(p.offsetBits).value;
    (p.format - 1) + (if p.rightJustify then 4 else 0) + 8 * at + (if bytes then 128 else 0)
  }

  // bmPINLengthFormat: offset unit, offset of the PIN-length field.
  function LenFormatByte(p: PinEntry): byte
    requires PinOk(p)
  {
    var (at, bytes) := PosToWire(p.lenOffsetBits).value;
    at + (if bytes then 16 else 0)
  }

  // bEntryValidationCondition
  function ConditionByte(v: nat): byte {
    (if Bit(v, 0) then 1 else 0) + (if Bit(v, 1) then 2 else 0) + (if Bit(v, 2) then 4 else 0)
  }

  function PinParams(p: PinEntry): (s: seq<byte>)
    requires PinOk(p) && p.languageId < 0x1_0000
    ensures |s| == 15
  {
    [p.timeoutInitial, p.timeoutDigit, FormatByte(p), 16 * p.lenSizeBits + p.sizeBytes, LenFormatByte(p),
     p.minDigits, p.maxDigits, ConditionByte(p.completeOn), p.numMessages]
    + Be16(p.languageId) + [p.msgIndex, p.teo0, p.teo1, p.teo2]
  }

  function Build(c: Command, maxLen: int): Option<seq<byte>>
    requires Typed(c)
  {
    if maxLen < 3 then None
    else
      match c
      case SendApdu(d) => if |d| > maxLen - 3 then None else Some([1, 1, 0] + d)
      case EnterPin(p) =>
        if maxLen - 3 < 17 || !PinOk(p) || |p.apdu| > maxLen - 20 then None
        else Some([1, 3, 0] + PinParams(p) + Be16(|p.apdu|) + p.apdu)
      case CardScan => Some([1, 4, 0])
  }

  // ---- osdp_trs_cmd_decode ----

  datatype Decoded = Refused | Acked | ModeReport | ToApp(c: Command)

  predicate CodeValid(mode: byte, code: byte) {
    !(code == 0 || (mode != 0 && mode != 1) || (mode == 0 && code > 2) || (mode == 1 && code > 4))
  }

  function DecodePin(s: seq<byte>): Option<PinEntry>
    requires |s| >= 17
  {
    var n := FromLe16(s[16], s[15]);
    if s[2] % 4 == 3 || n > APDU_MAX_LEN || n > |s| - 17 then None
    else
      Some(PinEntry(
             s[0], s[1],
             s[2] % 4 + 1, s[2] / 4 % 2 == 1, PosFromWire(s[2] / 8 % 16, s[2] / 128 == 1), s[3] % 16,
             s[3] / 16, PosFromWire(s[4] % 16, s[4] / 16 % 2 == 1),
             s[5], s[6],
             (if s[7] % 2 == 1 then 1 else 0) + (if s[7] / 2 % 2 == 1 then 2 else 0) + (if s[7] / 4 % 2 == 1 then 4 else 0),
             s[8], FromLe16(s[10], s[9]), s[11], s[12], s[13], s[14],
             s[17..17 + n]))
  }

  // mode is the device's own; the new one comes back with the verdict.
  function Decode(mode: byte, s: seq<byte>): (Decoded, byte) {
    if |s| < 2 || !CodeValid(s[0], s[1]) then (Refused, mode)
    else if s[0] == 0 then
      if s[1] == 2 then
        (if |s| < 3 || s[2] > 1 then (Refused, mode) else (Acked, s[2]))
      else (ModeReport, mode)
    else if mode != 1 then (Refused, mode)
    else if s[1] == 2 then (Acked, mode)
    else if |s| < 3 then (Refused, mode)
    else
      match s[1]
      case 1 => (if |s| - 3 > APDU_MAX_LEN then Refused else ToApp(SendApdu(s[3..])), mode)
      case 3 =>
        if |s| < 20 then (Refused, mode)
        else (match DecodePin(s[3..]) case None => Refused case Some(p) => ToApp(EnterPin(p)), mode)
      case _ => (ToApp(CardScan), mode)
  }

  // ---- Round trip ----

  // Exactly the positions with a wire form survive the trip.
  lemma PositionRoundTrip(bits: nat)
    ensures PosToWire(bits).Some? <==> (bits % 8 == 0 && bits <= 120) || bits <= 15
    ensures PosToWire(bits).Some? ==> PosFromWire(PosToWire(bits).value.0, PosToWire(bits).value.1) == bits
  {
  }

  lemma FormatFields(p: PinEntry)
    requires PinOk(p)
    ensures var b := FormatByte(p);
            && b % 4 + 1 == p.format && (b / 4 % 2 == 1 <==> p.rightJustify)
            && PosFromWire(b / 8 % 16, b / 128 == 1) == p.offsetBits
  {
    PositionRoundTrip(p.offsetBits);
    var (at, bytes) := PosToWire(p.offsetBits).value;
    var b := FormatByte(p);
    assert b / 8 % 16 == at && (b / 128 == 1 <==> bytes);
  }

  lemma LenFormatFields(p: PinEntry)
    requires PinOk(p)
    ensures var b := LenFormatByte(p); PosFromWire(b % 16, b / 16 % 2 == 1) == p.lenOffsetBits
  {
    PositionRoundTrip(p.lenOffsetBits);
  }

  lemma Conditions(v: nat)
    ensures var b := ConditionByte(v);
            && b == v % 8
            && (if b % 2 == 1 then 1 else 0) + (if b / 2 % 2 == 1 then 2 else 0) + (if b / 4 % 2 == 1 then 4 else 0) == v % 8
  {
    assert Pow2(0) == 1 && Pow2(1) == 2 && Pow2(2) == 4;
    LowThree(v);
    LowBits(v % 8);
  }

  lemma LowThree(v: nat)
    ensures v % 2 == v % 8 % 2 && v / 2 % 2 == v % 8 / 2 % 2 && v / 4 % 2 == v % 8 / 4 % 2
  {
    var q, r := v / 8, v % 8;
    assert v == 8 * q + r;
    assert v / 2 == 2 * (2 * q) + r / 2;
    assert v / 4 == 2 * q + r / 4;
    Parity(4 * q, r);
    Parity(2 * q, r / 2);
    Parity(q, r / 4);
  }

  lemma Parity(q: nat, x: nat)
    ensures (2 * q + x) % 2 == x % 2
  {
  }

  lemma LowBits(r: nat)
    requires r < 8
    ensures (if r % 2 == 1 then 1 else 0) + (if r / 2 % 2 == 1 then 2 else 0) + (if r / 4 % 2 == 1 then 4 else 0) == r
  {
  }

  lemma Nibbles(hi: byte, lo: byte)
    requires hi <= 15 && lo <= 15
    ensures (16 * hi + lo) / 16 == hi && (16 * hi + lo) % 16 == lo
  {
  }

  lemma Be16RoundTrip(v: nat)
    requires v < 0x1_0000
    ensures FromLe16(Be16(v)[1], Be16(v)[0]) == v
  {
  }

  lemma PinBytes(p: PinEntry, n: nat, apdu: seq<byte>)
    requires PinOk(p) && p.languageId < 0x1_0000 && n < 0x1_0000
    ensures var s := PinParams(p) + Be16(n) + apdu;
            && |s| == 17 + |apdu| && s[17..] == apdu && s[15] == Be16(n)[0] && s[16] == Be16(n)[1]
            && s[0] == p.timeoutInitial && s[1] == p.timeoutDigit && s[2] == FormatByte(p)
            && s[3] == 16 * p.lenSizeBits + p.sizeBytes && s[4] == LenFormatByte(p) && s[5] == p.minDigits
            && s[6] == p.maxDigits && s[7] == ConditionByte(p.completeOn) && s[8] == p.numMessages
            && s[9] == Be16(p.languageId)[0] && s[10] == Be16(p.languageId)[1]
            && s[11] == p.msgIndex && s[12] == p.teo0 && s[13] == p.teo1 && s[14] == p.teo2
  {
    hide FormatByte, LenFormatByte, ConditionByte, Be16;
  }

  // Of a PIN entry only completion conditions that do not exist are lost.
  lemma PinRoundTrip(p: PinEntry)
    requires PinOk(p) && p.languageId < 0x1_0000 && |p.apdu| <= APDU_MAX_LEN
    ensures DecodePin(PinParams(p) + Be16(|p.apdu|) + p.apdu) == Some(p.(completeOn := p.completeOn % 8))
  {
    hide FormatByte, LenFormatByte, ConditionByte, Be16, PinParams, FromLe16, PosFromWire, PosToWire;
    var s := PinParams(p) + Be16(|p.apdu|) + p.apdu;
    PinBytes(p, |p.apdu|, p.apdu);
    FormatFields(p);
    LenFormatFields(p);
    Conditions(p.completeOn);
    Be16RoundTrip(p.languageId);
    Be16RoundTrip(|p.apdu|);
    Nibbles(p.lenSizeBits, p.sizeBytes);
    assert s[17..17 + |p.apdu|] == s[17..];
  }

  // What the device's application gets of a card command the panel built.
  lemma CardRoundTrip(c: Command, maxLen: int)
    requires Typed(c) && Build(c, maxLen).Some?
    ensures Decode(1, Build(c, maxLen).value) == (ToApp(Arrives(c)), 1)
    ensures Arrives(c) == c <==> (c.EnterPin? ==> c.pin.completeOn < 8)
  {
    hide PinParams, Be16, DecodePin, PinOk;
    var s := Build(c, maxLen).value;
    match c
    case SendApdu(d) => assert s[3..] == d;
    case CardScan =>
    case EnterPin(p) =>
      PinRoundTrip(p);
      assert s[3..] == PinParams(p) + Be16(|p.apdu|) + p.apdu;
  }

  function Arrives(c: Command): Command {
    if c.EnterPin? then EnterPin(c.pin.(completeOn := c.pin.completeOn % 8)) else c
  }

  // Bytes a card command takes after its id.
  function Size(c: Command): nat {
    match c
    case SendApdu(d) => 3 + |d|
    case EnterPin(p) => 20 + |p.apdu|
    case CardScan => 3
  }

  // It is built exactly if there is room for it and, for a PIN entry, its layout has a wire form; for the
  // reader, which is always reader 0.
  lemma BuildsExactly(c: Command, maxLen: int)
    requires Typed(c)
    ensures Build(c, maxLen).Some? <==> Size(c) <= maxLen && (c.EnterPin? ==> PinOk(c.pin))
    ensures Build(c, maxLen).Some? ==> |Build(c, maxLen).value| == Size(c) && Build(c, maxLen).value[2] == 0
  {
    hide PinOk, PinParams, Be16;
  }

  // Whatever a device takes for a PIN entry is one its panel could have asked for: the layouts with a wire
  // form are all there are.
  lemma DecodedIsOk(s: seq<byte>)
    requires |s| >= 17 && DecodePin(s).Some?
    ensures var p := DecodePin(s).value;
            PinOk(p) && Typed(EnterPin(p)) && p.completeOn < 8 && |p.apdu| <= |s| - 17
  {
    hide PosToWire, PosFromWire, FromLe16;
    var p := DecodePin(s).value;
    Halves(s[3]);
    PositionIsOk(s[2] / 8 % 16, s[2] / 128 == 1);
    PositionIsOk(s[4] % 16, s[4] / 16 % 2 == 1);
  }

  lemma PositionIsOk(offset: nat, bytes: bool)
    requires offset <= 15
    ensures PosToWire(PosFromWire(offset, bytes)).Some? && PosFromWire(offset, bytes) <= 120
  {
  }

  lemma Halves(b: byte)
    ensures b / 16 <= 15 && b % 16 <= 15
  {
  }

  // A C-APDU is let in exactly if it and 40 bytes of packet around it, 59 for a PIN entry, fit the negotiated
  // packet; one in a PIN entry also has to leave those 19 bytes of what a C-APDU may have.
  lemma AdmittedExactly(c: Command, txSize: int)
    requires Typed(c)
    ensures Admitted(c, txSize) <==>
      match c
      case SendApdu(d) => |d| + 40 <= txSize
      case EnterPin(p) => PinOk(p) && |p.apdu| + 59 <= txSize && |p.apdu| + 19 <= APDU_MAX_LEN
      case CardScan => true
  {
    hide PinOk;
  }

  // What a device makes of a card command, mode and code first: it is asked for its mode or set to one of the
  // two, in any mode; the rest it heeds only in mode 01, ending the card session or handing the
  // application a C-APDU, a PIN entry or a scan for reader 0. Everything else is refused, and only a
  // mode-set changes the mode.
  lemma DecodesExactly(mode: byte, s: seq<byte>)
    ensures var (d, m) := Decode(mode, s);
            && (d == ModeReport <==> |s| >= 2 && s[..2] == [0, 1])
            && (d == Acked <==> |s| >= 2 && ((s[..2] == [0, 2] && |s| >= 3 && s[2] <= 1) || (mode == 1 && s[..2] == [1, 2])))
            && (d.ToApp? && d.c.SendApdu? <==> mode == 1 && 3 <= |s| <= 3 + APDU_MAX_LEN && s[..2] == [1, 1])
            && (d.ToApp? && d.c.EnterPin? <==> mode == 1 && |s| >= 20 && s[..2] == [1, 3] && DecodePin(s[3..]).Some?)
            && (d.ToApp? && d.c.CardScan? <==> mode == 1 && |s| >= 3 && s[..2] == [1, 4])
            && m == (if |s| >= 3 && s[..2] == [0, 2] && s[2] <= 1 then s[2] else mode)
  {
    hide DecodePin;
    if |s| >= 2 {
      assert s[..2] == [s[0], s[1]];
    }
  }

  // What is admitted gets through: on every packet size from the minimum up, with or without mark,
  // CRC and session, an admitted card command builds and its finalized frame fits.
  lemma AdmittedFits(e: End, c: Command, txSize: int)
    requires e.Valid() && e.role == Cp && Typed(c) && Admitted(c, txSize) && txSize >= MINIMUM_PACKET_SIZE
    ensures var room := txSize - MarkLen(e.mark) - HDR - |SecurityBlock(e, Msg(CMD_XWR, []), 0)| - 2;
            Build(c, room).Some? && WireLen(e, Msg(CMD_XWR, Build(c, room).value), 0) <= txSize
  {
    hide PinOk, PinParams;
  }
}
