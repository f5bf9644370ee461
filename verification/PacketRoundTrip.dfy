// What one end builds, the other end frames, accepts and decodes to the same message, and both
// ends are left holding the same chained MACs.
module PacketRoundTrip {
  import opened Bytes
  import opened SecureChannel
  import opened Packet

  // Bytes a message occupies on the wire.
  function WireLen(e: End, m: Msg, key: byte): nat {
    var scb := SecurityBlock(e, m, key);
    var mac := scb != [] && e.session.Some?;
    MarkLen(e.mark) + HDR + |scb| + 1
    + (if mac && m.data != [] then PadLen(|m.data| + 1) else |m.data|)
    + (if mac then 4 else 0)
    + (if e.SendsCrc() then 2 else 1)
  }

  // A packet is built exactly when the size limit covers the minimum packet and the message.
  lemma BuildFits(a: Algorithms, e: End, m: Msg, key: byte, maxLen: int)
    requires a.Valid() && e.Valid()
    ensures Build(a, e, m, key, maxLen).Some? <==> maxLen >= MINIMUM_PACKET_SIZE && WireLen(e, m, key) <= maxLen
    ensures Build(a, e, m, key, maxLen).Some? ==> |Build(a, e, m, key, maxLen).value.0| == WireLen(e, m, key)
  {
    hide Finalize, Init, WireLen;
    FinalizeFits(a, e, m, key, maxLen - MarkLen(e.mark));
  }

  lemma FinalizeFits(a: Algorithms, e: End, m: Msg, key: byte, max: int)
    requires a.Valid() && e.Valid()
    ensures var f := Finalize(a, e, Init(e, m, key), max);
            && (f.Some? <==> WireLen(e, m, key) <= max + MarkLen(e.mark))
            && (f.Some? ==> |f.value.0| + MarkLen(e.mark) == WireLen(e, m, key))
  {
    hide CheckBytes, WithMac, EncryptData, Image;
    InitFields(e, m, key);
  }

  lemma InitFields(e: End, m: Msg, key: byte)
    requires e.Valid()
    ensures var c := Init(e, m, key).control;
            SeqOf(c) == TxSeq(e, m) && HasCrc(c) == e.SendsCrc() && HasScb(c) == (SecurityBlock(e, m, key) != [])
    ensures Init(e, m, key).payload[1..] == m.data
  {
    ControlFields(TxSeq(e, m), e.SendsCrc(), SecurityBlock(e, m, key) != []);
  }

  // A packet image with its check bytes on is intact, and its own length field frames it exactly.
  lemma CheckBytesHold(a: Algorithms, out: seq<byte>)
    requires a.Valid() && |out| > HDR
    ensures Intact(a, out + CheckBytes(a, out))
  {
    var pkt := out + CheckBytes(a, out);
    assert pkt[..|out|] == out && pkt[|out|..] == CheckBytes(a, out);
  }

  // A protected packet keeps its header, with its final length in it.
  lemma ProtectHeader(a: Algorithms, isCmd: bool, s: Session, d: Draft, max: int)
    requires d.Valid() && d.scb != [] && Protect(a, isCmd, s, d, max).Some?
    ensures var out := Protect(a, isCmd, s, d, max).value.0;
            && |out| > HDR && out[0] == SOM && out[1] == d.addr && out[4] == d.control
            && out[2..4] == Le16((|out| + CheckLen(out[4])) % 0x1_0000)
  {
    hide WithMac, EncryptData;
    var d' := Sealed(a, isCmd, s, d);
    var image := Image(d', d'.Len() + CheckLen(d.control) + 4);
    var out := Protect(a, isCmd, s, d, max).value.0;
    assert out[2..4] == image[2..4];
  }

  // The image Finalize puts its check bytes after.
  lemma FinalizeImage(a: Algorithms, e: End, m: Msg, key: byte, max: int) returns (out: seq<byte>)
    requires a.Valid() && e.Valid()
    requires Finalize(a, e, Init(e, m, key), max).Some?
    ensures |out| > HDR && Finalize(a, e, Init(e, m, key), max).value.0 == out + CheckBytes(a, out)
    ensures out[0] == SOM && out[1] == AddressByte(e) && out[4] == Init(e, m, key).control
    ensures out[2..4] == Le16((|out| + CheckLen(out[4])) % 0x1_0000)
    ensures SecurityBlock(e, m, key) == [] || e.session.None? ==> out[HDR..] == SecurityBlock(e, m, key) + [m.id] + m.data
    ensures SecurityBlock(e, m, key) == [] || e.session.None? ==> Finalize(a, e, Init(e, m, key), max).value.1 == e.session
    ensures SecurityBlock(e, m, key) != [] && e.session.Some? ==>
              && Finalize(a, e, Init(e, m, key), max).value.1.Some?
              && Protect(a, e.role == Cp, e.session.value, Init(e, m, key), max) == Some((out, Finalize(a, e, Init(e, m, key), max).value.1.value))
  {
    hide CheckBytes, Protect;
    InitFields(e, m, key);
    var d := Init(e, m, key);
    if SecurityBlock(e, m, key) != [] && e.session.Some? {
      out := Protect(a, e.role == Cp, e.session.value, d, max).value.0;
      ProtectHeader(a, e.role == Cp, e.session.value, d, max);
    } else {
      out := Image(d, d.Len() + CheckLen(d.control));
      assert d.scb + d.payload == SecurityBlock(e, m, key) + [m.id] + m.data;
    }
  }

  // The two ends of one exchange: opposite roles, one address, one session, and a receiver whose
  // next sequence number is the one the sender is about to use.
  ghost predicate Paired(tx: End, rx: End, m: Msg) {
    && tx.Valid() && rx.Valid()
    && tx.role != rx.role && tx.address == rx.address && tx.session == rx.session
    && NextSeq(rx.sqn) == NextSeq(tx.sqn)
    // A command on sequence 0 restarts the link, so it never carries a session.
    && (tx.role == Cp && NextSeq(tx.sqn) == 0 ==> tx.session == None)
    && (rx.role == Pd ==> rx.scCapable)
  }

  // Neither end starts a handshake inside a session, and BUSY is not an answer to decode.
  predicate Ordinary(e: End, m: Msg) {
    !IsBusy(e.role, m.id) && (e.session.Some? ==> !InHandshake(e.role, m.id))
  }

  // The receiver's header check finds exactly the frame that was sent, mark byte or not.
  lemma Framed(a: Algorithms, tx: End, rxRole: Role, m: Msg, key: byte, maxLen: int)
    requires a.Valid() && tx.Valid() && rxRole != tx.role
    requires maxLen <= PACKET_BUF_SIZE && Build(a, tx, m, key, maxLen).Some?
    ensures var wire := Build(a, tx, m, key, maxLen).value.0;
            ValidateHeader(rxRole, wire, PACKET_BUF_SIZE) == Frame(|wire|, tx.mark)
  {
    hide CheckBytes, Protect, Finalize, Init, ValidateHeader, WireLen, SecurityBlock, Checksum;
    BuildFits(a, tx, m, key, maxLen);
    var out := FinalizeImage(a, tx, m, key, maxLen - MarkLen(tx.mark));
    LengthField(out, |out| + CheckLen(out[4]));
    HeaderFrames(rxRole, out + CheckBytes(a, out), tx.mark);
  }

  lemma LengthField(out: seq<byte>, n: nat)
    requires |out| > HDR && n < 0x1_0000 && out[2..4] == Le16(n)
    ensures FromLe16(out[2], out[3]) == n
  {
    assert out[2] == out[2..4][0] && out[3] == out[2..4][1];
    Le16RoundTrip(n);
  }

  lemma HeaderFrames(role: Role, h: seq<byte>, mark: bool)
    requires HDR < |h| && |h| + MarkLen(mark) <= PACKET_BUF_SIZE
    requires h[0] == SOM && FromLe16(h[2], h[3]) == |h| && (h[1] >= 0x80) == (role == Cp)
    ensures ValidateHeader(role, WithMark(mark, h), PACKET_BUF_SIZE) == Frame(|h| + MarkLen(mark), mark)
  {
  }

  // What the receiver's checks read of a finalized packet.
  lemma PacketFields(a: Algorithms, tx: End, m: Msg, key: byte, max: int)
    requires a.Valid() && tx.Valid()
    requires Finalize(a, tx, Init(tx, m, key), max).Some?
    ensures var pkt := Finalize(a, tx, Init(tx, m, key), max).value.0;
            && |pkt| > HDR && Intact(a, pkt)
            && pkt[1] == AddressByte(tx) && SeqOf(pkt[4]) == TxSeq(tx, m)
            && HasScb(pkt[4]) == (SecurityBlock(tx, m, key) != [])
            && HDR + ScbLen(pkt) < |pkt| && pkt[HDR + ScbLen(pkt)] == m.id
  {
    hide CheckBytes, Finalize, Init, Intact, EncryptData, WithMac;
    InitFields(tx, m, key);
    var out := FinalizeImage(a, tx, m, key, max);
    CheckBytesHold(a, out);
    var pkt := out + CheckBytes(a, out);
    assert pkt[1] == AddressByte(tx) && pkt[4] == out[4];
    var scb := SecurityBlock(tx, m, key);
    if scb != [] && tx.session.Some? {
      SecureIdAt(a, tx, m, key, max, out, Finalize(a, tx, Init(tx, m, key), max).value.1.value);
    } else {
      assert out[HDR..][|scb|] == m.id;
      if scb != [] {
        assert out[HDR] == out[HDR..][0] == |scb|;
      }
    }
  }

  lemma SecureIdAt(a: Algorithms, tx: End, m: Msg, key: byte, max: int, out: seq<byte>, s': Session)
    requires a.Valid() && tx.Valid() && SecurityBlock(tx, m, key) != [] && tx.session.Some?
    requires Protect(a, tx.role == Cp, tx.session.value, Init(tx, m, key), max) == Some((out, s'))
    ensures |out| > HDR + 2 && out[HDR] == 2 && out[HDR + 2] == m.id
  {
    hide EncryptData, WithMac;
    var d := Init(tx, m, key);
    InitFields(tx, m, key);
    var d' := Sealed(a, tx.role == Cp, tx.session.value, d);
    var image := Image(d', d'.Len() + CheckLen(d.control) + 4);
    assert out[HDR] == image[HDR..][0] && out[HDR + 2] == image[HDR..][2] == d'.payload[0];
  }

  // Integrity, address and sequence checks all let it through.
  lemma Accepted(a: Algorithms, tx: End, rx: End, cached: Option<byte>, m: Msg, key: byte, max: int)
    requires a.Valid() && Paired(tx, rx, m) && Ordinary(tx, m)
    requires Finalize(a, tx, Init(tx, m, key), max).Some?
    ensures var pkt := Finalize(a, tx, Init(tx, m, key), max).value.0;
            && |pkt| > HDR
            && CheckPacket(a, rx, cached, pkt)
            == if rx.role == Pd && NextSeq(tx.sqn) == 0 then Pass(-1, false, true) else Pass(rx.sqn, true, false)
  {
    hide CheckBytes, Protect, Finalize, Init, Intact;
    PacketFields(a, tx, m, key, max);
  }

  // A busy device is heard as one whatever session and sequence number the panel is on: its reply is plain,
  // on number 0, and of the least length there is.
  lemma BusyIsHeard(a: Algorithms, tx: End, rx: End, cached: Option<byte>, key: byte, max: int)
    requires a.Valid() && tx.Valid() && rx.Valid() && tx.role == Pd && rx.role == Cp && (tx.broadcast || tx.address == rx.address)
    requires Finalize(a, tx, Init(tx, Msg(REPLY_BUSY, []), key), max).Some?
    ensures var pkt := Finalize(a, tx, Init(tx, Msg(REPLY_BUSY, []), key), max).value.0;
            && |pkt| > HDR && CheckPacket(a, rx, cached, pkt) == Busy
    ensures Finalize(a, tx, Init(tx, Msg(REPLY_BUSY, []), key), max).value.1 == tx.session
  {
    hide Finalize, Init, Intact, CheckBytes;
    var m := Msg(REPLY_BUSY, []);
    PacketFields(a, tx, m, key, max);
    FinalizeFits(a, tx, m, key, max);
    InitFields(tx, m, key);
    var out := FinalizeImage(a, tx, m, key, max);
  }

  // ... and the payload comes back out.
  lemma Decodes(a: Algorithms, tx: End, rx: End, m: Msg, key: byte, max: int)
    requires a.Valid() && Paired(tx, rx, m) && Ordinary(tx, m)
    requires Finalize(a, tx, Init(tx, m, key), max).Some?
    ensures var (pkt, s') := Finalize(a, tx, Init(tx, m, key), max).value;
            && |pkt| > HDR && |pkt| >= HDR + CheckLen(pkt[4])
            && Decode(a, rx, pkt) == Payload([m.id] + m.data, s')
  {
    hide CheckBytes, Protect, Finalize, Init, Intact, DecodeSecure;
    InitFields(tx, m, key);
    var out := FinalizeImage(a, tx, m, key, max);
    var pkt := out + CheckBytes(a, out);
    assert pkt[4] == out[4] && pkt[..|pkt| - CheckLen(pkt[4])] == out;
    var scb := SecurityBlock(tx, m, key);
    if scb != [] && tx.session.Some? {
      DecodesSecure(a, tx, rx, m, key, max, out, Finalize(a, tx, Init(tx, m, key), max).value.1.value);
      assert pkt[HDR] == out[HDR] && pkt[HDR + 1] == out[HDR + 1];
    } else if scb != [] {
      assert pkt[HDR] == out[HDR..][0] && pkt[HDR + 1] == out[HDR..][1];
      assert out[HDR + |scb|..] == out[HDR..][|scb|..] == [m.id] + m.data;
    } else {
      assert scb + [m.id] == [m.id];
      assert out[HDR..] == [m.id] + m.data;
    }
  }

  lemma DecodesSecure(a: Algorithms, tx: End, rx: End, m: Msg, key: byte, max: int, out: seq<byte>, s': Session)
    requires a.Valid() && Paired(tx, rx, m) && Ordinary(tx, m)
    requires SecurityBlock(tx, m, key) != [] && tx.session.Some?
    requires Protect(a, tx.role == Cp, tx.session.value, Init(tx, m, key), max) == Some((out, s'))
    ensures |out| >= HDR + 2 && out[HDR] == 2 && SCS_15 <= out[HDR + 1] <= SCS_18
    ensures DecodeSecure(a, rx, rx.session.value, out) == Payload([m.id] + m.data, Some(s'))
  {
    hide CbcEncrypt, CbcDecrypt, MacChain, Strip, Pad;
    var s, isCmd, scb := tx.session.value, tx.role == Cp, SecurityBlock(tx, m, key);
    var d := Init(tx, m, key);
    InitFields(tx, m, key);
    var d' := Sealed(a, isCmd, s, d);
    var image := Image(d', d'.Len() + CheckLen(d.control) + 4);
    assert out == image + OwnMac(isCmd, s')[..4];
    assert out[HDR] == image[HDR..][0] && out[HDR + 1] == image[HDR..][1];
    assert out[..|image|] == image && out[|image|..] == OwnMac(isCmd, s')[..4];
    assert out[HDR + 2..|image|] == image[HDR..][2..] == d'.payload;
    assert out[HDR + 2] == d'.payload[0] == m.id;
    assert out[HDR + 3..|image|] == d'.payload[1..];
    if m.data != [] {
      DataRoundTrip(a.cipher, s, isCmd, rx.allowEmpty, m.data);
      assert d'.payload[1..] == EncryptData(a.cipher, s, isCmd, m.data);
      assert DataIv(s', isCmd) == DataIv(s, isCmd);
    }
  }

  // The round trip, for every message that fits, with or without mark byte, CRC-16 or checksum,
  // plain or under a session.
  lemma RoundTrip(a: Algorithms, tx: End, rx: End, cached: Option<byte>, m: Msg, key: byte, maxLen: int)
    requires a.Valid() && Paired(tx, rx, m) && Ordinary(tx, m)
    requires MINIMUM_PACKET_SIZE <= maxLen <= PACKET_BUF_SIZE && WireLen(tx, m, key) <= maxLen
    ensures Build(a, tx, m, key, maxLen).Some?
    ensures var (wire, s') := Build(a, tx, m, key, maxLen).value;
            var pkt := wire[MarkLen(tx.mark)..];
            && ValidateHeader(rx.role, wire, PACKET_BUF_SIZE) == Frame(|wire|, tx.mark)
            && |pkt| > HDR && |pkt| >= HDR + CheckLen(pkt[4])
            && CheckPacket(a, rx, cached, pkt)
            == (if rx.role == Pd && NextSeq(tx.sqn) == 0 then Pass(-1, false, true) else Pass(rx.sqn, true, false))
            && Decode(a, rx, pkt) == Payload([m.id] + m.data, s')
  {
    hide CheckPacket, Decode, Finalize, Init, ValidateHeader, WireLen;
    BuildFits(a, tx, m, key, maxLen);
    var max := maxLen - MarkLen(tx.mark);
    Framed(a, tx, rx.role, m, key, maxLen);
    Accepted(a, tx, rx, cached, m, key, max);
    Decodes(a, tx, rx, m, key, max);
  }
}
