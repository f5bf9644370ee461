// What an end leaves alone: packets of others on the shared line, damaged packets, packets out of
// sequence, and packets outside the session it is in.
module Addressing {
  import opened Bytes
  import opened SecureChannel
  import opened Packet
  import opened PacketRoundTrip
  import opened Link
  import opened LinkFacts
  import opened LinkProof

  // ---- Packets of others ----

  // A packet of the other direction: a device ignores what devices send, a panel what panels send.
  lemma OwnDirection(a: Algorithms, tx: End, m: Msg, key: byte, maxLen: int)
    requires a.Valid() && tx.Valid() && maxLen <= PACKET_BUF_SIZE && Build(a, tx, m, key, maxLen).Some?
    ensures ValidateHeader(tx.role, Build(a, tx, m, key, maxLen).value.0, PACKET_BUF_SIZE) == HdrErr(PktSkip)
  {
    hide CheckBytes, Protect, Finalize, Init, ValidateHeader, WireLen, SecurityBlock, Checksum;
    BuildFits(a, tx, m, key, maxLen);
    var out := FinalizeImage(a, tx, m, key, maxLen - MarkLen(tx.mark));
    LengthField(out, |out| + CheckLen(out[4]));
    hide Build, AddressByte, InHandshake;
    AddressSide(tx);
    var h := out + CheckBytes(a, out);
    assert h[..5] == out[..5];
    HeaderSkips(tx.role, h, tx.mark);
  }

  lemma AddressSide(e: End)
    requires e.Valid()
    ensures (AddressByte(e) >= 0x80) == (e.role == Pd)
  {
  }

  lemma HeaderSkips(role: Role, h: seq<byte>, mark: bool)
    requires HDR < |h| && |h| + MarkLen(mark) <= PACKET_BUF_SIZE
    requires h[0] == SOM && FromLe16(h[2], h[3]) == |h| && (h[1] >= 0x80) == (role == Pd)
    ensures ValidateHeader(role, WithMark(mark, h), PACKET_BUF_SIZE) == HdrErr(PktSkip)
  {
  }

  // Whatever another party on the line sends, a device it is not for neither acts on it nor answers
  // nor changes in any way: a panel's packet to another device, or another device's reply.
  lemma NotForThisDevice(a: Algorithms, cfg: Config, tx: End, m: Msg, key: byte, maxLen: int, pd: PdState, send: SendRc, reply: Msg)
    requires a.Valid() && cfg.Valid() && tx.Valid() && -1 <= pd.sqn <= 3 && !pd.prebuilt
    requires tx.role == Pd || (tx.address != cfg.address && !tx.broadcast)
    requires maxLen <= PACKET_BUF_SIZE && Build(a, tx, m, key, maxLen).Some?
    ensures PdUpdate(a, cfg, pd, send, Some(Build(a, tx, m, key, maxLen).value.0), reply) == PdStep(pd, None, None)
  {
    hide Finalize, Init, Decode, ValidateHeader, Intact;
    if tx.role == Pd {
      OwnDirection(a, tx, m, key, maxLen);
    } else {
      Framed(a, tx, Pd, m, key, maxLen);
      PacketFields(a, tx, m, key, maxLen - MarkLen(tx.mark));
    }
  }

  // A reply of another device, or a panel's packet, is never the answer to the command outstanding:
  // the exchange fails.
  lemma NotForThisPanel(a: Algorithms, cfg: Config, tx: End, m: Msg, key: byte, maxLen: int, cp: CpState, now: nat, app: AppRc)
    requires a.Valid() && cfg.Valid() && tx.Valid() && -1 <= cp.sqn <= 3
    requires tx.role == Cp || (tx.address != cfg.address && !tx.broadcast)
    requires maxLen <= PACKET_BUF_SIZE && Build(a, tx, m, key, maxLen).Some?
    ensures var st := CpReceive(a, cfg, cp, now, app, Some(Build(a, tx, m, key, maxLen).value.0));
            st.accepted == None && st.cp == CpFail(cp)
  {
    hide Finalize, Init, Decode, ValidateHeader, Intact;
    if tx.role == Cp {
      OwnDirection(a, tx, m, key, maxLen);
    } else {
      Framed(a, tx, Cp, m, key, maxLen);
      PacketFields(a, tx, m, key, maxLen - MarkLen(tx.mark));
    }
  }

  // A panel's packet on a plain link, on the number the device expects next, is carried out if and only
  // if it is addressed to the device or to all of them.
  lemma RunsWhatIsForIt(a: Algorithms, cfg: Config, tx: End, m: Msg, pd: PdState, send: SendRc, reply: Msg)
    requires a.Valid() && cfg.Valid() && tx.Valid() && tx.role == Cp && !InHandshake(Cp, m.id)
    requires 0 <= pd.sqn <= 3 && !pd.prebuilt && NextSeq(tx.sqn) == NextSeq(pd.sqn) && tx.session == pd.session == None
    requires Build(a, tx, m, 0, cfg.cpMax).Some?
    ensures PdUpdate(a, cfg, pd, send, Some(Build(a, tx, m, 0, cfg.cpMax).value.0), reply).ran
         == if tx.broadcast || tx.address == cfg.address then Some(m) else None
  {
    hide Build, CheckPacket, Decode, ValidateHeader;
    if tx.broadcast || tx.address == cfg.address {
      var tx' := tx.(address := cfg.address);
      ToAll(a, tx, tx', m, cfg.cpMax);
      BuildFits(a, tx', m, 0, cfg.cpMax);
      RoundTrip(a, tx', PdEnd(cfg, pd, tx.mark), Cached(pd), m, 0, cfg.cpMax);
      BuildKeepsPlain(a, tx', m, cfg.cpMax);
      assert ([m.id] + m.data)[1..] == m.data;
    } else {
      NotForThisDevice(a, cfg, tx, m, 0, cfg.cpMax, pd, send, reply);
    }
  }

  // A broadcast carries no address of its own.
  lemma ToAll(a: Algorithms, tx: End, tx': End, m: Msg, maxLen: int)
    requires a.Valid() && tx.Valid() && tx'.Valid() && tx' == tx.(address := tx'.address) && (tx.broadcast || tx == tx')
    ensures Build(a, tx', m, 0, maxLen) == Build(a, tx, m, 0, maxLen)
  {
    hide Protect, CheckBytes, Image;
    assert Init(tx', m, 0) == Init(tx, m, 0);
  }

  // ---- Damage ----

  lemma {:induction false} SumChanges(s: seq<byte>, t: seq<byte>, k: nat)
    requires |s| == |t| && k < |s| && s[k] != t[k] && forall i :: 0 <= i < |s| && i != k ==> s[i] == t[i]
    ensures Sum(s) - s[k] == Sum(t) - t[k]
  {
    var n := |s| - 1;
    if k == n {
      assert s[..n] == t[..n];
    } else {
      SumChanges(s[..n], t[..n], k);
    }
  }

  // A checksum catches every damaged byte: a packet that checks out does not once any one of its bytes
  // but the one that says how it is checked has changed.
  lemma ChecksumCatches(a: Algorithms, pkt: seq<byte>, bad: seq<byte>, k: nat)
    requires a.Valid() && |pkt| > HDR && Intact(a, pkt) && !HasCrc(pkt[4])
    requires |bad| == |pkt| && k < |pkt| && k != 4 && bad[k] != pkt[k]
    requires forall i :: 0 <= i < |pkt| && i != k ==> bad[i] == pkt[i]
    ensures !Intact(a, bad)
  {
    hide Sum, Intact, HasCrc, Checksum;
    var n := |pkt| - 1;
    IntactSum(a, pkt);
    IntactSum(a, bad);
    if k == n {
      assert pkt[..n] == bad[..n];
    } else {
      SumChanges(pkt[..n], bad[..n], k);
      ChecksumsDiffer(pkt[..n], bad[..n], pkt[k], bad[k]);
    }
  }

  lemma IntactSum(a: Algorithms, pkt: seq<byte>)
    requires a.Valid() && |pkt| > HDR && !HasCrc(pkt[4])
    ensures Intact(a, pkt) <==> pkt[|pkt| - 1] == Checksum(pkt[..|pkt| - 1])
  {
    hide Checksum;
    var n := |pkt| - 1;
    assert pkt[n..] == [pkt[n]] && pkt[..n][4] == pkt[4];
  }

  lemma ChecksumsDiffer(s: seq<byte>, t: seq<byte>, x: byte, y: byte)
    requires Sum(s) - x == Sum(t) - y && x != y
    ensures Checksum(s) != Checksum(t)
  {
    hide Sum;
    Differ(Sum(s), Sum(t), x, y);
    Opposite(Sum(s) % 256);
    Opposite(Sum(t) % 256);
  }

  lemma Opposite(r: byte)
    ensures (256 - r) % 256 == if r == 0 then 0 else 256 - r
  {
  }

  lemma Differ(s: nat, t: nat, x: byte, y: byte)
    requires s - x == t - y && x != y
    ensures s % 256 != t % 256
  {
    assert s == 256 * (s / 256) + s % 256 && t == 256 * (t / 256) + t % 256;
  }

  // A frame whose check bytes are wrong is as good as none to a device: nothing runs and nothing is
  // sent; the device forgets its session and the reply it could have repeated.
  lemma DamagedAtDevice(a: Algorithms, cfg: Config, pd: PdState, w: seq<byte>, mark: bool, send: SendRc, reply: Msg)
    requires a.Valid() && cfg.Valid() && -1 <= pd.sqn <= 3 && !pd.prebuilt
    requires ValidateHeader(Pd, w, PACKET_BUF_SIZE) == Frame(|w|, mark) && |w| > MarkLen(mark) + HDR
    requires !Intact(a, w[MarkLen(mark)..])
    ensures PdUpdate(a, cfg, pd, send, Some(w), reply) == PdStep(pd.(session := None, cacheLen := 0), None, None)
  {
    hide ValidateHeader, Intact, Decode;
  }

  // To a panel it fails the exchange.
  lemma DamagedAtPanel(a: Algorithms, cfg: Config, cp: CpState, w: seq<byte>, mark: bool, now: nat, app: AppRc)
    requires a.Valid() && cfg.Valid() && -1 <= cp.sqn <= 3
    requires ValidateHeader(Cp, w, PACKET_BUF_SIZE) == Frame(|w|, mark) && |w| > MarkLen(mark) + HDR
    requires !Intact(a, w[MarkLen(mark)..])
    ensures var st := CpReceive(a, cfg, cp, now, app, Some(w)); st.accepted == None && st.cp == CpFail(cp)
  {
    hide ValidateHeader, Intact, Decode;
  }

  // ---- Sequence ----

  // The number in the header of a frame, its mark taken off.
  function Number(w: seq<byte>, mark: bool): nat
    requires |w| > MarkLen(mark) + HDR
  {
    w[MarkLen(mark) + 4] % 4
  }

  // The id of what a packet decodes to is the byte that follows its header and security block.
  lemma IdAt(a: Algorithms, e: End, pkt: seq<byte>)
    requires |pkt| > HDR && |pkt| >= HDR + CheckLen(pkt[4])
    requires Decode(a, e, pkt).Payload? && Decode(a, e, pkt).bytes != []
    ensures HDR + ScbLen(pkt) < |pkt| && Decode(a, e, pkt).bytes[0] == pkt[HDR + ScbLen(pkt)]
  {
    hide WithMac, DecryptData;
  }

  // A command that repeats the id of the one answered last, on its number, draws the cached answer.
  lemma RepeatNotRun(a: Algorithms, e: End, cached: byte, pkt: seq<byte>)
    requires a.Valid() && e.Valid() && |pkt| > HDR && e.role == Pd && e.sqn > 0 && SeqOf(pkt[4]) == e.sqn
    requires HDR + ScbLen(pkt) < |pkt| && pkt[HDR + ScbLen(pkt)] == cached
    ensures !CheckPacket(a, e, Some(cached), pkt).Pass?
  {
    hide Intact;
  }

  // Whatever bytes come in, a device only ever runs its handler for an intact frame to its address (or
  // to all) that restarts the link or carries the number it expects next or the one it answered last,
  // and in the latter case only for a command it has no cached answer to.
  lemma RunsOnlyInSequence(a: Algorithms, cfg: Config, pd: PdState, w: seq<byte>, send: SendRc, reply: Msg)
    requires a.Valid() && cfg.Valid() && -1 <= pd.sqn <= 3
    requires PdUpdate(a, cfg, pd, send, Some(w), reply).ran.Some?
    ensures ValidateHeader(Pd, w, PACKET_BUF_SIZE).Frame?
    ensures var mark := ValidateHeader(Pd, w, PACKET_BUF_SIZE).mark;
            && |w| > MarkLen(mark) + HDR && Intact(a, w[MarkLen(mark)..])
            && w[MarkLen(mark) + 1] % 0x80 in {cfg.address, 0x7F}
            && Number(w, mark) in {0, pd.sqn, NextSeq(pd.sqn)}
            && (Number(w, mark) == pd.sqn > 0 && pd.cacheLen > 0 ==>
                  PdUpdate(a, cfg, pd, send, Some(w), reply).ran.value.id != pd.lastCmd)
  {
    hide Build, Intact, Decode, ValidateHeader;
    HeaderLen(w);
    var mark := ValidateHeader(Pd, w, PACKET_BUF_SIZE).mark;
    var pkt := w[MarkLen(mark)..];
    if Number(w, mark) == pd.sqn > 0 && pd.cacheLen > 0 {
      var check := CheckPacket(a, PdEnd(cfg, pd, mark), Cached(pd), pkt);
      var pd1 := pd.(sqn := check.sqn, cacheLen := if check.keepCache then pd.cacheLen else 0);
      IntactLen(a, pkt);
      IdAt(a, PdEnd(cfg, pd1, mark), pkt);
    }
  }

  lemma IntactLen(a: Algorithms, pkt: seq<byte>)
    requires a.Valid() && |pkt| > HDR && Intact(a, pkt)
    ensures |pkt| >= HDR + CheckLen(pkt[4])
  {
  }

  // A frame is longer than its header.
  lemma HeaderLen(w: seq<byte>)
    ensures var h := ValidateHeader(Pd, w, PACKET_BUF_SIZE); h.Frame? ==> h.len > MarkLen(h.mark) + HDR
  {
  }

  // An end that finds a packet out of sequence keeps its own number and what it could repeat.
  lemma OutOfStepKeeps(a: Algorithms, e: End, cached: Option<byte>, pkt: seq<byte>)
    requires a.Valid() && e.Valid() && |pkt| > HDR && CheckPacket(a, e, cached, pkt).OutOfSequence?
    ensures CheckPacket(a, e, cached, pkt) == OutOfSequence(e.sqn, true)
    ensures SeqOf(pkt[4]) != NextSeq(e.sqn) && (e.role == Pd ==> SeqOf(pkt[4]) !in {0, e.sqn})
  {
    hide Intact;
  }

  // A panel's packet for this device numbered neither as the device expects nor as it answered last is
  // refused with a NAK that says so; the handler is not run and the device is left as it was.
  lemma OutOfStepRefused(a: Algorithms, cfg: Config, tx: End, m: Msg, key: byte, maxLen: int, pd: PdState, reply: Msg)
    requires a.Valid() && cfg.Valid() && tx.Valid() && -1 <= pd.sqn <= 3
    requires tx.role == Cp && (tx.broadcast || tx.address == cfg.address) && NextSeq(tx.sqn) !in {0, pd.sqn, NextSeq(pd.sqn)}
    requires maxLen <= PACKET_BUF_SIZE && Build(a, tx, m, key, maxLen).Some?
    ensures PdReceive(a, cfg, pd, Build(a, tx, m, key, maxLen).value.0, reply)
         == Answer(pd, Msg(REPLY_NAK, [NAK_SEQ_NUM]), tx.mark, None)
  {
    hide Finalize, Init, Decode, ValidateHeader, Intact;
    Framed(a, tx, Pd, m, key, maxLen);
    PacketFields(a, tx, m, key, maxLen - MarkLen(tx.mark));
  }

  // A repeated command draws the bytes of the last reply again, if the channel takes them, and changes
  // nothing.
  lemma RepeatsLastReply(a: Algorithms, cfg: Config, f: Flight, pd: PdState, send: SendRc, reply: Msg)
    requires a.Valid() && cfg.Valid() && FlightOk(a, cfg, f) && !pd.prebuilt && pd.cacheLen == |pd.txBuf|
    requires pd.sqn == f.sqn > 0 && pd.cacheLen > 0 && pd.lastCmd == f.cmd.id
    ensures PdUpdate(a, cfg, pd, send, Some(f.wire), reply) == PdStep(pd, if send == Sent then Some(pd.txBuf) else None, None)
  {
    hide PdReceive, FlightOk;
    PdRepeats(a, cfg, f, pd, reply);
    assert pd.txBuf[..pd.cacheLen] == pd.txBuf;
  }

  // Nothing is on the line that the channel did not take.
  lemma SendsOnlyWhatIsTaken(a: Algorithms, cfg: Config, pd: PdState, send: SendRc, rx: Option<seq<byte>>, reply: Msg)
    requires a.Valid() && cfg.Valid() && -1 <= pd.sqn <= 3
    ensures PdUpdate(a, cfg, pd, send, rx, reply).tx.Some? ==> send == Sent
  {
    hide PdReceive, Build;
  }

  // ---- Sessions ----

  // Under a session a packet without a security block is refused, whatever it says; the one exception
  // is a panel that does not enforce security and waits for the ACK to a KEYSET.
  lemma PlainUnderSession(a: Algorithms, e: End, pkt: seq<byte>)
    requires |pkt| > HDR && |pkt| >= HDR + CheckLen(pkt[4]) && !HasScb(pkt[4]) && e.session.Some?
    ensures (Decode(a, e, pkt) == DecodeNak(NAK_SC_COND, e.session))
        <==> !(e.role == Cp && !e.enforceSecure && e.cmdId == CMD_KEYSET && pkt[HDR] == REPLY_ACK)
  {
  }

  // With none, a packet MAC'd under one is refused, and handshake packets are read in the clear.
  lemma SecureWithoutSession(a: Algorithms, e: End, pkt: seq<byte>)
    requires |pkt| > HDR + 2 && |pkt| >= HDR + CheckLen(pkt[4]) && HasScb(pkt[4]) && e.session == None
    requires e.role == Cp || e.scCapable
    ensures Decode(a, e, pkt).Payload? <==>
      && SCS_11 <= pkt[HDR + 1] <= SCS_14 && |pkt| - CheckLen(pkt[4]) >= HDR + 2
      && |pkt| - CheckLen(pkt[4]) >= HDR + pkt[HDR]
    ensures Decode(a, e, pkt).DecodeNak? ==> Decode(a, e, pkt) == DecodeNak(NAK_SC_COND, None)
  {
  }

  // A device that has no secure channel says so of any packet with a security block.
  lemma NoSecureChannel(a: Algorithms, e: End, pkt: seq<byte>)
    requires |pkt| > HDR && |pkt| >= HDR + CheckLen(pkt[4]) && HasScb(pkt[4]) && e.role == Pd && !e.scCapable
    ensures Decode(a, e, pkt) == DecodeNak(NAK_SC_UNSUP, e.session)
  {
  }

  // A security block of a type that does not exist, or that does not fit the packet, is refused, and costs
  // nobody a session.
  lemma UnknownBlock(a: Algorithms, e: End, pkt: seq<byte>)
    requires |pkt| > HDR + 1 && |pkt| >= HDR + CheckLen(pkt[4]) && HasScb(pkt[4]) && (e.role == Cp || e.scCapable)
    requires var n := |pkt| - CheckLen(pkt[4]);
             pkt[HDR + 1] < 0x11 || pkt[HDR + 1] > 0x18 || n < HDR + 2 || n < HDR + pkt[HDR]
    ensures Decode(a, e, pkt) == DecodeNak(NAK_SC_COND, e.session)
  {
  }

  // Whatever comes in, what a session hands on as data was MAC'd under it.
  lemma OnlyWithMac(a: Algorithms, e: End, pkt: seq<byte>)
    requires |pkt| > HDR && |pkt| >= HDR + CheckLen(pkt[4]) && HasScb(pkt[4]) && e.session.Some?
    requires Decode(a, e, pkt).Payload? && pkt[HDR + 1] > SCS_14
    ensures var body := pkt[..|pkt| - CheckLen(pkt[4])];
            && |body| >= HDR + 4
            && var m := MacChain(a.cipher, e.session.value, if e.role == Pd then e.session.value.rMac else e.session.value.cMac,
                                 MacPadded(body[..|body| - 4]));
            body[|body| - 4..] == m[..4]
  {
    hide MacChain, MacPadded, DecryptData;
  }

  // A secure packet with nothing in it but its MAC has no id to act on: in the clear types it passes for empty,
  // and where data is announced it costs the session; one too short for a MAC does either way.
  lemma NothingButMac(a: Algorithms, e: End, s: Session, body: seq<byte>)
    requires |body| >= HDR + 2 && |body| >= HDR + body[HDR]
    ensures |body| - 4 < HDR + body[HDR] ==> DecodeSecure(a, e, s, body) == DecodeNak(NAK_SC_COND, None)
    ensures |body| - 4 == HDR + body[HDR] ==>
              var s' := WithMac(a.cipher, s, e.role == Pd, body[..|body| - 4]);
              DecodeSecure(a, e, s, body)
              == (if body[|body| - 4..] == OwnMac(e.role == Pd, s')[..4] && body[HDR + 1] !in {SCS_17, SCS_18}
                  then Payload([], Some(s')) else DecodeNak(NAK_SC_COND, None))
  {
    hide WithMac, DecryptData;
    if |body| - 4 == HDR + body[HDR] {
      assert body[HDR + body[HDR]..|body| - 4] == [];
    }
  }
}
