// How one step of an end treats a packet the other end built.
module LinkFacts {
  import opened Bytes
  import opened SecureChannel
  import opened Packet
  import opened PacketRoundTrip
  import opened Link

  // The outstanding command: what was put on the wire for it and the session it left behind.
  datatype Flight = Flight(cmd: Msg, sqn: int, wire: seq<byte>, session: Option<Session>, sent: bool)

  // A panel about to send f's command (again): one sequence number back, session as the last build
  // left it.
  function FlightEnd(cfg: Config, f: Flight): End {
    End(Cp, cfg.address, cfg.mark, cfg.useCrc, false, true, cfg.allowEmpty, cfg.enforceSecure,
        f.cmd.id, f.sqn - 1, f.session)
  }

  // A device that has taken f's command in and is about to answer it.
  function ReplyEnd(cfg: Config, f: Flight): End {
    End(Pd, cfg.address, cfg.mark, true, false, true, cfg.allowEmpty, cfg.enforceSecure,
        f.cmd.id, f.sqn - 1, f.session)
  }

  predicate CmdOk(m: Msg) {
    m.id != CMD_KEYSET && !InHandshake(Cp, m.id)
  }

  predicate ReplyOk(m: Msg) {
    m.id != REPLY_BUSY && !InHandshake(Pd, m.id)
  }

  ghost predicate FlightOk(a: Algorithms, cfg: Config, f: Flight)
    requires a.Valid() && cfg.Valid()
  {
    && 0 <= f.sqn <= 3 && CmdOk(f.cmd)
    && (f.sqn == 0 ==> f.session == None)
    && Build(a, FlightEnd(cfg, f), f.cmd, 0, cfg.cpMax) == Some((f.wire, f.session))
  }

  lemma FlightSqn(a: Algorithms, cfg: Config, f: Flight)
    requires a.Valid() && cfg.Valid() && FlightOk(a, cfg, f)
    ensures 0 <= f.sqn <= 3
  {
  }

  // Same keys, same R-MAC: all that a command is built from or checked against.
  predicate SameChain(s: Option<Session>, t: Option<Session>) {
    (s == None && t == None) || (s.Some? && t.Some? && s.value.(cMac := t.value.cMac) == t.value)
  }

  lemma MacIgnoresCMac(c: Cipher, s: Session, t: Session, iv: Block, blocks: seq<byte>)
    requires s.(cMac := t.cMac) == t && |blocks| % 16 == 0 && |blocks| > 0
    ensures MacChain(c, s, iv, blocks) == MacChain(c, t, iv, blocks)
    decreases |blocks|
  {
    if |blocks| > 16 {
      MacIgnoresCMac(c, s, t, c.enc(s.sMac1, XorBlock(blocks[..16], iv)), blocks[16..]);
    }
  }

  // Rebuilding a command from a session whose C-MAC an earlier attempt overwrote, and from a
  // sequence number rewound to any predecessor, gives the same bytes and the same session.
  lemma RebuildIdentical(a: Algorithms, e: End, e': End, m: Msg, maxLen: int)
    requires a.Valid() && e.Valid() && e'.Valid() && e.role == Cp
    requires SameChain(e.session, e'.session) && NextSeq(e.sqn) == NextSeq(e'.sqn)
    requires e' == e.(session := e'.session, sqn := e'.sqn, cmdId := e'.cmdId)
    ensures Build(a, e, m, 0, maxLen) == Build(a, e', m, 0, maxLen)
  {
    hide Protect, CheckBytes, Image;
    assert Init(e, m, 0) == Init(e', m, 0);
    if e.session.Some? {
      ProtectIdentical(a, e.session.value, e'.session.value, Init(e, m, 0), maxLen - MarkLen(e.mark));
    }
  }

  lemma ProtectIdentical(a: Algorithms, s: Session, t: Session, d: Draft, max: int)
    requires d.Valid() && s.(cMac := t.cMac) == t
    ensures d.scb != [] ==> Protect(a, true, s, d, max) == Protect(a, true, t, d, max)
  {
    hide CbcEncrypt, MacPadded, Image;
    if d.scb != [] {
      assert Sealed(a, true, s, d) == Sealed(a, true, t, d);
      var d' := Sealed(a, true, s, d);
      var image := Image(d', d'.Len() + CheckLen(d.control) + 4);
      MacIgnoresCMac(a.cipher, s, t, s.rMac, MacPadded(image));
    }
  }

  lemma ReplyRebuild(a: Algorithms, e: End, e': End, m: Msg, maxLen: int)
    requires a.Valid() && e.Valid() && e'.Valid() && e.role == Pd
    requires NextSeq(e.sqn) == NextSeq(e'.sqn) && e' == e.(sqn := e'.sqn, cmdId := e'.cmdId)
    ensures Build(a, e, m, 0, maxLen) == Build(a, e', m, 0, maxLen)
  {
    hide Protect, CheckBytes, Image;
    assert Init(e, m, 0) == Init(e', m, 0);
  }

  // ---- Device side ----

  // What a device's checks make of the outstanding command: the next one, or one on its own number.
  lemma PdChecks(a: Algorithms, cfg: Config, f: Flight, pd: PdState, mark: bool)
    requires a.Valid() && cfg.Valid() && FlightOk(a, cfg, f) && f.sqn > 0
    requires -1 <= pd.sqn <= 3 && (NextSeq(pd.sqn) == f.sqn || pd.sqn == f.sqn)
    ensures ValidateHeader(Pd, f.wire, PACKET_BUF_SIZE) == Frame(|f.wire|, cfg.mark)
    ensures |f.wire| > MarkLen(cfg.mark) + HDR
    ensures var pkt := f.wire[MarkLen(cfg.mark)..];
            && |pkt| > HDR && Intact(a, pkt)
            && CheckPacket(a, PdEnd(cfg, pd, mark), Cached(pd), pkt)
            == if pd.sqn != f.sqn then Pass(pd.sqn, true, false)
               else if pd.cacheLen > 0 && pd.lastCmd == f.cmd.id then Resend
               else Pass(Rollback(pd.sqn), false, false)
  {
    hide Finalize, Init, ValidateHeader, Intact;
    var tx := FlightEnd(cfg, f);
    Framed(a, tx, Pd, f.cmd, 0, cfg.cpMax);
    PacketFields(a, tx, f.cmd, 0, cfg.cpMax - MarkLen(cfg.mark));
  }

  // A new command on the next sequence number is taken in, and the device's session becomes the
  // panel's.
  lemma PdTakes(a: Algorithms, cfg: Config, f: Flight, pd: PdState, reply: Msg)
    requires a.Valid() && cfg.Valid() && FlightOk(a, cfg, f)
    requires -1 <= pd.sqn <= 3 && NextSeq(pd.sqn) == f.sqn && f.sqn > 0 && SameChain(pd.session, f.session)
    ensures PdReceive(a, cfg, pd, f.wire, reply)
         == Answer(pd.(session := f.session, cmdId := f.cmd.id), reply, cfg.mark, Some(f.cmd))
  {
    hide Build, CheckPacket, Decode, ValidateHeader;
    var tx := FlightEnd(cfg, f);
    var tx' := tx.(session := pd.session);
    RebuildIdentical(a, tx, tx', f.cmd, cfg.cpMax);
    BuildFits(a, tx', f.cmd, 0, cfg.cpMax);
    RoundTrip(a, tx', PdEnd(cfg, pd, cfg.mark), Cached(pd), f.cmd, 0, cfg.cpMax);
    assert ([f.cmd.id] + f.cmd.data)[1..] == f.cmd.data;
  }

  // A command on sequence 0 is taken in whatever state the device is in, and ends its session.
  lemma PdRestarts(a: Algorithms, cfg: Config, f: Flight, pd: PdState, reply: Msg)
    requires a.Valid() && cfg.Valid() && FlightOk(a, cfg, f)
    requires -1 <= pd.sqn <= 3 && f.sqn == 0
    ensures PdReceive(a, cfg, pd, f.wire, reply)
         == Answer(pd.(sqn := -1, cacheLen := 0, session := None, cmdId := f.cmd.id), reply, cfg.mark, Some(f.cmd))
  {
    hide Build, Decode, ValidateHeader, Intact;
    var tx := FlightEnd(cfg, f);
    var pd1 := pd.(sqn := -1, cacheLen := 0, session := None);
    BuildFits(a, tx, f.cmd, 0, cfg.cpMax);
    RoundTrip(a, tx, PdEnd(cfg, pd1, cfg.mark), Cached(pd1), f.cmd, 0, cfg.cpMax);
    assert ([f.cmd.id] + f.cmd.data)[1..] == f.cmd.data;
  }

  // The same command again, once answered, only draws the cached reply.
  lemma PdRepeats(a: Algorithms, cfg: Config, f: Flight, pd: PdState, reply: Msg)
    requires a.Valid() && cfg.Valid() && FlightOk(a, cfg, f)
    requires pd.sqn == f.sqn > 0 && pd.cacheLen > 0 && pd.lastCmd == f.cmd.id
    ensures PdReceive(a, cfg, pd, f.wire, reply) == Repeat
  {
    hide Finalize, Init, Decode, ValidateHeader, Intact;
    var tx := FlightEnd(cfg, f);
    Framed(a, tx, Pd, f.cmd, 0, cfg.cpMax);
    PacketFields(a, tx, f.cmd, 0, cfg.cpMax - MarkLen(cfg.mark));
  }

  // ---- Panel side ----

  // A reply of this device, whoever it was meant for: framed, intact, addressed right, numbered t.
  ghost predicate PdWire(a: Algorithms, cfg: Config, w: seq<byte>, t: int)
    requires a.Valid() && cfg.Valid()
  {
    exists mark: bool :: PdWireWith(a, cfg, w, t, mark)
  }

  ghost predicate PdWireWith(a: Algorithms, cfg: Config, w: seq<byte>, t: int, mark: bool)
    requires a.Valid() && cfg.Valid()
  {
    && ValidateHeader(Cp, w, PACKET_BUF_SIZE) == Frame(|w|, mark)
    && |w| > HDR + MarkLen(mark)
    && var pkt := w[MarkLen(mark)..];
    && Intact(a, pkt) && pkt[1] % 0x80 == cfg.address && SeqOf(pkt[4]) == t
    && (!HasScb(pkt[4]) ==> pkt[HDR] != REPLY_BUSY)
  }

  lemma PdBuilds(a: Algorithms, cfg: Config, pd: PdState, mark: bool, m: Msg)
    requires a.Valid() && cfg.Valid() && -1 <= pd.sqn <= 3 && m.id != REPLY_BUSY
    requires Build(a, PdEnd(cfg, pd, mark), m, 0, cfg.pdMax).Some?
    ensures PdWire(a, cfg, Build(a, PdEnd(cfg, pd, mark), m, 0, cfg.pdMax).value.0, NextSeq(pd.sqn))
  {
    hide Finalize, Init, ValidateHeader, Intact;
    var e := PdEnd(cfg, pd, mark);
    Framed(a, e, Cp, m, 0, cfg.pdMax);
    PacketFields(a, e, m, 0, cfg.pdMax - MarkLen(mark));
    assert PdWireWith(a, cfg, Build(a, e, m, 0, cfg.pdMax).value.0, NextSeq(pd.sqn), mark);
  }

  // Out of step, it asks for a link reset.
  lemma CpRejects(a: Algorithms, cfg: Config, cp: CpState, w: seq<byte>, t: int)
    requires a.Valid() && cfg.Valid() && -1 <= cp.sqn <= 3 && PdWire(a, cfg, w, t) && t != NextSeq(cp.sqn)
    ensures ProcessReply(a, cfg, cp, Some(w)) == ReplySeqNum
  {
    hide ValidateHeader, Intact, Decode;
    var mark :| PdWireWith(a, cfg, w, t, mark);
  }

  // In step but on a plain link, whatever it decodes to leaves the link plain.
  lemma CpPlain(a: Algorithms, cfg: Config, cp: CpState, w: seq<byte>, t: int)
    requires a.Valid() && cfg.Valid() && -1 <= cp.sqn <= 3 && cp.session == None
    requires PdWire(a, cfg, w, t) && t == NextSeq(cp.sqn)
    ensures match ProcessReply(a, cfg, cp, Some(w))
            case ReplyBad(s) => s == None
            case ReplyMsg(_, s) => s == None
            case _ => false
  {
    hide ValidateHeader, Intact;
    var mark :| PdWireWith(a, cfg, w, t, mark);
  }

  // The device's answer to the outstanding command decodes to what the device built, and carries
  // the panel's session to where the device's is.
  lemma CpTakes(a: Algorithms, cfg: Config, f: Flight, cp: CpState, m: Msg, w: seq<byte>, s: Option<Session>)
    requires a.Valid() && cfg.Valid() && FlightOk(a, cfg, f) && ReplyOk(m)
    requires -1 <= cp.sqn <= 3 && NextSeq(cp.sqn) == f.sqn > 0 && cp.session == f.session
    requires Build(a, ReplyEnd(cfg, f), m, 0, cfg.pdMax) == Some((w, s))
    ensures ProcessReply(a, cfg, cp, Some(w)) == ReplyMsg([m.id] + m.data, s)
  {
    hide Build, CheckPacket, Decode, ValidateHeader;
    BuildFits(a, ReplyEnd(cfg, f), m, 0, cfg.pdMax);
    RoundTrip(a, ReplyEnd(cfg, f), CpEnd(cfg, cp), None, m, 0, cfg.pdMax);
  }
}
