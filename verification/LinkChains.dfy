// Under a session a packet carries the first four bytes of a MAC chained from the other end's last
// one. What becomes of a packet when the two ends no longer hold the same chain: a command given up
// after the device had answered it, or run by a device whose answer never left.
module LinkChains {
  import opened Bytes
  import opened SecureChannel
  import opened Packet
  import opened PacketRoundTrip
  import opened Link
  import opened LinkFacts
  import opened LinkRun
  import opened LinkProof

  // The test the receiver makes on a secure packet, mark byte off: the MAC bytes in it against those
  // its own chain gives.
  predicate MacAgrees(a: Algorithms, e: End, pkt: seq<byte>)
    requires e.session.Some? && |pkt| >= HDR + 6
  {
    var body := pkt[..|pkt| - CheckLen(pkt[4])];
    var macAt := |body| - 4;
    body[macAt..] == OwnMac(e.role == Pd, WithMac(a.cipher, e.session.value, e.role == Pd, body[..macAt]))[..4]
  }

  // The receiver's chain once it has read the packet.
  function ChainAfter(a: Algorithms, e: End, pkt: seq<byte>): Session
    requires e.session.Some? && |pkt| >= HDR + 6
  {
    WithMac(a.cipher, e.session.value, e.role == Pd, pkt[..|pkt| - CheckLen(pkt[4]) - 4])
  }

  // A secure packet at an end with any chain of its own: refused, ending the session, unless the MACs
  // agree; if it carries no data, taken exactly when they do.
  lemma Verdict(a: Algorithms, tx: End, rx: End, m: Msg, max: int)
    requires a.Valid() && tx.Valid() && Ordinary(tx, m) && Finalize(a, tx, Init(tx, m, 0), max).Some?
    requires tx.session.Some? && rx.session.Some? && rx.role != tx.role && (rx.role == Pd ==> rx.scCapable)
    ensures var pkt := Finalize(a, tx, Init(tx, m, 0), max).value.0;
            && |pkt| >= HDR + 6
            && (!MacAgrees(a, rx, pkt) ==> Decode(a, rx, pkt) == DecodeNak(NAK_SC_COND, None))
            && (MacAgrees(a, rx, pkt) && m.data == [] ==> Decode(a, rx, pkt) == Payload([m.id], Some(ChainAfter(a, rx, pkt))))
  {
    hide CheckBytes, Protect, Finalize, Init, Intact, WithMac;
    InitFields(tx, m, 0);
    var out := FinalizeImage(a, tx, m, 0, max);
    var s' := Finalize(a, tx, Init(tx, m, 0), max).value.1.value;
    SecureImage(a, tx, m, max, out, s');
    var pkt := out + CheckBytes(a, out);
    assert pkt[..|pkt| - CheckLen(pkt[4])] == out;
    assert pkt[HDR] == out[HDR] && pkt[HDR + 1] == out[HDR + 1];
    assert pkt[..|pkt| - CheckLen(pkt[4]) - 4] == out[..|out| - 4];
  }

  lemma SecureImage(a: Algorithms, tx: End, m: Msg, max: int, out: seq<byte>, s': Session)
    requires a.Valid() && tx.Valid() && Ordinary(tx, m) && tx.session.Some?
    requires Protect(a, tx.role == Cp, tx.session.value, Init(tx, m, 0), max) == Some((out, s'))
    ensures |out| >= HDR + 2 + 1 + 4 && out[HDR] == 2 && SCS_15 <= out[HDR + 1] <= SCS_18
    ensures HasScb(out[4])
    ensures m.data == [] ==> out[HDR + 1] != SCS_17 && out[HDR + 1] != SCS_18 && out[HDR + 2..|out| - 4] == [m.id]
  {
    hide EncryptData, WithMac;
    var d := Init(tx, m, 0);
    InitFields(tx, m, 0);
    var d' := Sealed(a, tx.role == Cp, tx.session.value, d);
    var image := Image(d', d'.Len() + CheckLen(d.control) + 4);
    assert out == image + OwnMac(tx.role == Cp, s')[..4];
    assert out[HDR] == image[HDR..][0] && out[HDR + 1] == image[HDR..][1];
    assert out[HDR + 2..|out| - 4] == image[HDR..][2..] == d'.payload;
  }

  // The packet on the wire for a command, without its mark byte.
  function Pkt(cfg: Config, w: seq<byte>): seq<byte> {
    if |w| < MarkLen(cfg.mark) then [] else w[MarkLen(cfg.mark)..]
  }

  // ---- At the device ----

  // A command under a session at a device that has not cached an answer to its id on its number:
  // whatever R-MAC the device holds, it is run only if the MACs agree; if they do not, the device
  // answers NAK SC_COND and drops the session.
  lemma DeviceVerdict(a: Algorithms, cfg: Config, g: Flight, pd: PdState, reply: Msg)
    requires a.Valid() && cfg.Valid() && FlightOk(a, cfg, g) && g.sqn > 0 && g.session.Some? && pd.session.Some?
    requires -1 <= pd.sqn <= 3 && (pd.sqn == g.sqn || NextSeq(pd.sqn) == g.sqn)
    requires pd.sqn == g.sqn && pd.cacheLen > 0 ==> pd.lastCmd != g.cmd.id
    ensures var base := if pd.sqn == g.sqn then pd.(sqn := Rollback(pd.sqn), cacheLen := 0) else pd;
            var e, pkt := PdEnd(cfg, base, cfg.mark), Pkt(cfg, g.wire);
            && |pkt| >= HDR + 6
            && (!MacAgrees(a, e, pkt) ==>
                  PdReceive(a, cfg, pd, g.wire, reply)
                  == Answer(base.(session := None, cacheLen := 0), Msg(REPLY_NAK, [NAK_SC_COND]), cfg.mark, None))
            && (MacAgrees(a, e, pkt) && g.cmd.data == [] ==>
                  PdReceive(a, cfg, pd, g.wire, reply)
                  == Answer(base.(session := Some(ChainAfter(a, e, pkt)), cmdId := g.cmd.id), reply, cfg.mark, Some(g.cmd)))
  {
    hide Finalize, Init, CheckPacket, Decode, ValidateHeader, Intact, MacAgrees, ChainAfter;
    var base := if pd.sqn == g.sqn then pd.(sqn := Rollback(pd.sqn), cacheLen := 0) else pd;
    PdChecks(a, cfg, g, pd, cfg.mark);
    Verdict(a, FlightEnd(cfg, g), PdEnd(cfg, base, cfg.mark), g.cmd, cfg.cpMax - MarkLen(cfg.mark));
    assert g.cmd.data == [] ==> Msg([g.cmd.id][0], [g.cmd.id][1..]) == g.cmd;
  }

  // ---- At the panel ----

  // A reply under a session, on the number of the outstanding command, at a panel with any C-MAC.
  lemma PanelVerdict(a: Algorithms, cfg: Config, f: Flight, cp: CpState, r: Msg, w: seq<byte>, s: Option<Session>)
    requires a.Valid() && cfg.Valid() && FlightOk(a, cfg, f) && f.sqn > 0 && f.session.Some? && ReplyOk(r)
    requires Build(a, ReplyEnd(cfg, f), r, 0, cfg.pdMax) == Some((w, s))
    requires -1 <= cp.sqn <= 3 && NextSeq(cp.sqn) == f.sqn && cp.session.Some?
    ensures var e, pkt := CpEnd(cfg, cp), Pkt(cfg, w);
            && |pkt| >= HDR + 6
            && (!MacAgrees(a, e, pkt) ==> ProcessReply(a, cfg, cp, Some(w)) == ReplyBad(None))
            && (MacAgrees(a, e, pkt) && r.data == [] ==>
                  ProcessReply(a, cfg, cp, Some(w)) == ReplyMsg([r.id], Some(ChainAfter(a, e, pkt))))
  {
    hide Finalize, Init, Decode, ValidateHeader, Intact, MacAgrees, ChainAfter;
    var tx := ReplyEnd(cfg, f);
    Framed(a, tx, Cp, r, 0, cfg.pdMax);
    PacketFields(a, tx, r, 0, cfg.pdMax - MarkLen(cfg.mark));
    Verdict(a, tx, CpEnd(cfg, cp), r, cfg.pdMax - MarkLen(cfg.mark));
  }

  // ---- A command given up under a session ----

  // f was answered with r and given up; g is the next command, on the same number. With another id,
  // g is run only if its MAC, chained from the R-MAC before r, agrees with one chained from the R-MAC
  // after it, and otherwise costs the session.
  lemma AbandonedUnderSession(a: Algorithms, cfg: Config, f: Flight, g: Flight, pd: PdState, r: Msg, reply: Msg)
    requires a.Valid() && cfg.Valid() && FlightOk(a, cfg, f) && FlightOk(a, cfg, g)
    requires f.sqn == g.sqn > 0 && f.session.Some? && g.session.Some? && f.cmd.id != g.cmd.id
    requires Caught(pd, f) && Answered(a, cfg, pd, f, r)
    ensures pd.session.Some? && |Pkt(cfg, g.wire)| >= HDR + 6
    ensures var e := PdEnd(cfg, pd.(sqn := Rollback(pd.sqn), cacheLen := 0), cfg.mark);
            match PdReceive(a, cfg, pd, g.wire, reply)
            case Answer(pd', m, _, ran) =>
              && (!MacAgrees(a, e, Pkt(cfg, g.wire)) ==>
                    ran == None && m == Msg(REPLY_NAK, [NAK_SC_COND]) && pd'.session == None)
              && (MacAgrees(a, e, Pkt(cfg, g.wire)) && g.cmd.data == [] ==> ran == Some(g.cmd) && m == reply)
            case _ => MacAgrees(a, e, Pkt(cfg, g.wire)) && g.cmd.data != []
  {
    hide FlightOk, Build, PdReceive, MacAgrees;
    FlightSqn(a, cfg, f);
    AnsweredSecure(a, cfg, pd, f, r);
    DeviceVerdict(a, cfg, g, pd, reply);
  }

  // With the same id the device repeats r, which the panel takes only if the MAC chained from the
  // C-MAC of f agrees with one chained from that of g; otherwise the exchange fails and the panel
  // drops the session.
  lemma RepeatedUnderSession(a: Algorithms, cfg: Config, f: Flight, g: Flight, pd: PdState, cp: CpState, r: Msg, reply: Msg,
                             now: nat, app: AppRc)
    requires a.Valid() && cfg.Valid() && FlightOk(a, cfg, f) && FlightOk(a, cfg, g)
    requires f.sqn == g.sqn > 0 && f.session.Some? && g.session.Some? && f.cmd.id == g.cmd.id
    requires Caught(pd, f) && Answered(a, cfg, pd, f, r)
    requires -1 <= cp.sqn <= 3 && CpAlive(cp, g) && cp.phase == ReplyWait
    ensures PdReceive(a, cfg, pd, g.wire, reply) == Repeat
    ensures |Pkt(cfg, pd.txBuf)| >= HDR + 6
    ensures var st := CpReceive(a, cfg, cp, now, app, Some(pd.txBuf));
            && (!MacAgrees(a, CpEnd(cfg, cp), Pkt(cfg, pd.txBuf)) ==>
                  st.accepted == None && st.cp.phase == PhyErr && st.cp.session == None)
            && (MacAgrees(a, CpEnd(cfg, cp), Pkt(cfg, pd.txBuf)) && r.data == [] && app == AppOk ==>
                  st.accepted == Some(r) && st.cp.phase == Done)
  {
    hide FlightOk, Build, PdReceive, MacAgrees, ProcessReply, ChainAfter;
    FlightSqn(a, cfg, f);
    PdRepeats(a, cfg, g, pd, reply);
    PanelVerdict(a, cfg, f, cp, r, pd.txBuf, pd.session);
    assert r.data == [] ==> Msg([r.id][0], [r.id][1..]) == r;
  }

  lemma AnsweredSecure(a: Algorithms, cfg: Config, pd: PdState, f: Flight, r: Msg)
    requires a.Valid() && cfg.Valid() && 0 <= f.sqn <= 3 && f.session.Some? && Answered(a, cfg, pd, f, r)
    ensures pd.session.Some?
  {
    hide CheckBytes, Image, MacChain, CbcEncrypt;
  }

  // ---- An answer that never left ----

  // On a plain link, a device whose channel refuses its answer for good runs the retried command a
  // second time.
  lemma BrokenSendRunsTwice(a: Algorithms, cfg: Config, f: Flight, pd: PdState, send: SendRc, reply: Msg, again: Msg)
    requires a.Valid() && cfg.Valid() && FlightOk(a, cfg, f) && f.sqn > 0 && f.session == None
    requires Behind(pd, f.sqn, None) && pd.sqn <= 3
    requires WireLen(PdEnd(cfg, pd, cfg.mark), reply, 0) <= cfg.pdMax
    requires WireLen(PdEnd(cfg, pd, cfg.mark), again, 0) <= cfg.pdMax
    ensures var first := PdUpdate(a, cfg, pd, Broken, Some(f.wire), reply);
            && first.ran == Some(f.cmd) && first.tx == None && first.pd.sqn == pd.sqn
            && PdUpdate(a, cfg, first.pd, send, Some(f.wire), again).ran == Some(f.cmd)
  {
    hide PdReceive, Build, WireLen, FlightOk;
    PdTakes(a, cfg, f, pd, reply);
    var pd' := pd.(session := f.session, cmdId := f.cmd.id);
    var built := PdRuns(a, cfg, pd, pd', f.wire, Broken, f.cmd, reply);
    BuildKeepsPlain(a, PdEnd(cfg, pd', cfg.mark), reply, cfg.pdMax);
    var first := PdUpdate(a, cfg, pd, Broken, Some(f.wire), reply).pd;
    PdTakes(a, cfg, f, first, again);
    FitsAfter(cfg, pd, first, again);
    var built' := PdRuns(a, cfg, first, first.(session := f.session, cmdId := f.cmd.id), f.wire, send, f.cmd, again);
  }

  // Under a session building the answer has moved the device's R-MAC, so the retry is run again only
  // if the MACs happen to agree; if they do not, the command that was run is answered with NAK SC_COND
  // and the session is gone.
  lemma BrokenSendUnderSession(a: Algorithms, cfg: Config, f: Flight, pd: PdState, send: SendRc, reply: Msg, again: Msg)
    requires a.Valid() && cfg.Valid() && FlightOk(a, cfg, f) && f.sqn > 0 && f.session.Some? && ReplyOk(reply)
    requires Behind(pd, f.sqn, f.session) && pd.sqn <= 3
    requires WireLen(PdEnd(cfg, pd, cfg.mark), reply, 0) <= cfg.pdMax
    ensures |Pkt(cfg, f.wire)| >= HDR + 6
    ensures var first := PdUpdate(a, cfg, pd, Broken, Some(f.wire), reply);
            && first.ran == Some(f.cmd) && first.tx == None && first.pd.sqn == pd.sqn && first.pd.session.Some?
            && var second := PdUpdate(a, cfg, first.pd, send, Some(f.wire), again);
            var agrees := MacAgrees(a, PdEnd(cfg, first.pd, cfg.mark), Pkt(cfg, f.wire));
            && (!agrees ==> second.ran == None && second.pd.session == None)
            && (f.cmd.data == [] ==> (second.ran == Some(f.cmd) <==> agrees))
  {
    hide PdReceive, Build, WireLen, FlightOk, MacAgrees, ChainAfter;
    PdTakes(a, cfg, f, pd, reply);
    SameChainSome(pd.session, f.session);
    var pd' := pd.(session := f.session, cmdId := f.cmd.id);
    var built := PdRuns(a, cfg, pd, pd', f.wire, Broken, f.cmd, reply);
    ReplyRebuild(a, PdEnd(cfg, pd', cfg.mark), ReplyEnd(cfg, f), reply, cfg.pdMax);
    AnsweredSecure(a, cfg, built, f, reply);
    var first := PdUpdate(a, cfg, pd, Broken, Some(f.wire), reply).pd;
    SelfNext(first.sqn, f.sqn);
    DeviceVerdict(a, cfg, f, first, again);
    NakEnds(a, cfg, first.(session := None, cacheLen := 0));
  }

  lemma SelfNext(s: int, t: int)
    requires -1 <= s <= 3 && NextSeq(s) == t
    ensures s != t
  {
  }

  // A NAK built without a session leaves the device without one.
  lemma NakEnds(a: Algorithms, cfg: Config, pd: PdState)
    requires a.Valid() && cfg.Valid() && -1 <= pd.sqn <= 3 && pd.session == None
    ensures match Build(a, PdEnd(cfg, pd, cfg.mark), Msg(REPLY_NAK, [NAK_SC_COND]), 0, cfg.pdMax)
            case None => true
            case Some((_, s)) => s == None
  {
    hide Build;
    if Build(a, PdEnd(cfg, pd, cfg.mark), Msg(REPLY_NAK, [NAK_SC_COND]), 0, cfg.pdMax).Some? {
      BuildKeepsPlain(a, PdEnd(cfg, pd, cfg.mark), Msg(REPLY_NAK, [NAK_SC_COND]), cfg.pdMax);
    }
  }
}
