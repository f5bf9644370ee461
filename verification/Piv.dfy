// Smartcard operations over the multi-part engine (src/osdp_piv.c): a command leg from the panel to
// the device, a reply leg back, one engine and one buffer for both, at each end.
module Piv {
  import opened Bytes
  import opened Multipart

  const DATA_MAX := 256     // OSDP_PIV_DATA_MAX_LEN
  const PIVDATA_LEN := 5    // CMD_PIVDATA_DATA_LEN

  datatype Family = PivData | GenAuth | CrAuth

  datatype Phase = Idle | Command | Reply

  datatype Piv = Piv(
    phase: Phase,
    family: Family,
    started: bool,          // start_emitted of the operation
    algorithm: byte,
    key: byte,
    req: seq<byte>,         // a PIVDATA request's object id, element and offset
    mp: Transfer,
    store: seq<byte>)       // data[], as the last leg left it

  // Do command fragments of the family carry the algorithm and key before the first one?
  function PfxLen(f: Family): nat { if f == PivData then 0 else 2 }

  // The engine of a panel's operation is fit for its leg; and of a device's.
  predicate CpFit(p: Piv) {
    (p.phase == Command && p.family != PivData ==> TxValid(p.mp)) && (p.phase == Reply ==> RxValid(p.mp))
  }

  predicate PdFit(p: Piv) {
    (p.phase == Command ==> RxValid(p.mp)) && (p.phase == Reply ==> TxValid(p.mp))
  }

  // piv_op_reset
  function Reset(p: Piv): Piv { p.(phase := Idle, mp := Blank(p.mp.notices)) }

  // piv_op_setup: armed at once, so that an operation that dies early still reports its end.
  function Setup(p: Piv, f: Family): Piv {
    p.(phase := Command, family := f, started := false, mp := RxInit(Blank(p.mp.notices), W16, 0))
  }

  // osdp_mp_bind_buffer on the whole buffer, or on its first n bytes holding d.
  function BindAll(p: Piv): Transfer { p.mp.(cap := Some(|p.store|), data := p.store) }

  function BindData(p: Piv, d: seq<byte>): Transfer { p.mp.(cap := Some(|d|), data := d) }

  // piv_emit_start: one START for the operation, whatever its legs do to the engine.
  function Announce(p: Piv): Piv {
    if p.started then p else p.(started := true, mp := EmitStart(p.mp))
  }

  // osdp_piv_abort
  function Abort(p: Piv): Piv {
    if p.phase == Idle then p
    else
      var q := Announce(p);
      Reset(q.(mp := Finish(q.mp, Aborted)))
  }

  // ---- Panel ----

  // challenge: what the command carries; for PIVDATA, which has no algorithm and key, its five bytes.
  datatype Request = Data(f: Family, algorithm: byte, key: byte, challenge: seq<byte>) {
    predicate Typed() { f == PivData ==> algorithm == key == 0 && |challenge| == PIVDATA_LEN }
  }

  predicate Good(d: seq<byte>) { 0 < |d| <= DATA_MAX }

  // osdp_piv_cp_submit, no other engine being busy.
  function Submit(p: Piv, r: Request): Option<Piv> {
    if p.phase != Idle then None
    else if r.f == PivData then Some(Setup(p, r.f).(req := r.challenge))
    else if !Good(r.challenge) then None
    else
      var s := Setup(p, r.f);
      var t := TxInit(BindData(s, r.challenge), |r.challenge|, W16);
      Some(s.(algorithm := r.algorithm, key := r.key, mp := t.value, store := Splice(s.store, 0, r.challenge)))
  }

  // osdp_piv_cp_cmd_build
  function BuildCommand(p: Piv, maxLen: int): (r: Option<(Piv, seq<byte>)>)
    requires CpFit(p)
    ensures r.Some? ==> CpFit(r.value.0)
  {
    if p.phase != Command then None
    else if p.family == PivData then (if maxLen < PIVDATA_LEN then None else Some((p, p.req)))
    else
      match TxBuild(p.mp, maxLen - 1 - SC_RESERVE, [p.algorithm, p.key], 0)
      case None => None
      case Some((mp', frame)) => Some((Announce(p.(mp := mp')), frame))
  }

  // piv_cp_reply_begin
  function BeginReply(p: Piv): Piv {
    Announce(p.(mp := RxInit(BindAll(p), W16, 0))).(phase := Reply)
  }

  // piv_cp_cmd_leg_done: commit, and is the whole command out?
  function LegDone(p: Piv): (Piv, bool)
    requires CpFit(p) && p.phase == Command
  {
    if p.family == PivData then (p, true)
    else
      var mp' := TxCommit(p.mp);
      (p.(mp := mp'), mp'.offset >= mp'.total)
  }

  // osdp_piv_cp_cmd_acked
  function Acked(p: Piv): (q: Piv)
    requires CpFit(p)
    ensures CpFit(q)
  {
    if p.phase != Command then p
    else
      var (q, done) := LegDone(p);
      if done then BeginReply(q) else q
  }

  // What the panel does with a reply fragment once its reply leg is open; after a complete reply
  // osdp_piv_cp_reply_finish ends the operation.
  function ConcludeReply(q: Piv, c: Consumed): (r: (Piv, Option<seq<byte>>))
    requires RxValid(c.t) && q.phase == Reply
    ensures CpFit(r.0)
  {
    var t := RxCommit(c.t);
    match c.verdict
    case More => (q.(mp := t, store := t.data), None)
    case Complete =>
      (Reset(q.(mp := Finish(t, Okay), store := t.data)),
       if t.total <= |t.data| then Some(t.data[..t.total]) else None)
    case _ => (Abort(q.(mp := c.t, store := c.t.data)), None)
  }

  // osdp_piv_cp_reply_consume. answersCommand: the reply came straight back to the command.
  function TakeReply(p: Piv, frame: seq<byte>, answersCommand: bool): (r: (Piv, Option<seq<byte>>))
    requires CpFit(p)
    ensures CpFit(r.0)
  {
    if p.phase == Idle || (p.phase == Command && !answersCommand) then (p, None)
    else
      var q := if p.phase == Command then BeginReply(LegDone(p).0) else p;
      ConcludeReply(q, RxConsume(q.mp, frame, 0, WriteOk))
  }

  // ---- Device ----

  datatype Taken = Nak | Ack | Deliver(r: Request)

  // A first fragment opens an operation, or supersedes the one there was.
  function Opened(p: Piv, f: Family, total: nat): Piv {
    var s := Setup(Abort(p), f);
    Announce(s.(mp := RxInit(BindAll(s), W16, total)))
  }

  // What the device does with a command fragment at off once its command leg is open.
  function ConcludeCommand(q: Piv, off: nat, c: Consumed): (r: (Piv, Taken))
    requires RxValid(c.t) && q.phase == Command
    ensures PdFit(r.0)
  {
    if c.verdict == EarlyTerm then (Abort(q.(mp := c.t, store := c.t.data)), Ack)
    else if c.verdict == Bad || c.verdict == Retry then (Abort(q.(mp := c.t, store := c.t.data)), Nak)
    else
      var t := RxCommit(c.t);
      var pfx := if c.pfx.Some? && |c.pfx.value| == 2 then c.pfx.value else [0, 0];
      var u := q.(algorithm := if off == 0 then pfx[0] else q.algorithm, key := if off == 0 then pfx[1] else q.key,
                  mp := t, store := t.data);
      (u, if c.verdict == More || t.total > |t.data| then Ack
          else Deliver(Data(u.family, u.algorithm, u.key, t.data[..t.total])))
  }

  // The command arms of pd_decode_command: PIVDATA is one packet, the others are osdp_piv_pd_cmd_frag.
  function TakeCommand(p: Piv, f: Family, frame: seq<byte>): (r: (Piv, Taken))
    requires PdFit(p)
    ensures PdFit(r.0)
  {
    if f == PivData then
      if |frame| != PIVDATA_LEN then (p, Nak) else (Setup(Abort(p), f), Deliver(Data(f, 0, 0, frame)))
    else
      match HdrRead(W16, frame)
      case None => (p, Nak)
      case Some(h) =>
        if h.off == 0 then
          if !(0 < h.total <= DATA_MAX) then (p, Nak)
          else
            var q := Opened(p, f, h.total);
            ConcludeCommand(q, 0, RxConsume(q.mp, frame, PfxLen(f), WriteOk))
        else if p.phase != Command || p.family != f || !Active(p.mp) then (p, Nak)
        else ConcludeCommand(p, h.off, RxConsume(p.mp, frame, PfxLen(f), WriteOk))
  }

  // osdp_piv_pd_reply_pending
  predicate Pending(p: Piv) { p.phase == Reply && Active(p.mp) && p.mp.offset < p.mp.total }

  // The application's data seeds the reply leg.
  function Seeded(p: Piv, d: seq<byte>): Piv
    requires Good(d)
  {
    p.(phase := Reply, store := Splice(p.store, 0, d), mp := EmitStart(TxInit(BindData(p, d), |d|, W16).value))
  }

  // The next fragment of the reply, committed at once: a lost one is repeated by the link.
  function NextReply(q: Piv, maxLen: int): (r: (Piv, Option<seq<byte>>))
    requires TxValid(q.mp) && q.phase == Reply
    ensures PdFit(r.0)
  {
    match TxBuild(q.mp, maxLen - SC_RESERVE, [], 0)
    case None => (Abort(q), None)
    case Some((mp', frame)) =>
      var t := TxCommit(mp');
      (if t.offset >= t.total then Reset(q.(mp := Finish(t, Okay))) else q.(mp := t), Some(frame))
  }

  // osdp_piv_pd_reply_build: reply seeds the leg, None continues it.
  function BuildReply(p: Piv, reply: Option<seq<byte>>, maxLen: int): (r: (Piv, Option<seq<byte>>))
    requires PdFit(p)
    ensures PdFit(r.0)
  {
    match reply
    case Some(d) => if p.phase != Command || !Good(d) then (p, None) else NextReply(Seeded(p, d), maxLen)
    case None => if !Pending(p) then (p, None) else NextReply(p, maxLen)
  }

  // ---- What is refused ----

  // An operation starts exactly if none is under way and, for an authentication, its challenge has from 1
  // to DATA_MAX bytes; the challenge is then in the buffer its command is sent from.
  lemma SubmitsExactly(p: Piv, r: Request)
    ensures Submit(p, r).Some? <==> p.phase == Idle && (r.f == PivData || 1 <= |r.challenge| <= DATA_MAX)
    ensures Submit(p, r).Some? ==>
              var q := Submit(p, r).value;
              && q.phase == Command && q.family == r.f && Active(q.mp) && !q.started && q.mp.notices == p.mp.notices
              && (if r.f == PivData then q.req == r.challenge && q.mp.total == 0
                  else r.challenge <= q.store && q.mp.data == r.challenge && q.algorithm == r.algorithm && q.key == r.key)
  {
  }

  // A PIVDATA request goes out in one piece or not at all.
  lemma PivDataFits(p: Piv, maxLen: int)
    requires p.phase == Command && p.family == PivData
    ensures BuildCommand(p, maxLen) == if maxLen >= PIVDATA_LEN then Some((p, p.req)) else None
  {
  }

  // A device sends no reply it was not asked for, none of the wrong length, and nothing after the last
  // fragment of one.
  lemma RefusesReply(p: Piv, reply: Option<seq<byte>>, maxLen: int)
    requires PdFit(p)
    requires if reply.Some? then p.phase != Command || !(1 <= |reply.value| <= DATA_MAX) else !Pending(p)
    ensures BuildReply(p, reply, maxLen) == (p, None)
  {
    hide NextReply;
  }

  // A command fragment that does not fit in where the device stands draws a NAK and ends the operation it
  // belongs to; one that ends the command early ends it with an ACK; one with no operation to go to, or
  // that announces nothing or too much, draws a NAK and leaves what there is alone.
  lemma RefusesFragment(p: Piv, f: Family, frame: seq<byte>)
    requires PdFit(p) && f != PivData
    ensures HdrRead(W16, frame) == None ==> TakeCommand(p, f, frame) == (p, Nak)
    ensures HdrRead(W16, frame).Some? ==>
              var h := HdrRead(W16, frame).value;
              && (h.off == 0 && (h.total == 0 || h.total > DATA_MAX) ==> TakeCommand(p, f, frame) == (p, Nak))
              && (h.off > 0 && (p.phase != Command || p.family != f || !Active(p.mp)) ==> TakeCommand(p, f, frame) == (p, Nak))
              && (h.off > 0 && p.phase == Command && p.family == f && Active(p.mp) ==>
                    var v := RxConsume(p.mp, frame, 2, WriteOk).verdict;
                    && (v == Bad ==> TakeCommand(p, f, frame).0.phase == Idle && TakeCommand(p, f, frame).1 == Nak)
                    && (v == EarlyTerm ==> TakeCommand(p, f, frame).0.phase == Idle && TakeCommand(p, f, frame).1 == Ack))
  {
    hide HdrRead, RxConsume, Opened;
  }

  // A PIVDATA command is five bytes and handed over as they are, superseding what there was; any other length
  // draws a NAK and leaves it alone.
  lemma TakesPivData(p: Piv, frame: seq<byte>)
    requires PdFit(p)
    ensures var (q, taken) := TakeCommand(p, PivData, frame);
            if |frame| == PIVDATA_LEN then q.phase == Command && q.family == PivData && taken == Deliver(Data(PivData, 0, 0, frame))
            else (q, taken) == (p, Nak)
  {
  }

  // A device's operation ends with its reply's last fragment, told as OK, or, when a fragment cannot be built,
  // aborted; until then it stays open.
  lemma ReplyEnds(q: Piv, maxLen: int)
    requires TxValid(q.mp) && q.phase == Reply && Active(q.mp)
    ensures var (r, frame) := NextReply(q, maxLen);
            if frame == None then r.phase == Idle && r.mp.notices != [] && r.mp.notices[|r.mp.notices| - 1] == Done(Aborted)
            else
              && (r.phase == Idle <==> TxCommit(TxBuild(q.mp, maxLen - SC_RESERVE, [], 0).value.0).offset == q.mp.total)
              && (r.phase == Idle ==> r.mp.notices != [] && r.mp.notices[|r.mp.notices| - 1] == Done(Okay))
              && (r.phase != Idle ==> r.phase == Reply && r.mp.total == q.mp.total && r.mp.offset < r.mp.total)
  {
    hide HdrWrite;
  }

  // The reply is in the buffer its fragments are sent from.
  lemma SeedStored(p: Piv, d: seq<byte>)
    requires Good(d)
    ensures var q := Seeded(p, d); d <= q.store && q.mp.data == d && q.mp.total == |d| && q.mp.offset == 0 && Active(q.mp)
  {
  }

  // An operation that is aborted leaves its engine as if it had never run, and its end told.
  lemma AbortClears(p: Piv)
    requires p.phase != Idle && Active(p.mp)
    ensures var q := Abort(p);
            q.phase == Idle && q.mp == Blank(q.mp.notices) && q.mp.notices != [] && q.mp.notices[|q.mp.notices| - 1] == Done(Aborted)
  {
  }

  // ---- What the buffer holds ----

  // The buffer is what the engine received into; what is handed over is its beginning.
  lemma ReplyStored(p: Piv, frame: seq<byte>, answersCommand: bool)
    requires CpFit(p) && (p.phase == Reply ==> p.store == p.mp.data)
    ensures var (q, got) := TakeReply(p, frame, answersCommand);
            && (q.phase == Reply ==> q.store == q.mp.data) && (got.Some? ==> got.value <= q.store)
  {
    hide RxConsume, TxCommit;
    var q := if p.phase == Command then BeginReply(LegDone(p).0) else p;
  }
}
