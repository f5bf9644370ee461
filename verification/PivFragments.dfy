// One fragment of a smartcard operation across: built by one engine, taken in by the other.
module PivFragments {
  import opened Bytes
  import opened Multipart
  import opened MultipartRun
  import opened Notices
  import opened Piv

  // ---- Command leg ----

  ghost predicate Sending(cp: Piv, r: Request) {
    && cp.phase == Command && cp.family == r.f != PivData && cp.algorithm == r.algorithm && cp.key == r.key
    && |cp.store| == DATA_MAX && Good(r.challenge) && Active(cp.mp) && TxValid(cp.mp)
    && cp.mp.data == r.challenge && cp.mp.total == |r.challenge| && cp.mp.cap.Some? && cp.mp.width == W16
  }

  ghost predicate Taking(pd: Piv, cp: Piv, r: Request) {
    && |pd.store| == DATA_MAX && PdFit(pd)
    && (cp.mp.offset > 0 ==>
          && pd.phase == Command && pd.family == r.f && Active(pd.mp) && pd.mp.data == pd.store && pd.mp.cap == Some(DATA_MAX)
          && pd.algorithm == r.algorithm && pd.key == r.key && InStep(cp.mp, pd.mp, r.challenge))
  }

  lemma HeaderOf(t: Transfer, maxLen: int, pfx: seq<byte>)
    requires TxValid(t) && t.width == W16 && t.total < 0x1_0000 && maxLen < 0x1_0000
    ensures match TxBuild(t, maxLen, pfx, 0)
            case None => true
            case Some((t', frame)) => HdrRead(W16, frame) == Some(Hdr(t.total, t.offset, t'.lastLen))
  {
    hide HdrRead, HdrWrite;
    var r := TxBuild(t, maxLen, pfx, 0);
    if r.Some? {
      var (t', frame) := r.value;
      var rest := frame[6..];
      HdrRoundTrip(W16, t.total, t.offset, t'.lastLen, rest);
      assert frame == HdrWrite(W16, t.total, t.offset, t'.lastLen) + rest;
    }
  }

  // The device's side of one command fragment, from an engine in step with the panel's.
  lemma DeviceTakes(tx: Transfer, q: Piv, r: Request, maxLen: int)
    requires InStep(tx, q.mp, r.challenge) && tx.offset < |r.challenge| && tx.width == W16 && 8 < maxLen < 0x1_0000
    requires q.family == r.f && q.phase == Command && q.mp.cap == Some(DATA_MAX) && Active(q.mp)
    requires tx.offset > 0 ==> q.algorithm == r.algorithm && q.key == r.key
    ensures var built := TxBuild(tx, maxLen, [r.algorithm, r.key], 0);
            && built.Some?
            && var (tx', frame) := built.value;
            var (u, taken) := ConcludeCommand(q, tx.offset, RxConsume(q.mp, frame, 2, WriteOk));
            && |frame| == Min(maxLen, (if tx.offset == 0 then 8 else 6) + tx.total - tx.offset)
            && InStep(TxCommit(tx'), u.mp, r.challenge) && tx'.lastLen > 0 && tx'.offset == tx.offset
            && tx' == tx.(stage := tx'.stage, lastLen := tx'.lastLen) && tx'.stage == InProgress
            && u.phase == Command && u.family == r.f && u.algorithm == r.algorithm && u.key == r.key
            && u.store == u.mp.data && |u.store| == DATA_MAX && Active(u.mp) && u.mp.cap == Some(DATA_MAX) && RxValid(u.mp)
            && taken == (if tx'.offset + tx'.lastLen == |r.challenge| then Taken.Deliver(r) else Ack)
  {
    hide HdrRead, HdrWrite, RxConsume, Fragment, Holds;
    HoldsValid(q.mp, r.challenge);
    RoundMoves(tx, q.mp, [r.algorithm, r.key], r.challenge, maxLen);
    var (tx', frame) := TxBuild(tx, maxLen, [r.algorithm, r.key], 0).value;
    var c := RxConsume(q.mp, frame, 2, WriteOk);
    ConsumeFrame(q.mp, frame, 2);
    if RxCommit(c.t).offset == |r.challenge| {
      WholeAtEnd(RxCommit(c.t), r.challenge);
    }
  }

  lemma OpenedFacts(pd: Piv, cp: Piv, r: Request)
    requires Sending(cp, r) && |pd.store| == DATA_MAX && cp.mp.offset == 0
    ensures var q := Opened(pd, r.f, |r.challenge|);
            && InStep(cp.mp, q.mp, r.challenge) && q.family == r.f && q.phase == Command && q.mp.cap == Some(DATA_MAX)
            && Active(q.mp)
  {
    FreshInStep(cp.mp, Opened(pd, r.f, |r.challenge|).mp, r.challenge);
  }

  // One fragment of the command: built by the panel, taken in by the device.
  lemma CommandFragment(cp: Piv, pd: Piv, r: Request, size: int)
    requires Sending(cp, r) && Taking(pd, cp, r) && cp.mp.offset < cp.mp.total
    requires 8 < size - 1 - SC_RESERVE && size < 0x1_0000
    ensures var built := BuildCommand(cp, size);
            && built.Some?
            && var (cp1, frame) := built.value;
            var (pd1, taken) := TakeCommand(pd, cp.family, frame);
            && |frame| == Min(size - 1 - SC_RESERVE, (if cp.mp.offset == 0 then 8 else 6) + cp.mp.total - cp.mp.offset)
            && Sending(cp1, r) && Ready(pd1, r) && cp1.mp.lastLen > 0 && cp1.mp.offset == cp.mp.offset
            && (if cp1.mp.offset + cp1.mp.lastLen == cp1.mp.total then taken == Taken.Deliver(r)
                else taken == Ack && Sending(Acked(cp1), r) && Taking(pd1, Acked(cp1), r)
                     && Acked(cp1).mp.offset == cp.mp.offset + cp1.mp.lastLen < cp.mp.total)
  {
    hide HdrRead, HdrWrite, RxConsume, ConcludeCommand, TxBuild, Opened, Holds;
    var maxLen := size - 1 - SC_RESERVE;
    var q := if cp.mp.offset == 0 then Opened(pd, r.f, |r.challenge|) else pd;
    if cp.mp.offset == 0 {
      OpenedFacts(pd, cp, r);
    }
    DeviceTakes(cp.mp, q, r, maxLen);
    HeaderOf(cp.mp, maxLen, [r.algorithm, r.key]);
  }

  predicate Ready(pd: Piv, r: Request) {
    pd.phase == Command && pd.family == r.f && |pd.store| == DATA_MAX && PdFit(pd)
  }

  lemma FreshInStep(tx: Transfer, rx: Transfer, s: seq<byte>)
    requires TxValid(tx) && tx.data == s && tx.total == |s| && tx.cap.Some? && tx.width == rx.width == W16 && tx.offset == 0
    requires rx.offset == rx.lastOff == rx.lastLen == 0 && (rx.total == |s| || rx.total == 0)
    requires rx.cap == Some(|rx.data|) && |s| <= |rx.data| && |s| < 0x1_0000
    ensures InStep(tx, rx, s)
  {
  }

  lemma SendingValid(cp: Piv, pd: Piv, r: Request)
    requires Sending(cp, r)
    ensures TxValid(cp.mp) && cp.phase == Command && cp.family == r.f != PivData && cp.mp.total == |r.challenge|
    ensures CpFit(cp) && (Taking(pd, cp, r) ==> PdFit(pd))
  {
  }

  // ---- Reply leg ----

  // Both idle, the end reported.
  predicate Ended(cp: Piv, pd: Piv) {
    cp.phase == pd.phase == Idle && Closed(cp.mp.notices, Okay)
  }

  // The panel waits for a reply: it has begun the leg, or the reply would begin it.
  ghost predicate Awaiting(cp: Piv, answers: bool) {
    && |cp.store| == DATA_MAX && Active(cp.mp)
    && if answers then cp.phase == Command && (cp.family != PivData ==> TxValid(cp.mp) && cp.mp.width == W16)
       else cp.phase == Reply && RxValid(cp.mp) && cp.mp.data == cp.store && cp.mp.width == W16
            && cp.mp.cap == Some(DATA_MAX)
  }

  ghost predicate Replying(cp: Piv, pd: Piv, reply: Option<seq<byte>>, d: seq<byte>) {
    && pd.family == cp.family
    && if reply.Some? then
      && reply.value == d && pd.phase == Command && PdFit(pd)
      && (cp.phase == Reply ==> cp.mp.offset == cp.mp.lastOff == cp.mp.lastLen == 0 && cp.mp.total == 0)
    else
      cp.phase == Reply && pd.phase == Reply && Active(pd.mp) && InStep(pd.mp, cp.mp, d)
  }

  lemma ReplyFragment(cp: Piv, pd: Piv, reply: Option<seq<byte>>, answers: bool, d: seq<byte>, size: int)
    requires Awaiting(cp, answers) && Replying(cp, pd, reply, d) && Good(d) && (answers ==> reply.Some?)
    requires reply == None ==> pd.mp.offset < |d|
    requires 6 < size - SC_RESERVE && size < 0x1_0000
    ensures var (pd1, frame) := BuildReply(pd, reply, size);
            && frame.Some?
            && var (cp1, got) := TakeReply(cp, frame.value, answers);
            && |frame.value| == Min(size - SC_RESERVE, 6 + |d| - (if reply == None then pd.mp.offset else 0))
            && |cp1.store| == DATA_MAX
            && if got.Some? then got == Some(d) && Ended(cp1, pd1)
               else Awaiting(cp1, false) && Replying(cp1, pd1, None, d)
                    && (if reply == None then pd.mp.offset else 0) < pd1.mp.offset < |d|
  {
    hide HdrRead, RxConsume, ConcludeReply, NextReply, Holds, Ended;
    var q := if reply == None then pd else Seeded(pd, d);
    var w := if answers then BeginReply(LegDone(cp).0) else cp;
    if reply.Some? {
      FreshInStep(q.mp, w.mp, d);
    }
    FragmentCrosses(q, w, d, size);
  }

  // One reply fragment between engines in step.
  lemma FragmentCrosses(q: Piv, w: Piv, d: seq<byte>, size: int)
    requires InStep(q.mp, w.mp, d) && q.mp.width == W16 && q.mp.offset < |d| && Active(q.mp) && Active(w.mp)
    requires w.phase == Reply && q.phase == Reply && q.family == w.family && w.mp.cap == Some(DATA_MAX) && 6 < size - SC_RESERVE && size < 0x1_0000
    ensures var (pd1, frame) := NextReply(q, size);
            && frame.Some?
            && var (cp1, got) := ConcludeReply(w, RxConsume(w.mp, frame.value, 0, WriteOk));
            && |frame.value| == Min(size - SC_RESERVE, 6 + |d| - q.mp.offset)
            && |cp1.store| == DATA_MAX
            && if got.Some? then got == Some(d) && Ended(cp1, pd1)
               else Awaiting(cp1, false) && Replying(cp1, pd1, None, d) && q.mp.offset < pd1.mp.offset < |d|
  {
    hide HdrRead, HdrWrite, RxConsume, Fragment, Holds;
    HoldsValid(w.mp, d);
    RoundMoves(q.mp, w.mp, [], d, size - SC_RESERVE);
    var (tx, frame) := TxBuild(q.mp, size - SC_RESERVE, [], 0).value;
    var c := RxConsume(w.mp, frame, 0, WriteOk);
    ConsumeFrame(w.mp, frame, 0);
    if RxCommit(c.t).offset == |d| {
      WholeAtEnd(RxCommit(c.t), d);
    }
  }

  lemma AwaitingValid(cp: Piv, pd: Piv, reply: Option<seq<byte>>, answers: bool, d: seq<byte>)
    requires Awaiting(cp, answers) && Replying(cp, pd, reply, d)
    ensures CpFit(cp) && PdFit(pd)
    ensures reply == None ==> cp.phase == Reply && pd.phase == Reply
  {
  }

  lemma SubmittedSends(p0: Piv, r: Request, pd: Piv)
    requires p0.phase == Idle && |p0.store| == DATA_MAX && r.f != PivData && Good(r.challenge)
    requires |pd.store| == DATA_MAX && PdFit(pd)
    ensures Submit(p0, r).Some? && Sending(Submit(p0, r).value, r) && Taking(pd, Submit(p0, r).value, r)
    ensures Submit(p0, r).value.mp.offset == 0 && Submit(p0, r).value.mp.total == |r.challenge|
  {
  }

  lemma CommandOut(cp: Piv, pd: Piv, r: Request, d: seq<byte>)
    requires Sending(cp, r) && cp.mp.offset + cp.mp.lastLen == cp.mp.total && Ready(pd, r)
    ensures Awaiting(cp, true) && Awaiting(Acked(cp), false)
    ensures Replying(cp, pd, Some(d), d) && Replying(Acked(cp), pd, Some(d), d)
  {
  }

  // Aborting what is under way ends it.
  lemma AbortEnds(p: Piv)
    requires p.phase != Idle && Active(p.mp)
    ensures Abort(p).phase == Idle && Closed(Abort(p).mp.notices, Aborted)
  {
  }

  // The PIVDATA command is one packet.
  lemma PivDataCrosses(p0: Piv, pd: Piv, r: Request, d: seq<byte>, size: int)
    requires p0.phase == Idle && |p0.store| == |pd.store| == DATA_MAX && r.f == PivData && r.Typed() && PdFit(pd)
    requires size >= PIVDATA_LEN
    ensures Submit(p0, r).Some?
    ensures var cp := Submit(p0, r).value;
            && CpFit(cp) && Active(cp.mp) && cp.family == PivData
            && BuildCommand(cp, size) == Some((cp, r.challenge))
            && var (pd1, taken) := TakeCommand(pd, PivData, r.challenge);
            && taken == Taken.Deliver(r) && Ready(pd1, r)
            && Awaiting(cp, true) && Awaiting(Acked(cp), false)
            && Replying(cp, pd1, Some(d), d) && Replying(Acked(cp), pd1, Some(d), d)
  {
  }
}
