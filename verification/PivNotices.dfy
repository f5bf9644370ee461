// What the panel's application is told of its smartcard operations.
module PivNotices {
  import opened Bytes
  import opened Multipart
  import opened Notices
  import opened Piv

  // Every call the panel makes on an operation, with whatever the device sends it.
  datatype Call = OnSubmit(r: Request) | OnBuild(maxLen: int) | OnAck | OnReply(frame: seq<byte>, answers: bool) | OnAbort

  function NextPiv(p: Piv, c: Call): Piv
    requires Sound(p)
  {
    match c
    case OnSubmit(r) => (match Submit(p, r) case None => p case Some(q) => q)
    case OnBuild(maxLen) => (match BuildCommand(p, maxLen) case None => Abort(p) case Some((q, _)) => q)
    case OnAck => Acked(p)
    case OnReply(frame, answers) => TakeReply(p, frame, answers).0
    case OnAbort => Abort(p)
  }

  ghost predicate Sound(p: Piv) {
    && |p.store| == DATA_MAX
    && (p.phase == Command && p.family != PivData ==> TxValid(p.mp))
    && (p.phase == Reply ==> RxValid(p.mp) && p.mp.cap == Some(DATA_MAX) && p.started)
    && (p.phase != Idle ==> Active(p.mp) && (!p.started ==> !p.mp.started))
    && (p.phase == Command && p.family != PivData && !p.started ==> p.mp.lastLen == 0)
    && Told(p.mp.notices) == Some(p.phase != Idle && p.started)
  }

  lemma AbortSound(p: Piv)
    requires |p.store| == DATA_MAX && (p.phase != Idle ==> Active(p.mp) && (!p.started ==> !p.mp.started))
    requires Told(p.mp.notices) == Some(p.phase != Idle && p.started)
    ensures Sound(Abort(p)) && Abort(p).phase == Idle
  {
    ToldNext(p.mp.notices, Start);
    ToldNext(if p.started then p.mp.notices else p.mp.notices + [Start], Done(Aborted));
  }

  lemma BeginSound(p: Piv)
    requires p.phase == Command && |p.store| == DATA_MAX && Told(p.mp.notices) == Some(p.started)
    ensures Sound(BeginReply(p)) && BeginReply(p).phase == Reply
  {
    ToldNext(p.mp.notices, Start);
  }

  lemma LegSound(p: Piv)
    requires Sound(p) && p.phase == Command
    ensures Sound(LegDone(p).0) && LegDone(p).0.phase == Command
  {
    ToldNext(p.mp.notices, Progress(p.mp.offset + p.mp.lastLen));
  }

  lemma ConcludeSound(q: Piv, c: Consumed)
    requires Sound(q) && q.phase == Reply && RxValid(c.t) && c.t.notices == q.mp.notices && c.t.started == q.mp.started
    requires c.t.stage == q.mp.stage && c.t.cap == q.mp.cap
    ensures Sound(ConcludeReply(q, c).0)
  {
    hide Abort;
    var t := RxCommit(c.t);
    ToldNext(c.t.notices, Progress(c.t.lastOff + c.t.lastLen));
    ToldNext(t.notices, Done(Okay));
    AbortSound(q.(mp := c.t, store := c.t.data));
  }

  lemma ReplySound(p: Piv, frame: seq<byte>, answers: bool)
    requires Sound(p)
    ensures Sound(TakeReply(p, frame, answers).0)
  {
    hide BeginReply, LegDone, ConcludeReply, RxConsume, Told;
    if p.phase == Reply || (p.phase == Command && answers) {
      if p.phase == Command {
        LegSound(p);
        BeginSound(LegDone(p).0);
      }
      var q := if p.phase == Command then BeginReply(LegDone(p).0) else p;
      ConsumeFrame(q.mp, frame, 0);
      ConcludeSound(q, RxConsume(q.mp, frame, 0, WriteOk));
    }
  }

  lemma AckSound(p: Piv)
    requires Sound(p)
    ensures Sound(Acked(p))
  {
    hide BeginReply, LegDone, Told;
    if p.phase == Command {
      LegSound(p);
      BeginSound(LegDone(p).0);
    }
  }

  lemma BuildSound(p: Piv, maxLen: int)
    requires Sound(p)
    ensures var b := BuildCommand(p, maxLen); b.Some? ==> Sound(b.value.0)
  {
    hide HdrWrite;
    ToldNext(p.mp.notices, Start);
  }

  lemma SubmitSound(p: Piv, r: Request)
    requires Sound(p)
    ensures var q := Submit(p, r); q.Some? ==> Sound(q.value)
  {
    hide Told;
  }

  lemma CallSound(p: Piv, c: Call)
    requires Sound(p)
    ensures Sound(NextPiv(p, c))
  {
    hide Sound, Submit, BuildCommand, Acked, TakeReply, Abort;
    match c
    case OnSubmit(r) => SubmitSound(p, r);
    case OnBuild(maxLen) =>
      BuildSound(p, maxLen);
      SoundAborts(p);
    case OnAck => AckSound(p);
    case OnReply(frame, answers) => ReplySound(p, frame, answers);
    case OnAbort => SoundAborts(p);
  }

  lemma SoundAborts(p: Piv)
    requires Sound(p)
    ensures Sound(Abort(p))
  {
    hide Abort, Told;
    AbortSound(p);
  }

  // Whatever the panel does with smartcard operations and whatever the device sends, what its
  // application is told of them is START PROGRESS* DONE for each in turn, one START and one DONE
  // even for an operation that never sent a fragment, and no operation is left open when none runs.
  lemma {:induction false} NoticesInOrder(ps: seq<Piv>, cs: seq<Call>, i: nat)
    requires |ps| == |cs| + 1 && i < |ps|
    requires ps[0].phase == Idle && |ps[0].store| == DATA_MAX && ps[0].mp.notices == []
    requires forall k :: 0 <= k < |cs| ==> Sound(ps[k]) ==> ps[k + 1] == NextPiv(ps[k], cs[k])
    ensures Sound(ps[i]) && Told(ps[i].mp.notices) == Some(ps[i].phase != Idle && ps[i].started)
  {
    hide NextPiv;
    if i > 0 {
      NoticesInOrder(ps, cs, i - 1);
      CallSound(ps[i - 1], cs[i - 1]);
    }
  }
}
