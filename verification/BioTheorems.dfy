// A biometric template from end to end, every fragment built, framed, checked and decoded as a packet
// of an established link.
module BioTheorems {
  import opened Bytes
  import opened Packet
  import opened Fragments
  import opened Multipart
  import opened Bio

  const REPLY_BIOREADR: byte := 0x57

  // Where a read stands: the link, both ends, and what the panel's application was handed.
  datatype Reading = Reading(x: Ends, cp: Bio, pd: Bio, got: Option<Template>)

  ghost predicate ReadReady(a: Algorithms, x: Ends, cp: Bio, pd: Bio) {
    a.Valid() && x.Valid() && (cp.active ==> RxValid(cp.mp)) && (pd.active ==> TxValid(pd.mp))
  }

  // At most n replies: the first to ask, with the template of the device's application, the others to
  // polls. A packet that cannot be built fails its exchange, and the panel aborts what it has under way.
  function Read(a: Algorithms, x: Ends, cp: Bio, pd: Bio, e: Option<Template>, ask: Msg, n: nat): Reading
    requires ReadReady(a, x, cp, pd)
    decreases n
  {
    if n == 0 then Reading(x, cp, pd, None)
    else
      match CrossCommand(a, x, ask)
      case None => Reading(x, Abort(cp), pd, None)
      case Some((x1, _)) =>
        match BuildReply(pd, e, Room(x1.pd, x1.pdSize))
        case (pd1, None) => Reading(x1, Abort(cp), pd1, None)
        case (pd1, Some(buf)) =>
          match CrossReply(a, x1, Msg(REPLY_BIOREADR, buf))
          case None => Reading(x1, Abort(cp), pd1, None)
          case Some((x2, m)) =>
            if m.id != REPLY_BIOREADR then Reading(x2, cp, pd1, None)
            else
              var (cp1, got) := TakeReply(cp, m.data);
              if got.Some? || !cp1.active then Reading(x2, cp1, pd1, got) else Read(a, x2, cp1, pd1, None, POLL, n - 1)
  }

  // Data bytes of the first reply: no later one is longer.
  function FirstReply(e: End, size: int, t: Template): int {
    Min(Fragments.Fragment(e, size), STD_HDR + |t.data|)
  }

  predicate TemplateFits(x: Ends, t: Template) {
    var e := x.pd.(mark := x.cp.mark);
    var n := FirstReply(e, x.pdSize, t);
    n >= 0 && FrameLen(e, n) <= x.pdSize
  }

  lemma SameFits(x: Ends, y: Ends, t: Template)
    requires SameEnds(x, y)
    ensures TemplateFits(y, t) <==> TemplateFits(x, t)
  {
    hide FrameLen;
    var ex, ey := x.pd.(mark := x.cp.mark), y.pd.(mark := y.cp.mark);
    SameLen(ex, ey, FirstReply(ex, x.pdSize, t));
  }

  lemma ReplyWithin(x: Ends, t: Template, n: nat, rest: nat)
    requires TemplateFits(x, t) && rest <= STD_HDR + |t.data| && x.pd.mark == x.cp.mark
    requires 0 < n == Min(Fragments.Fragment(x.pd, x.pdSize), rest)
    ensures FrameLen(x.pd, n) <= x.pdSize
  {
    hide FrameLen;
    assert x.pd.(mark := x.cp.mark) == x.pd;
    LongerIsLonger(x.pd, n, FirstReply(x.pd, x.pdSize, t));
  }

  predicate Short(m: Msg) { |m.data| <= 8 && !InHandshake(Cp, m.id) }

  lemma AskMoves(a: Algorithms, x: Ends, ask: Msg)
    requires a.Valid() && Coupled(x) && Short(ask)
    ensures CrossCommand(a, x, ask).Some? && Moved(x, CrossCommand(a, x, ask).value.0)
  {
    hide CrossCommand;
    CoupledFacts(x);
    ShortFits(x.cp, x.cpSize);
    CommandMoves(a, x, ask);
  }

  lemma BetweenValid(cp: Bio, pd: Bio, e: Template)
    requires Between(cp, pd, e)
    ensures cp.active && pd.active && RxValid(cp.mp) && TxValid(pd.mp) && 0 < pd.mp.offset < |e.data|
  {
  }

  lemma {:induction false} RestArrives(a: Algorithms, x: Ends, cp: Bio, pd: Bio, e: Template, n: nat)
    requires a.Valid() && Coupled(x) && Between(cp, pd, e) && TemplateFits(x, e) && n >= |e.data| - pd.mp.offset
    ensures ReadReady(a, x, cp, pd)
    ensures var end := Read(a, x, cp, pd, None, POLL, n);
            end.got == Some(e) && HandedOver(end.cp, end.pd)
    decreases n
  {
    hide BuildReply, TakeReply, Between, HandedOver, CrossCommand, CrossReply, Coupled, FrameLen, TemplateFits;
    hide Fragments.Fragment, Room, SameEnds;
    CoupledFacts(x);
    BetweenValid(cp, pd, e);
    AskMoves(a, x, POLL);
    var x1 := CrossCommand(a, x, POLL).value.0;
    CoupledFacts(x1);
    SameFits(x, x1, e);
    ReplyRoom(x1.pd, x1.pdSize);
    ContinuationCrosses(cp, pd, e, Room(x1.pd, x1.pdSize));
    var (pd1, buf) := BuildReply(pd, None, Room(x1.pd, x1.pdSize));
    ReplyWithin(x1, e, |buf.value|, 6 + |e.data| - pd.mp.offset);
    var m := Msg(REPLY_BIOREADR, buf.value);
    ReplyMoves(a, x1, m);
    var (cp1, got) := TakeReply(cp, buf.value);
    if got == None {
      var x2 := CrossReply(a, x1, m).value.0;
      SameFits(x1, x2, e);
      BetweenValid(cp1, pd1, e);
      RestArrives(a, x2, cp1, pd1, e, n - 1);
    }
  }

  // A template of any length, on an established link with any packet sizes, with or without mark and
  // session: the panel's application is handed what the device's application submitted exactly when
  // the first packet fits. In one packet nothing more is told; in several the end of the transfer is,
  // and both ends are idle. Otherwise the panel has not moved at all.
  lemma TemplateArrives(a: Algorithms, x: Ends, cp: Bio, pd: Bio, e: Template, ask: Msg, n: nat)
    requires a.Valid() && Coupled(x) && Short(ask) && n > |e.data|
    requires !cp.active && |cp.store| == TEMPLATE_MAX && |e.data| <= TEMPLATE_MAX && (pd.active ==> TxValid(pd.mp))
    ensures ReadReady(a, x, cp, pd)
    ensures var end := Read(a, x, cp, pd, Some(e), ask, n);
            && end.got == (if TemplateFits(x, e) then Some(e) else None)
            && (!TemplateFits(x, e) ==> end.cp == cp)
            && (TemplateFits(x, e) ==>
                  if Single(e, Room(x.pd.(mark := x.cp.mark), x.pdSize)) then !end.cp.active && end.cp.mp == cp.mp
                  else HandedOver(end.cp, end.pd))
  {
    hide BuildReply, TakeReply, Between, HandedOver, CrossCommand, CrossReply, Coupled, FrameLen;
    hide SameEnds;
    CoupledFacts(x);
    AskMoves(a, x, ask);
    var x1 := CrossCommand(a, x, ask).value.0;
    CoupledFacts(x1);
    SameFits(x, x1, e);
    SameRooms(x, x1);
    ReplyRoom(x1.pd, x1.pdSize);
    FirstCrosses(cp, pd, e, Room(x1.pd, x1.pdSize));
    var (pd1, buf) := BuildReply(pd, Some(e), Room(x1.pd, x1.pdSize));
    assert x1.pd.(mark := x1.cp.mark) == x1.pd;
    var m := Msg(REPLY_BIOREADR, buf.value);
    ReplyMoves(a, x1, m);
    if TemplateFits(x, e) {
      var (cp1, got) := TakeReply(cp, buf.value);
      if got == None {
        var x2 := CrossReply(a, x1, m).value.0;
        SameFits(x1, x2, e);
        BetweenValid(cp1, pd1, e);
        RestArrives(a, x2, cp1, pd1, e, n - 1);
      }
    }
  }

  lemma SameRooms(x: Ends, y: Ends)
    requires Moved(x, y)
    ensures Room(y.pd, y.pdSize) == Room(x.pd.(mark := x.cp.mark), x.pdSize)
  {
    hide Coupled;
  }
}
