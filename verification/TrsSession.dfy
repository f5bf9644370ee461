// A card session that goes well, and a scan of the library's own: what goes on the wire, in what order,
// and what the application hears.
module TrsSession {
  import opened Bytes
  import opened TrsBand

  // What the panel is told when it looks for something to send; the same in every pass, whatever it is.
  datatype Mood = Mood(due: bool, ask: bool, own: bool, sendable: bool)

  function Look(s: Panel, m: Mood): Panel { Next(s, Idle(m.due, m.ask, m.own, m.sendable)) }

  // Command after command, each sent and answered; what was sent.
  function Rounds(s: Panel, m: Mood, replies: seq<Reply>): (Panel, seq<Option<Sent>>)
    decreases |replies|
  {
    if replies == [] then (s, [])
    else
      var t := Look(s, m);
      var (u, sent) := Rounds(Next(t, Answered(replies[0])), m, replies[1..]);
      (u, [t.wire] + sent)
  }

  function Apps(cs: seq<Command>): seq<Option<Sent>> { seq(|cs|, i requires 0 <= i < |cs| => Some(App(cs[i]))) }

  // An open session of the application's, cards at the head of its queue.
  predicate Running(s: Panel) {
    s.role == Session && s.stage == Xmit && s.stopPending && !s.probe && !s.asking && s.wire == None && !s.failed
  }

  lemma CardRound(s: Panel, m: Mood, reply: Reply)
    requires Running(s) && s.queue != [] && s.queue[0].kind == Card
    ensures Look(s, m).wire == Some(App(s.queue[0]))
    ensures var t := Next(Look(s, m), Answered(reply));
            Running(t) && t.queue == s.queue[1..] && t.told == s.told && t.owes == s.owes
  {
    hide AfterBand;
  }

  lemma StopRounds(s: Panel, m: Mood, first: Reply, second: Reply)
    requires Running(s) && s.queue != [] && s.queue[0].kind == Stop
    ensures var (t, sent) := Rounds(s, m, [first, second]);
            && sent == [Some(Terminate), Some(ModeOff)]
            && t.role == Online && t.wire == None && !t.owes && !t.failed && !t.stopPending
            && t.queue == s.queue[1..] && t.told == s.told + [Closed] && t.bandOpen == s.bandOpen
  {
    hide AfterBand;
    var a := Look(s, m);
    assert a.wire == Some(Terminate) && a.stage == DisconnectCard && a.queue == s.queue[1..];
    var b := Next(a, Answered(first));
    assert b.stage == Teardown && b.role == Session && b.wire == None && !b.stopPending && b.told == s.told;
    var c := Look(b, m);
    assert c.wire == Some(ModeOff) && !c.owes;
    var d := Next(c, Answered(second));
    TwoRounds(s, m, first, second);
  }

  lemma TwoRounds(s: Panel, m: Mood, first: Reply, second: Reply)
    ensures var t := Next(Look(s, m), Answered(first));
            Rounds(s, m, [first, second]) == (Next(Look(t, m), Answered(second)), [Look(s, m).wire, Look(t, m).wire])
  {
    hide Next, Look;
    var t := Next(Look(s, m), Answered(first));
    var u := Next(Look(t, m), Answered(second));
    assert [first, second][1..] == [second] && [second][1..] == [];
    assert Rounds(u, m, [second][1..]) == (u, []);
    var x, y := Look(s, m).wire, Look(t, m).wire;
    assert [y] + [] == [y] && [x] + [y] == [x, y];
    assert Rounds(t, m, [first, second][1..]) == (u, [y]);
  }

  // The cards of a band go out one by one, in order; its STOP takes the card and the mode back.
  lemma {:induction false} BandRuns(s: Panel, m: Mood, cards: seq<Command>, stop: Command, rest: seq<Command>, replies: seq<Reply>)
    requires Running(s) && s.queue == cards + [stop] + rest && stop.kind == Stop
    requires (forall i :: 0 <= i < |cards| ==> cards[i].kind == Card) && |replies| == |cards| + 2
    ensures var (t, sent) := Rounds(s, m, replies);
            && sent == Apps(cards) + [Some(Terminate), Some(ModeOff)]
            && t.role == Online && t.wire == None && !t.owes && !t.failed && t.queue == rest
            && t.told == s.told + [Closed]
    decreases |cards|
  {
    hide Next, Look;
    if cards == [] {
      assert Apps(cards) + [Some(Terminate), Some(ModeOff)] == [Some(Terminate), Some(ModeOff)];
      assert s.queue == [stop] + rest && s.queue[1..] == rest;
      assert replies == [replies[0], replies[1]];
      StopRounds(s, m, replies[0], replies[1]);
    } else {
      assert s.queue[0] == cards[0] && s.queue[1..] == cards[1..] + [stop] + rest;
      CardRound(s, m, replies[0]);
      BandRuns(Next(Look(s, m), Answered(replies[0])), m, cards[1..], stop, rest, replies[1..]);
      assert Apps(cards) == [Some(App(cards[0]))] + Apps(cards[1..]);
    }
  }

  // A session from its START to its STOP, with a reader that goes along with mode 01: mode-set(01), the
  // cards in order, terminate, mode-set(00); the application hears it opened and closed, once each,
  // and what waits behind the band waits on.
  lemma SessionRuns(s: Panel, m: Mood, start: Command, cards: seq<Command>, stop: Command, rest: seq<Command>, replies: seq<Reply>)
    requires Inv(s) && s.role == Online && s.wire == None
    requires s.queue == [start] + (cards + [stop] + rest) && start.kind == Start && stop.kind == Stop
    requires (forall i :: 0 <= i < |cards| ==> cards[i].kind == Card) && |replies| == |cards| + 3
    requires replies[0] in {ReplyAck, ReplyMode(1)}
    ensures Look(s, m).wire == None
    ensures var (t, sent) := Rounds(Look(s, m), m, replies);
            && sent == [Some(ModeOn)] + Apps(cards) + [Some(Terminate), Some(ModeOff)]
            && t.role == Online && t.wire == None && !t.owes && !t.failed && t.queue == rest
            && t.told == s.told + [Opened, Closed]
  {
    hide Next, Look, Inv, AfterBand;
    assert s.queue[1..] == cards + [stop] + rest;
    OpensSession(s, m, replies[0]);
    var r := Next(Look(Look(s, m), m), Answered(replies[0]));
    BandRuns(r, m, cards, stop, rest, replies[1..]);
    assert s.told + [Opened] + [Closed] == s.told + [Opened, Closed];
    assert [Some(ModeOn)] + (Apps(cards) + [Some(Terminate), Some(ModeOff)]) == [Some(ModeOn)] + Apps(cards) + [Some(Terminate), Some(ModeOff)];
  }

  lemma OpensSession(s: Panel, m: Mood, reply: Reply)
    requires Inv(s) && s.role == Online && s.wire == None && s.queue != [] && s.queue[0].kind == Start
    requires reply in {ReplyAck, ReplyMode(1)}
    ensures var o := Look(s, m);
            && o.wire == None && o.role == Setup && o.told == s.told
            && Look(o, m).wire == Some(ModeOn) && Look(o, m).owes
            && var r := Next(Look(o, m), Answered(reply));
            Running(r) && r.mode == 1 && r.queue == s.queue[1..] && r.told == s.told + [Opened]
  {
    hide Walk, AfterBand;
  }

  // A reader that will not go into mode 01 costs the session its band, and the application hears of it.
  lemma ModeRefused(s: Panel, m: Mood, mode: byte)
    requires Inv(s) && s.role == Online && s.wire == None && s.queue != [] && s.queue[0].kind == Start && mode != 1
    ensures var t := Next(Look(Look(s, m), m), Answered(ReplyMode(mode)));
            && t.role == Online && t.wire == None && !t.owes && t.told == s.told + [SessionFailed]
            && t.queue == AfterBand(s.queue[1..])
  {
    hide Walk, AfterBand;
    assert AfterBand(s.queue[1..]) + [] == AfterBand(s.queue[1..]);
  }

  // ---- Scans ----

  // A scan that is due looks for a card behind the application's back: mode-set(01), a question if one
  // is due, mode-set(00) when its time is up; nothing is told and the queue stays as it is.
  lemma ScanRuns(s: Panel, reply: Reply, answer: Reply, end: Reply)
    requires Inv(s) && s.role == Online && s.wire == None && s.queue == [] && !s.bandOpen
    requires reply in {ReplyAck, ReplyMode(1)}
    ensures var o := Next(s, Idle(true, false, false, true));
            && o.probe && o.role == Setup && o.wire == None
            && var a := Next(o, Idle(false, false, false, true));
            && a.wire == Some(ModeOn)
            && var b := Next(a, Answered(reply));
            && b.role == Session && b.probe
            && var c := Next(b, Idle(false, true, false, true));
            && c.wire == Some(Ask) && c.asking
            && var d := Next(c, Answered(answer));
            && !d.asking && d.role == Session
            && var e := Next(d, Idle(true, false, false, true));
            && e.wire == Some(ModeOff)
            && var f := Next(e, Answered(end));
            && f.role == Online && !f.probe && !f.owes && f.told == s.told && f.queue == [] && f.wire == None
  {
    hide Walk, AfterBand;
  }

  // A START that comes while one runs takes the session over as it stands: it is announced as opened,
  // and the head of its band goes out at once.
  lemma ScanAdopted(s: Panel, m: Mood)
    requires Inv(s) && s.role == Session && s.stage == Xmit && s.probe && s.wire == None
    requires |s.queue| > 1 && s.queue[0].kind == Start && s.queue[1].kind == Card
    ensures var t := Look(s, m);
            && t.wire == Some(App(s.queue[1])) && t.queue == s.queue[2..] && t.told == s.told + [Opened]
            && !t.probe && t.stopPending && t.role == Session
  {
    hide Walk, AfterBand;
    var a := Adopt(s);
    assert a.queue[0] == s.queue[1] && a.queue[1..] == s.queue[2..];
    assert IdleXmit(a, m.due, m.ask, m.own, m.sendable) == Send(a.(queue := s.queue[2..]), App(s.queue[1]));
  }

  // A card that does not answer a scan's question is no failure; one that fails otherwise suspends
  // scanning, once the reader is out of mode 01 again.
  lemma ScanFails(s: Panel, refused: bool, end: Reply)
    requires Inv(s) && s.role == Session && s.stage == Xmit && s.probe && s.wire == Some(Ask) && s.asking && !s.failed
    ensures var t := Next(s, Failed(refused));
            && t.role == Session && t.told == s.told && !t.asking
            && (if refused then t.stage == Xmit && !t.failed
                else t.stage == Teardown
                     && var u := Next(Next(t, Idle(false, false, false, true)), Answered(end));
                        u.role == Online && u.told == s.told + [ScanSuspended] && !u.owes)
  {
    hide Walk, AfterBand;
  }

  // With nothing waiting, a session of the application's stays open however long it takes, and a scan asks
  // when a question is due and ends when its time is up; both may send what the library has of its own.
  lemma WaitsForMore(s: Panel, m: Mood)
    requires Inv(s) && s.role == Session && s.stage == Xmit && s.wire == None && s.queue == []
    ensures Look(s, m)
         == if s.probe && m.due then s.(stage := Teardown, wire := Some(ModeOff), owes := false)
            else if s.probe && m.ask then s.(asking := true, wire := Some(Ask))
            else s.(wire := if m.own then Some(Own) else None)
  {
    hide AfterBand;
  }

  // Another command of the application's during a scan goes out, or is dropped, as it would outside one.
  lemma ScanLetsPass(s: Panel, m: Mood)
    requires Inv(s) && s.role == Session && s.stage == Xmit && s.probe && s.wire == None
    requires s.queue != [] && s.queue[0].kind == Other
    ensures Look(s, m) == s.(queue := s.queue[1..], wire := if m.sendable then Some(App(s.queue[0])) else None)
  {
    hide AfterBand, Walk;
  }

  // ---- Without a session ----

  // Other commands go out from the head of the queue; one with no translation is dropped. With nothing
  // waiting the panel sends what it has of its own.
  lemma OnlineSends(s: Panel, m: Mood)
    requires Inv(s) && s.role == Online && s.wire == None
    ensures var t := Look(s, m);
            && (s.queue != [] && s.queue[0].kind == Other ==>
                  t == s.(queue := s.queue[1..], wire := if m.sendable then Some(App(s.queue[0])) else None))
            && (s.queue == [] && (!m.due || s.bandOpen) ==> t == s.(wire := if m.own then Some(Own) else None))
  {
    hide AfterBand;
  }

  // While the panel is on the link a submission is taken, at the end of the queue, exactly if the queue stays
  // a legal word with it; off the link none is. A flush empties the queue, and leaves a band open exactly
  // if a session still has its STOP to come.
  lemma SubmissionsTaken(s: Panel, c: Command)
    requires Inv(s)
    ensures Next(s, Submit(c)).queue == if s.role != Away && Walk(s.queue + [c], Inside(s)).Some? then s.queue + [c] else s.queue
    ensures Next(s, Flush).queue == [] && (Next(s, Flush).bandOpen <==> Inside(s))
  {
    hide Walk, Admit;
    AdmitsLegal(s.queue, Inside(s), s.bandOpen, c);
  }

  // Outside a session a command that fails takes the panel off the link, as leaving ONLINE for a handshake
  // between commands does; coming back it is ONLINE. What waits waits on.
  lemma OffAndOn(s: Panel, refused: bool)
    requires Inv(s) && s.role == Online
    ensures s.wire.Some? ==> Next(s, Failed(refused)) == s.(wire := None, role := Away)
    ensures s.wire == None ==> Next(s, Drop) == s.(role := Away)
    ensures Next(s.(role := Away, wire := None), Return) == s.(wire := None)
  {
  }

  // ---- What is owed ----

  // The panel owes the reader a way back from the moment mode-set(01) goes out until mode-set(00) does
  // or the reader names another mode.
  lemma OwesFromModeOn(s: Panel, e: Event)
    requires Inv(s)
    ensures Owes(s, Next(s, e), e)
  {
    hide Walk, AfterBand, IdleStep, TrsOk, TrsErr;
    match e
    case Idle(due, ask, own, sendable) =>
      if s.wire == None {
        IdleOwes(s, due, ask, own, sendable);
      }
    case Answered(reply) =>
      if InSession(s) && s.wire.Some? {
        AnswerOwes(s, reply);
      }
    case Failed(refused) =>
      if InSession(s) && s.wire.Some? {
        FailureOwes(s, refused);
      }
    case _ =>
  }

  predicate Owes(s: Panel, t: Panel, e: Event) {
    && (t.wire == Some(ModeOn) && s.wire == None ==> t.owes)
    && (t.owes && !s.owes ==> t.wire == Some(ModeOn))
    && (s.owes && !t.owes ==>
          t.wire == Some(ModeOff) || (s.wire == Some(ModeOn) && e.Answered? && e.reply.ReplyMode? && e.reply.mode != 1))
  }

  lemma IdleOwes(s: Panel, due: bool, ask: bool, own: bool, sendable: bool)
    requires Inv(s) && s.wire == None
    ensures Owes(s, IdleStep(s, due, ask, own, sendable), Idle(due, ask, own, sendable))
  {
    hide Walk, AfterBand, IdleXmit;
    if InSession(s) && s.stage == Xmit {
      XmitOwes(s, due, ask, own, sendable);
    }
  }

  lemma AnswerOwes(s: Panel, reply: Reply)
    requires Inv(s) && InSession(s) && s.wire.Some?
    ensures Owes(s, TrsOk(s, reply), Answered(reply))
  {
    hide Walk, AfterBand;
  }

  lemma FailureOwes(s: Panel, refused: bool)
    requires Inv(s) && InSession(s) && s.wire.Some?
    ensures Owes(s, TrsErr(s, refused), Failed(refused))
  {
    hide Walk, AfterBand;
  }

  lemma XmitOwes(s: Panel, due: bool, ask: bool, own: bool, sendable: bool)
    requires s.wire == None
    ensures var t := IdleXmit(s, due, ask, own, sendable);
            && t.wire != Some(ModeOn) && (t.owes ==> s.owes) && (s.owes && !t.owes ==> t.wire == Some(ModeOff))
    decreases |s.queue|
  {
    if s.queue != [] && s.probe && s.queue[0].kind == Start {
      var a := Adopt(s);
      XmitOwes(a, due, ask, own, sendable);
      assert IdleXmit(s, due, ask, own, sendable) == IdleXmit(a, due, ask, own, sendable);
    } else {
      HeadOwes(s, due, ask, own, sendable);
    }
  }

  lemma HeadOwes(s: Panel, due: bool, ask: bool, own: bool, sendable: bool)
    requires s.wire == None && !(s.queue != [] && s.probe && s.queue[0].kind == Start)
    ensures var t := IdleXmit(s, due, ask, own, sendable);
            && t.wire != Some(ModeOn) && (t.owes ==> s.owes) && (s.owes && !t.owes ==> t.wire == Some(ModeOff))
  {
    hide Adopt;
    if s.queue == [] {
    } else if s.queue[0].kind == Stop {
    } else if sendable || s.queue[0].kind != Other {
    } else {
    }
  }
}
