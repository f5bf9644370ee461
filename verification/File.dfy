// File transfer at the panel (src/osdp_file.c): one fragment a command, the device's status report in
// answer to each, and one way out for every end a transfer can have.
module File {
  import opened Bytes
  import opened Multipart
  import opened Notices

  const ERROR_RETRY_MAX := 10   // OSDP_FILE_ERROR_RETRY_MAX
  const STAT_LEN := 7           // FILE_TRANSFER_STAT_SIZE
  const KEEP_ALIVE := 3         // OSDP_FILE_TX_STATUS_KEEP_ALIVE

  // opens and closes count the calls of the application's callbacks; goOffline: CP_REQ_OFFLINE.
  datatype File = File(
    id: byte,
    errors: nat,
    isOpen: bool,
    exclusive: bool,
    pollResp: bool,
    mp: Transfer,
    opens: nat,
    closes: nat,
    goOffline: bool)

  // ---- Status on the wire ----

  // file_outcome_from_wire_status
  function OutcomeOf(status: int): Outcome {
    if status == 1 then Okay else if status == 2 then Rebooting
    else if status == -2 then Unrecognized else if status == -3 then Invalid else Aborted
  }

  // file_wire_status_from_outcome
  function StatusOf(o: Outcome): int {
    match o
    case Okay => 1
    case Rebooting => 2
    case Unrecognized => -2
    case Invalid => -3
    case Aborted => -1
  }

  // struct osdp_cmd_file_stat: control, delay, a signed 16-bit status, rx_size.
  function StatBytes(control: byte, delay: nat, status: int, rxSize: nat): (s: seq<byte>)
    requires delay < 0x1_0000 && -0x8000 <= status < 0x8000 && rxSize < 0x1_0000
    ensures |s| == STAT_LEN
  {
    [control] + Le16(delay) + Le16(status % 0x1_0000) + Le16(rxSize)
  }

  function Signed(v: nat): int { if v < 0x8000 then v else v - 0x1_0000 }

  function StatusIn(buf: seq<byte>): int
    requires |buf| >= STAT_LEN
  {
    Signed(FromLe16(buf[3], buf[4]))
  }

  lemma StatusRead(control: byte, delay: nat, status: int, rxSize: nat)
    requires delay < 0x1_0000 && -0x8000 <= status < 0x8000 && rxSize < 0x1_0000
    ensures StatusIn(StatBytes(control, delay, status, rxSize)) == status
  {
    Le16RoundTrip(status % 0x1_0000);
    var s := StatBytes(control, delay, status, rxSize);
    assert s[3] == Le16(status % 0x1_0000)[0] && s[4] == Le16(status % 0x1_0000)[1];
  }

  // ---- The terminal ----

  // file_state_reset
  function StateReset(f: File): File {
    f.(id := 0, errors := 0, isOpen := false, exclusive := false, pollResp := false, mp := Blank(f.mp.notices))
  }

  // file_transition_done
  function Terminal(f: File, outcome: Outcome): File {
    var mp := Finish(EmitStart(f.mp), outcome);
    StateReset(f.(mp := mp,
                  closes := if f.isOpen then f.closes + 1 else f.closes,
                  goOffline := f.goOffline || outcome == Rebooting))
  }

  // osdp_file_tx_abort
  function Abort(f: File): File { if Active(f.mp) then Terminal(f, Aborted) else f }

  // ---- A transfer ----

  // osdp_file_tx_command. content: what the application's open() gave access to, if it succeeded;
  // busy: another engine is.
  function Command(f: File, id: byte, content: Option<seq<byte>>, busy: bool): (File, bool)
    requires content.Some? ==> |content.value| < 0x1_0000_0000
  {
    if Active(f.mp) || busy || content == None then (f, false)
    else if content.value == [] then (f.(opens := f.opens + 1, closes := f.closes + 1), false)
    else
      var r := StateReset(f);
      var mp := TxInit(r.mp.(data := content.value), |content.value|, W32).value;
      (r.(id := id, isOpen := true, opens := r.opens + 1, mp := mp), true)
  }

  datatype Pick = Nothing | HoldOff | Poll | FileTransfer | AbortCmd

  // osdp_file_tx_get_command. waiting: the delay the device asked for is not over.
  function Tick(f: File, cancelled: bool, waiting: bool): (File, Pick) {
    if !Active(f.mp) then (f, Nothing)
    else
      var s := f.(mp := EmitStart(f.mp));
      if s.errors > ERROR_RETRY_MAX || cancelled then (Terminal(s, Aborted), AbortCmd)
      else (s, if waiting then (if s.exclusive then HoldOff else Nothing) else if s.pollResp then Poll else FileTransfer)
  }

  // osdp_file_cmd_tx_build, for a command that Tick picked: START has been told. offered: the read
  // callback's answer, 0 for nothing yet.
  function Build(f: File, maxLen: int, offered: int): (r: (File, Option<seq<byte>>))
    requires Active(f.mp) ==> TxValid(f.mp)
  {
    if !Active(f.mp) || !f.mp.started then (f, None)
    else if maxLen <= 1 + HdrSize(W32) then (Terminal(f, Aborted), None)
    else if f.mp.stage == Parked && f.mp.offset == f.mp.total then
      (f.(mp := f.mp.(lastLen := 0)), Some([f.id] + HdrWrite(f.mp.width, f.mp.total, f.mp.offset, 0)))
    else if maxLen - 1 - SC_RESERVE <= HdrSize(W32) then (Terminal(f, Aborted), None)
    else
      match TxBuild(f.mp, maxLen - 1 - SC_RESERVE, [], offered)
      case None => (Terminal(f, Aborted), None)
      case Some((mp', frame)) =>
        (f.(mp := mp', errors := if mp'.lastLen > 0 then 0 else f.errors + 1), Some([f.id] + frame))
  }

  // osdp_file_cmd_stat_decode
  function TakeStat(f: File, buf: seq<byte>): (File, bool)
    requires Active(f.mp) ==> TxValid(f.mp)
  {
    if !Active(f.mp) || |buf| < STAT_LEN then (f, false)
    else
      var status := StatusIn(buf);
      var g := f.(exclusive := buf[0] % 2 == 0, pollResp := buf[0] / 4 % 2 == 1, mp := TxCommit(f.mp));
      if status < 0 then (Terminal(g, OutcomeOf(status)), true)
      else if g.mp.offset != g.mp.total then (g, true)
      else if status == KEEP_ALIVE then (g.(mp := g.mp.(stage := Parked)), true)
      else (Terminal(g, OutcomeOf(status)), true)
  }

  // ---- What is promised ----

  // Every outcome a device reports is the one the panel's application is told.
  lemma OutcomeCrosses(o: Outcome)
    ensures OutcomeOf(StatusOf(o)) == o
  {
  }

  // A status stands for an outcome exactly when it is one of the five a transfer can end with.
  lemma StatusCrosses(status: int)
    ensures StatusOf(OutcomeOf(status)) == status <==> status in {1, 2, -1, -2, -3}
  {
  }

  // A transfer under way is fit, its handle is open and its lastLen nothing before START; between
  // transfers every handle opened is closed. Told in order.
  ghost predicate Sound(f: File) {
    && (if Active(f.mp) then TxValid(f.mp) && f.isOpen && (!f.mp.started ==> f.mp.lastLen == 0)
        else f.mp.stage == Unused && !f.isOpen)
    && f.opens == f.closes + (if f.isOpen then 1 else 0)
    && Told(f.mp.notices) == Some(Active(f.mp) && f.mp.started)
  }

  lemma TerminalSound(f: File, outcome: Outcome)
    requires Active(f.mp) && f.isOpen && f.opens == f.closes + 1 && Told(f.mp.notices) == Some(f.mp.started)
    ensures Sound(Terminal(f, outcome)) && !Active(Terminal(f, outcome).mp)
    ensures Closed(Terminal(f, outcome).mp.notices, outcome)
  {
    hide Told;
    ToldNext(f.mp.notices, Start);
    ToldNext(EmitStart(f.mp).notices, Done(outcome));
  }

  lemma TickSound(f: File, cancelled: bool, waiting: bool)
    requires Sound(f)
    ensures Sound(Tick(f, cancelled, waiting).0)
  {
    hide Terminal, Told;
    if Active(f.mp) {
      ToldNext(f.mp.notices, Start);
      TerminalSound(f.(mp := EmitStart(f.mp)), Aborted);
    }
  }

  lemma BuildSound(f: File, maxLen: int, offered: int)
    requires Sound(f)
    ensures Sound(Build(f, maxLen, offered).0)
  {
    hide Terminal, Told, HdrWrite;
    if Active(f.mp) {
      TerminalSound(f, Aborted);
    }
  }

  lemma CommitSound(f: File)
    requires Sound(f) && Active(f.mp)
    ensures Sound(f.(mp := TxCommit(f.mp))) && Active(TxCommit(f.mp))
  {
    hide Told;
    ToldNext(f.mp.notices, Progress(f.mp.offset + f.mp.lastLen));
  }

  lemma StatSound(f: File, buf: seq<byte>)
    requires Sound(f)
    ensures Sound(TakeStat(f, buf).0)
  {
    hide Terminal, Told, StatusIn, TxCommit, OutcomeOf;
    if Active(f.mp) && |buf| >= STAT_LEN {
      CommitSound(f);
      var g := f.(exclusive := buf[0] % 2 == 0, pollResp := buf[0] / 4 % 2 == 1, mp := TxCommit(f.mp));
      TerminalSound(g, OutcomeOf(StatusIn(buf)));
    }
  }

  datatype Call =
    | OnCommand(id: byte, content: Option<seq<byte>>, busy: bool)
    | OnTick(cancelled: bool, waiting: bool)
    | OnBuild(maxLen: int, offered: int)
    | OnStat(buf: seq<byte>)
    | OnAbort

  predicate Sized(c: Call) {
    c.OnCommand? && c.content.Some? ==> |c.content.value| < 0x1_0000_0000
  }

  function NextFile(f: File, c: Call): File
    requires Sound(f) && Sized(c)
  {
    match c
    case OnCommand(id, content, busy) => Command(f, id, content, busy).0
    case OnTick(cancelled, waiting) => Tick(f, cancelled, waiting).0
    case OnBuild(maxLen, offered) => Build(f, maxLen, offered).0
    case OnStat(buf) => TakeStat(f, buf).0
    case OnAbort => Abort(f)
  }

  lemma CallSound(f: File, c: Call)
    requires Sound(f) && Sized(c)
    ensures Sound(NextFile(f, c))
  {
    hide Told, Terminal, Tick, Build, TakeStat;
    match c
    case OnCommand(id, content, busy) =>
    case OnTick(cancelled, waiting) => TickSound(f, cancelled, waiting);
    case OnBuild(maxLen, offered) => BuildSound(f, maxLen, offered);
    case OnStat(buf) => StatSound(f, buf);
    case OnAbort =>
      if Active(f.mp) {
        TerminalSound(f, Aborted);
      }
  }

  // Whatever the panel does with file transfers, whatever the device answers and the application
  // reads: the application is told START PROGRESS* DONE for each transfer in turn, even for one that
  // never sent a fragment, and every file it opened is closed once when no transfer runs.
  lemma {:induction false} NoticesInOrder(fs: seq<File>, cs: seq<Call>, i: nat)
    requires |fs| == |cs| + 1 && i < |fs|
    requires fs[0].mp == Blank([]) && !fs[0].isOpen && fs[0].opens == fs[0].closes == 0
    requires forall k :: 0 <= k < |cs| ==> Sized(cs[k])
    requires forall k :: 0 <= k < |cs| ==> Sound(fs[k]) ==> fs[k + 1] == NextFile(fs[k], cs[k])
    ensures Sound(fs[i]) && Told(fs[i].mp.notices) == Some(Active(fs[i].mp) && fs[i].mp.started)
    ensures !Active(fs[i].mp) ==> fs[i].opens == fs[i].closes
  {
    hide NextFile;
    if i > 0 {
      NoticesInOrder(fs, cs, i - 1);
      CallSound(fs[i - 1], cs[i - 1]);
    }
  }

  // What a device reports when it is done with a transfer ends it with that very outcome, and a
  // refusal ends it at any time; DONE(Okay) and DONE(Rebooting) are told only of a file that is out to
  // its last byte, and a device that restarts is taken offline.
  lemma OutcomeTold(f: File, o: Outcome, control: byte, delay: nat, rxSize: nat)
    requires Sound(f) && Active(f.mp) && delay < 0x1_0000 && rxSize < 0x1_0000
    ensures var g := TakeStat(f, StatBytes(control, delay, StatusOf(o), rxSize)).0;
            && (!Active(g.mp) <==> o in {Aborted, Unrecognized, Invalid} || f.mp.offset + f.mp.lastLen == f.mp.total)
            && (!Active(g.mp) ==> Closed(g.mp.notices, o) && (g.goOffline <==> f.goOffline || o == Rebooting))
  {
    hide StatusIn, StatBytes, Told, Terminal;
    StatusRead(control, delay, StatusOf(o), rxSize);
    CommitSound(f);
    var buf := StatBytes(control, delay, StatusOf(o), rxSize);
    var g := f.(exclusive := buf[0] % 2 == 0, pollResp := buf[0] / 4 % 2 == 1, mp := TxCommit(f.mp));
    TerminalSound(g, o);
    GoesOffline(g, o);
  }

  lemma GoesOffline(f: File, o: Outcome)
    ensures Terminal(f, o).goOffline <==> f.goOffline || o == Rebooting
  {
  }
}
