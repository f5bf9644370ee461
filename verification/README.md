# LibOSDP, modelled and proved in Dafny

LibOSDP implements SIA OSDP v2.2 / IEC 60839-11-5: a control panel (CP) drives peripheral devices
(PDs) over a shared half-duplex bus, one command and one reply at a time, optionally under a secure
channel. This project models the library's protocol logic and proves what the protocol is for.
`dafny verify dfyconfig.toml` checks all of it.

The modules follow the program's layers, bottom up.

| layer | modules |
|---|---|
| bytes, the secure channel's block operations, the handshake | `Bytes`, `SecureChannel`, `SecureChannelMac`, `SecureChannelInPlace`, `Handshake` |
| packets on the wire, and finding them in a byte stream | `Packet`, `PacketRoundTrip`, `RingBuffer`, `Framer`, `FramerInPlace`, `FramerStream` |
| one command and its reply over a lossy line | `Link`, `CpPhy`, `PdPhy`, `Exchange`, `Waiting`, `LinkFacts`, `Addressing`, `LinkRun`, `LinkProof`, `LinkTheorems`, `LinkAbandon`, `LinkChains`, `Bus` |
| the panel's state machine, who owns commands and events and in what order, card sessions | `CpState`, `CpRecovery`, `Ownership`, `Completion`, `CompletionRun`, `QueueOrder`, `PdEvents`, `EventOrder`, `TrsBand`, `TrsSession`, `TrsCodec` |
| multi-part transfers and their users | `Multipart`, `MultipartInPlace`, `MultipartRun`, `Notices`, `Fragments`, `Piv`, `PivFragments`, `PivTheorems`, `PivNotices`, `Bio`, `BioTheorems`, `File`, `FileRun`, `FileProgress` |

Code that works step by step is modelled step by step: loops over byte buffers and records updated in
place are methods and classes (`Channel`, `Ring`, `Receiver`, `Panel`, `Device`, `Engine`, `Ledger`,
`Desk`, `EventDesk`, `Machine`, `Controller`), each proved to compute a function of its inputs and old state; the
properties are then proved about those functions. The block cipher and the CRC are parameters: all
that is used of the cipher is that decryption under a key inverts encryption under it. Time is a
parameter of each step. What callbacks and the channel do is chosen freely at every step.

## Main results

- **The link** (`LinkTheorems`). Panel and device exchange whole packets through one command slot and
  one reply slot, either of which may lose its packet at any step, and a send of the panel empties the
  reply slot. In every run from a restarted link, or from an established one with or without a
  session, in which no command is given up halfway without restarting the link: what the panel has completed is a prefix of what the device's handler ran, with the very
  replies the handler gave, and the handler is at most one command ahead (`ExactlyOnce`); while a
  command is outstanding the device is one sequence number behind it or exactly on it (`Lockstep`);
  every transmission of a command puts the same bytes on the line (`RetriesIdentical`); on an
  established link that is not restarted neither end ever sees a bad MAC, a reply out of sequence or
  a command that decrypts to anything but what was sent (`PanelNeverFaults`, `DeviceNeverFaults`).
- **A command given up** (`LinkAbandon`, `LinkChains`). The code can also leave a failed command behind
  and go on, as a card session does, and then the next command goes out on the same sequence number.
  In any such run of a plain link, that command is run once and answered by its own reply, however the
  exchange goes, if and only if the device has not had the number yet or has answered a command with
  another id on it (`AbandonedCommand`); from any established plain link there is a run in which the
  panel completes it with the reply to the command before (`AbandonedCommandRun`). Under a session
  what happens turns on whether the first four bytes of two differently chained MACs agree.
- **What an end leaves alone** (`Addressing`). On the shared line a device neither acts on, answers nor
  changes for anything that is not addressed to it, and runs its handler only for an intact frame on
  the number it expects next, on number 0, or on the number it answered last if it has no answer to
  repeat; any other number is refused with a NAK that says so. A checksum catches every single damaged
  byte; under a session nothing in the clear is taken, and nothing without a MAC that agrees.
- **One exchange in time** (`Waiting`): after a transmission, silence costs nothing for as long as
  RESP_TOUT_MS and the packet's own time on the line, a reply found meanwhile ends the exchange, and a
  command issued after an answered one has the whole retry budget.
- **One exchange** (`Exchange`): at most nine transmissions whatever happens; all nine of a command
  issued with no retry counted to a silent device, but one of the next if the failed exchange is left
  behind without a restart; and an end after a bounded number of calls on which clock and channel move on.
- **Packets** (`PacketRoundTrip.RoundTrip`): build, then header, integrity, address, sequence and
  session checks, then decode, returns the id and payload and leaves both sessions equal.
- **The MAC chain** (`SecureChannelMac`): MAC and data are the CBC constructions the channel asks for, and the
  same packet after another answer has another MAC (`MacsChain`).
- **The framer** (`Framer`, `FramerStream`): sound on any bytes, progress on every call, and on a clean
  stream the frames handed on do not depend on how the bytes arrived; whether a frame counts as marked
  does, and exactly how is said.
- **Commands and events come back exactly once** (`Ownership`, `Completion`, `CompletionRun`,
  `PdEvents`): a panel's commands over queue, wire and engines and a device's events over queue and
  reply, with callbacks that submit and flush from inside completions, through to teardown; what is
  aborted is exactly what teardown found outstanding.
- **In order** (`QueueOrder`, `EventOrder`): in every run, callbacks included, commands are accepted exactly
  when the checks pass, wait in the order they were accepted, go out in that order (`SentInOrder`), and
  flushes, dropped bands and teardown give them back in that order; a device's events are reported in
  the order they were submitted (`ReportedInOrder`).
- **The panel's state machine** (`CpState`, `CpRecovery`): where a session may exist, what ENFORCE_SECURE
  means, no downgrade to the default key. And it comes back: from OFFLINE, once the dwell is over, at
  most five answers lead to ONLINE under a session on the real key, or in the clear where there is none
  to be had and that is allowed (`Recovers`); a panel refused on the real key tries the default key once
  and ends on the real one through SET_SCBK (`FallsBack`).
- **Card sessions** (`TrsBand`, `TrsSession`, `TrsCodec`): a session that goes well puts mode-set(01), its card
  commands in order, terminate and mode-set(00) on the line and is announced opened and closed once
  (`SessionRuns`); the queue is always a legal word of bands, card commands
  stay in theirs, readers are taken back out of transparent mode, admitted commands fit and survive.
- **Multi-part transfers** (`MultipartRun`, `PivTheorems`, `BioTheorems`): prefix safety under any loss,
  repetition and reordering; challenge and response, and biometric templates, from end to end through
  real packets: they arrive if and only if the first packet of each direction fits with its padding.
- **File transfers** (`FileRun`, `FileProgress`): every packet opens with the file's id and carries a fragment
  of it, whatever is lost, refused, reported or aborted; the device always holds a prefix, and all of
  the file when the application is told it went through (`ArrivesWhole`); with a source that has data
  and a device that takes it, it is there after at most as many packets as it has bytes.
- **What applications are told** (`PivNotices`, `Bio`, `File`): START PROGRESS* DONE for every
  operation of every family, aborted and superseded ones included.

Where the code does less than one would expect, a lemma says exactly when:

- `LinkAbandon.AbandonedCommand`, `LinkChains.AbandonedUnderSession`, `RepeatedUnderSession`: a command
  given up without restarting the link leaves its sequence number to the next one, as above.
- `LinkChains.BrokenSendRunsTwice`, `BrokenSendUnderSession`: a reply the device's channel refuses for
  good is not counted as sent. On a plain link the retried command runs the handler again; under a
  session the device's R-MAC has moved, and the retry is answered with a NAK unless the MACs agree.
- `Fragments.FullFragmentFits`: senders of fragments leave 16 bytes for the secure channel, which can
  need 22. A full fragment under a session can be built exactly when x % 16 is 0 or large enough, where
  x is the fragment's length and one; with a 250-byte receive buffer (`FullFragmentAt250`) it cannot,
  and the operation is aborted.
- `TrsBand.VagueAnswerLeavesMode`: a reader that answers mode-set(01) with a reply naming no mode is
  left alone, without a mode-set(00); nothing else leaves one so.
- `TrsBand.OpenedWithoutMode01`: a session whose mode-set failed is still announced as opened.
- `TrsBand.FlushKeepsWord`: a completion that submits while a band without STOP is being dropped
  leaves its command behind with no session; nothing else breaks the queue's discipline there.
- `CpState.RaisedLate`: ENFORCE_SECURE raised on a running plain link does not take the link down.
- `FramerStream.MarkSurvives`: a marked frame counts as marked unless a call, made while it was the next
  one, came just when its mark had arrived and its start of message had not.
- `Multipart.TakesFragment`: an empty fragment at offset 0 is refused where a prefix is due; the
  library's own senders of prefixed payloads never send one.
- `FileRun.RereadMustAgree`: a file packet built again because its answer was lost is answered as the first
  one was; the two ends stay at the same place if and only if the source gives for it again what it
  gave before.
- `File.StatusCrosses`: a device that reports the last fragment as merely taken (status 0) ends the
  transfer as aborted.
- `TrsCodec.CardRoundTrip`: completion conditions beyond the three defined ones are lost.

## Model

| member | source | states |
|---|---|---|
| SecureChannel.CbcRoundTrip | src/osdp_sc.c:133-183 | CBC decryption under a key and IV undoes CBC encryption, for every whole number of blocks |
| SecureChannel.DataRoundTrip | src/osdp_sc.c:133-183 | a padded and encrypted data block decrypts to the data, whatever its length and whatever zeros or end markers it ends in |
| SecureChannel.StripZeros | src/osdp_sc.c:148-162 | stripping walks back over exactly the zero fill to the end marker |
| SecureChannelInPlace.Channel.ComputeMac | src/osdp_sc.c:185-237 | the block loop leaves in the channel the recursively defined MAC: CBC under S-MAC1 for all blocks but the last, the last under S-MAC2, over the padded message, for every length |
| SecureChannelInPlace.Channel.MacLeading | src/osdp_sc.c:199-215 | the loop over the leading blocks reduces the chain over the whole message to the chain over its last block |
| SecureChannelInPlace.Channel.LastBlock | src/osdp_sc.c:217-226 | the last block is the end of the padded message, empty and block-aligned messages included |
| SecureChannelInPlace.Channel.EncryptBlock | src/osdp_sc.c:165-183 | in-place padding and encryption write the encrypted data block over the buffer and touch nothing else |
| SecureChannelInPlace.Channel.StripInPlace | src/osdp_sc.c:148-162 | the in-place walk finds the data or the missing marker, and leaves the rest of the buffer alone |
| SecureChannelMac.MacIsCbc | src/osdp_sc.c:185-237 | the MAC is the last block, under S-MAC2, chained from the CBC encryption of the others under S-MAC1 |
| SecureChannelMac.MacsChain | src/osdp_sc.c:185-237 | the MAC of a command turns exactly on the last reply's MAC, that of a reply on the command's: the same packet after another answer has another MAC |
| SecureChannelMac.CarriesItsMac | src/osdp_phy.c:337-378 | a protected packet ends in four bytes of the MAC over the rest of it, which becomes its sender's; nothing else of the session changes |
| SecureChannelMac.DataIsCbc | src/osdp_sc.c:133-183 | every block of the data deciphers to the padded data with the block before it, or the complement of the other direction's last MAC, on top |
| SecureChannelMac.PadForm | src/osdp_sc.c:165-183 | padding is the end marker and the fewest zeros that fill the block |
| Handshake.SameKeyAgrees | src/osdp_sc.c:29-131 | with one key both proofs are accepted and both ends hold the same session |
| Handshake.SucceedsWhenProofsAgree | src/osdp_sc.c:89-123 | with any keys the handshake succeeds if and only if the two session keys agree on both cryptograms |
| Handshake.NoReplay | src/osdp_sc.c:103-123 | a cryptogram made under the panel's session key is accepted only for the panel's own random number |
| Handshake.Compare | src/osdp_sc.c:77-87 | the comparison that looks at every byte is zero exactly for equal buffers |
| Handshake.KeysDerived | src/osdp_sc.c:29-66 | the session keys, deciphered under the key in use, give back their marks and the panel's random number |
| Handshake.KeysDiffer | src/osdp_sc.c:29-66 | the three session keys differ from one another, and from those of any other random number |
| Handshake.FirstRMac | src/osdp_sc.c:89-131 | the first R-MAC, deciphered under the three keys in turn, gives back both random numbers |
| Packet.RollbackThenNext | src/osdp_phy.c:148-165 | rolling a nonzero sequence number back and advancing it gives it again, across the wrap from 3 to 1 |
| Packet.ControlFields | src/osdp_phy.c:229-264 | sequence number, CRC and security-block bits are read back from the control byte as they were written |
| Packet.BlockSays | src/osdp_phy.c:229-300 | what a security block says: whose packet it is, whether its sender is under a session or setting one up, and whether there is data |
| Packet.ChecksumBalances | src/osdp_phy.c:135-146 | message and checksum add up to zero modulo 256 |
| Packet.ComputeChecksum | src/osdp_phy.c:135-146 | the checksum loop computes the checksum of the whole message |
| PacketRoundTrip.BuildFits | src/osdp_phy.c:206-407 | a packet is built if and only if the size limit covers the minimum packet and the message with all its overhead, and then has exactly that length |
| PacketRoundTrip.Framed | src/osdp_phy.c:427-486 | every built packet passes header validation at the other end with its own length and mark |
| PacketRoundTrip.Accepted | src/osdp_phy.c:585-714 | a built packet passes the integrity, address and sequence checks of the peer it is for |
| PacketRoundTrip.DecodesSecure | src/osdp_phy.c:819-995 | under a session, a packet whose receiver holds the sender's keys and chained MAC decodes to what was sent, and both hold the same session after it |
| PacketRoundTrip.RoundTrip | src/osdp_phy.c:206-995 | init, build and finalize, then framing, checks and decode at the paired end, return exactly id and payload and the same session, for every id and fitting payload, either role, mark or none, CRC or checksum, plain, handshake or secure |
| PacketRoundTrip.BusyIsHeard | src/osdp_phy.c:690-703 | a device's BUSY reply is plain, on number 0 and minimal, and a panel hears it as BUSY whatever its session and number |
| Addressing.OwnDirection | src/osdp_phy.c:427-486 | whatever one side of the line builds, no receiver of that same side takes for a frame |
| Addressing.NotForThisDevice | src/osdp_phy.c:622-631 | for every packet any panel or device builds that is not for this device: one refresh runs nothing, sends nothing and leaves the device exactly as it was |
| Addressing.NotForThisPanel | src/osdp_phy.c:622-631 | a reply from another address, or a panel's packet, is never accepted as the answer; it fails the exchange |
| Addressing.RunsWhatIsForIt | src/osdp_phy.c:585-714 | on a plain link a packet on the next number is run if and only if it is addressed to this device or to all, and as the message it carries |
| Addressing.ChecksumCatches | src/osdp_phy.c:597-620 | a packet with a checksum that checks out does not once any single byte of it but the control byte is changed |
| Addressing.DamagedAtDevice | src/osdp_pd.c:1696-1733 | a frame whose check bytes are wrong runs nothing, is not answered and costs the session and the cached reply |
| Addressing.DamagedAtPanel | src/osdp_cp.c:975-1026 | at the panel it fails the exchange |
| Addressing.RunsOnlyInSequence | src/osdp_phy.c:633-711 | for any bytes at all: if the handler is run, they are an intact frame to this device or all, on number 0, the next number, or the own one, and then not for a command whose answer is cached |
| Addressing.OutOfStepRefused | src/osdp_phy.c:702-711 | a packet on any other nonzero number draws NAK SEQ_NUM, runs nothing and leaves the device as it was |
| Addressing.RepeatsLastReply | src/osdp_phy.c:648-668 | a repeated command draws the very bytes of the last reply, if the channel takes them, and changes nothing |
| Addressing.PlainUnderSession | src/osdp_phy.c:869-909 | under a session a packet in the clear is refused, except the ACK to a KEYSET at a panel that does not enforce security, and nothing else |
| Addressing.SecureWithoutSession | src/osdp_phy.c:836-862 | without a session exactly well-formed handshake packets are read past a security block; the rest draw NAK SC_COND |
| Addressing.NoSecureChannel | src/osdp_phy.c:836-842 | a device without a secure channel answers any security block with NAK SC_UNSUP |
| Addressing.UnknownBlock | src/osdp_phy.c:843-856 | a security block of no known type, or that does not fit the packet, draws NAK SC_COND and costs no session |
| Addressing.OnlyWithMac | src/osdp_phy.c:911-925 | what a session hands on from a secure packet ended in the MAC the receiver computed over it |
| CpPhy.Panel.Update | src/osdp_cp.c:1151-1265 | the fall-through switch on in-place fields moves the panel exactly as the step function does: state, return code, bytes sent, flush, reply taken, reply accepted |
| CpPhy.Panel.TakeReply | src/osdp_cp.c:975-1026 | what receiving changes before any verdict is acted on: session, sequence number, link-reset request |
| CpPhy.Panel.Receive | src/osdp_cp.c:1211-1257 | the reply arm: done, failed, waiting for a retry within the budget, or still waiting |
| PdPhy.Device.CheckPkt | src/osdp_phy.c:585-714 | the checks of a framed command as they run: sequence number, cached reply and session move with the verdict |
| PdPhy.Device.Receive | src/osdp_pd.c:1696-1733 | receiving and decoding on in-place fields is the receive function: what is ignored, repeated, refused or run, and what every field is left as |
| PdPhy.Device.Update | src/osdp_pd.c:1748-1883 | one refresh of the device, receive half included, moves its fields, its reply and its handler exactly as the step function does |
| PdPhy.Device.SendReply | src/osdp_pd.c:1676-1694 | a sent reply advances the sequence number and becomes the cached reply; one the channel is not ready for stays parked |
| Exchange.AtMostNine | src/osdp_cp.c:1151-1265 | over any calls, a command is transmitted at most OSDP_CMD_MAX_RETRIES + 1 times, BUSY, check-character NAK and timeout sharing one budget |
| Exchange.SilentDevice | src/osdp_cp.c:1241-1255 | a device that never answers is sent exactly what is left of the budget, then the exchange fails |
| Exchange.AfterSilence | src/osdp_phy.c:997-1020 | a command issued with no retry counted goes out nine times to a silent device; the next one goes out once if the exchange is left behind, nine times after a restart |
| Exchange.RankShrinks | src/osdp_cp.c:1151-1265 | every call on which clock and channel move on lowers a lexicographic measure of retries and phase, and no call raises it |
| Exchange.Terminates | src/osdp_cp.c:1151-1265 | enough such calls always end the exchange |
| Waiting.WaitsForReply | src/osdp_cp.c:1206-1258 | after a call that transmits, a call with nothing received changes nothing up to RESP_TOUT_MS and the packet's time on the line, and only after that counts a retry or fails |
| Waiting.Patience | src/osdp_cp.c:1206-1258 | any number of such calls within RESP_TOUT_MS leave the command outstanding, with no retry counted and nothing sent |
| Waiting.AnsweredInTime | src/osdp_cp.c:1214-1228 | the device's reply, found on the call after any number of those, is accepted and ends the exchange |
| Waiting.NoFrameNoReply | src/osdp_cp.c:975-1026 | bytes that are no whole frame pass for silence; a frame from a panel fails the exchange |
| Waiting.WaitsToRetry | src/osdp_cp.c:1163-1183 | a retry is due exactly CMD_RETRY_WAIT_MS after the call that decided on it |
| Waiting.StartsAfresh | src/osdp_cp.c:1129-1137 | after any exchange that ended short of an error the next command has the budget of CMD_MAX_RETRIES + 1 |
| Waiting.AnsweredStartsAfresh | src/osdp_cp.c:1219-1228 | so after an answered exchange, whatever it took |
| Waiting.RestartForgets | src/osdp_phy.c:997-1021 | a link that starts over keeps nothing of the old one: number, session, retry count, buffer and requests |
| Waiting.ReportsPhase | src/osdp_cp.c:1151-1265 | what a call returns says where the exchange stands; receive data is flushed, and read, exactly when it should be |
| LinkFacts.RebuildIdentical | src/osdp_cp.c:1167-1187 | rebuilding a command after a rewind, from a session whose C-MAC the first build overwrote, gives the same bytes and session |
| LinkFacts.PdTakes | src/osdp_pd.c:1696-1733 | a device one command behind takes the outstanding command for exactly what the panel submitted, and its session moves to where the panel's is |
| LinkFacts.PdRepeats | src/osdp_phy.c:648-676 | a device that has answered the command only repeats its cached reply |
| LinkFacts.PdRestarts | src/osdp_phy.c:636-647 | sequence number 0 is taken in any state and ends the session |
| LinkFacts.CpTakes | src/osdp_cp.c:975-1026 | the panel takes the device's reply for exactly what the device built, and its session moves to where the device's is |
| LinkFacts.CpRejects | src/osdp_phy.c:702-711 | a reply on any other sequence number asks for a link reset |
| LinkProof.StepKeeps | src/osdp_cp.c:1151-1265 | every step of panel, device or channel keeps the link invariant |
| LinkProof.PdStepKeeps | src/osdp_pd.c:1748-1883 | every refresh of the device keeps the link invariant |
| LinkProof.CpStepReplySynced | src/osdp_cp.c:1205-1257 | whatever the panel does with a waiting reply keeps the link invariant |
| LinkTheorems.ExactlyOnce | src/osdp_phy.c:633-711 | in every run without a command given up halfway, since the last restart of the link: the exchanges completed are a prefix of the handler runs, reply for reply, with at most the outstanding command ahead |
| LinkTheorems.Lockstep | src/osdp_cp.c:1151-1265 | in every run the device is one sequence number behind the outstanding command or exactly on it |
| LinkTheorems.RetriesIdentical | src/osdp_cp.c:1167-1200 | in every run each transmission of a command carries the bytes of the first |
| LinkTheorems.PanelNeverFaults | src/osdp_phy.c:911-957 | in every run of an established link, what the panel finds waiting is the decrypted reply to its own command, never a bad MAC or a sequence error |
| LinkTheorems.DeviceNeverFaults | src/osdp_phy.c:337-378 | in every run of an established link, what the device finds is the command the panel submitted, decrypted, or one it has already answered |
| LinkAbandon.AbandonedCommand | src/osdp_phy.c:648-676 | in any run of a plain link in which a command is given up without a restart: the next command out is run and answered by its own reply, however the exchange goes, if and only if the device has not had the number or has answered another id on it |
| LinkAbandon.FreshIsServed | src/osdp_phy.c:648-676 | a device that takes the next command runs it once, the panel gets that run's reply, and both ends are in step afterwards |
| LinkAbandon.OldReplyServed | src/osdp_phy.c:648-676 | with the same id the panel gets the reply to the command given up, however the exchange goes, and the handler is never run for the next one |
| LinkAbandon.AbandonedCommandRun | src/osdp_cp.c:2236-2251 | from any established plain link: a run in which a command is answered, every answer and retry is lost, it is given up, and the next command of the same id completes with its reply |
| LinkChains.Verdict | src/osdp_phy.c:911-957 | a secure packet at an end with any chain of its own is refused and ends the session unless the MAC bytes agree; without data it is taken exactly when they do |
| LinkChains.AbandonedUnderSession | src/osdp_phy.c:911-957 | under a session, after a command answered and given up, the next one with another id is run only if its MAC agrees with one chained from the answer, and otherwise draws NAK and costs the session |
| LinkChains.RepeatedUnderSession | src/osdp_phy.c:648-676 | with the same id the device repeats its answer, and the panel takes it only if the MACs agree; otherwise the exchange fails and the session is gone |
| LinkChains.BrokenSendRunsTwice | src/osdp_pd.c:1869-1883 | on a plain link, after a fatal send error the retried command runs the handler again |
| LinkChains.BrokenSendUnderSession | src/osdp_pd.c:1869-1883 | under a session the retried command is not run again unless the MACs agree: the device refuses it and drops the session |
| Bus.Controller.Refresh | src/osdp_cp.c:2799-2838 | the loop is one round of turns; over any number of devices and refreshes at most one device has the bus and it is the current one, every packet on the line is, byte for byte, the one that was finalized in the shared buffer, and a device that keeps the bus is the only one that moves |
| Bus.Controller.TakeTurn | src/osdp_cp.c:2176-2199 | a device's turn is its own step, moves no other device and keeps a parked packet intact in the shared buffer |
| Bus.EveryDeviceHasItsTurn | src/osdp_cp.c:2799-2838 | a refresh after which nobody has the bus has given every device exactly one turn, round from where the last one stopped; otherwise it stopped at the device that has it |
| Bus.TurnIsTheLinks | src/osdp_cp.c:2176-2251 | a device's turn is a step of its link, what the channel takes is what the link sent, and after an exchange the phy is idle, restarted if that was asked for |
| Bus.TurnFacts | src/osdp_cp.c:1098-1118 | after a turn a device is waiting to send only what it finalized itself |
| RingBuffer.Ring.Push | src/osdp_common.c:297-311 | appends one byte, refused exactly when all slots but one are taken |
| RingBuffer.Ring.Pop | src/osdp_common.c:326-340 | takes the oldest byte, none exactly when empty |
| RingBuffer.Ring.PushBuf | src/osdp_common.c:313-324 | appends as many bytes as there is room for, in order |
| RingBuffer.Ring.PopBuf | src/osdp_common.c:342-353 | moves the oldest bytes to the destination, in order, and touches nothing else |
| FramerInPlace.Receiver.RescanBuf | src/osdp_phy.c:489-518 | the in-place shift leaves exactly the bytes from the next start of message on, behind a mark if one preceded it |
| FramerInPlace.Receiver.FindStart | src/osdp_phy.c:529-549 | the scan loop discards bytes up to a start of message, keeping a mark seen just before it |
| FramerInPlace.Receiver.ReadHeader | src/osdp_phy.c:522-582 | collecting, validating and rescanning on the real buffers is the step function |
| FramerInPlace.Receiver.CollectFrame | src/osdp_phy.c:741-800 | collecting a frame on the real buffers is the step function, and the overlong guard is never taken |
| FramerInPlace.Receiver.Receive | src/osdp_phy.c:107-132 | bytes are queued in order; loss is reported exactly when the ring cannot hold them all |
| Framer.CollectKeepsFramed | src/osdp_phy.c:716-800 | on any bytes the buffer is empty or starts with SOM or MARK, SOM, never exceeds the declared length or the buffer, and a frame handed on has exactly its declared length |
| Framer.RescanFacts | src/osdp_phy.c:489-518 | a rescan gives up at least one byte and leaves a framed buffer |
| Framer.RescanFinds | src/osdp_phy.c:489-518 | a rescan goes on at the first start of message past the one given up, and has the mark flag exactly if a mark precedes it |
| Framer.NoDataExactly | src/osdp_phy.c:522-582 | a call says there is no data only if everything was looked at and nothing kept, and does if there is no start of message |
| Framer.QueuesWhatFits | src/osdp_phy.c:107-132 | bytes received are queued in full if they fit the ring less one slot, and else as many as do |
| Framer.CallsProgress | src/osdp_phy.c:522-800 | every call on waiting bytes hands on a frame, skips one, or lowers the measure (bytes in the ring, bytes in the buffer) |
| FramerStream.CollectClean | src/osdp_phy.c:522-800 | on a clean stream a call hands on the next packet or has used every byte there was |
| FramerStream.ChunkingDoesNotMatter | src/osdp_phy.c:716-800 | however a clean stream is cut into calls, what is handed on is a prefix of its packets in order, and all of them once every byte has been looked at |
| FramerStream.CallsDrain | src/osdp_phy.c:716-800 | once everything has arrived, one call per missing frame and one more hand on all of them |
| FramerStream.MarkSurvives | src/osdp_phy.c:529-549 | for every clean stream and every cut, a frame counts as marked if and only if it is marked and no call made while it was the next one ended exactly between its mark and its start of message |
| CpState.ChannelDiscipline | src/osdp_cp.c:1765-1935 | in every run, between passes: an active session only in SET_SCBK or ONLINE, on the default key exactly in SET_SCBK, none during a handshake, and the last status notification is true |
| CpState.EnforcedOnline | src/osdp_cp.c:1804-1839 | set up with ENFORCE_SECURE, ONLINE always has a session on the real key |
| CpState.NoDowngrade | src/osdp_cp.c:1811-1916 | once a session has come up on the real key it stays recorded and the default key is never used again |
| CpState.RaisedLate | src/osdp_cp.c:3046-3096 | ENFORCE_SECURE raised on a plain ONLINE link leaves it ONLINE in the clear after a pass if and only if nothing failed and no handshake was due |
| CpState.StepKeeps | src/osdp_cp.c:2176-2327 | every pass and every request keeps the state invariant |
| CpRecovery.Recovers | src/osdp_cp.c:1765-1803 | from OFFLINE with nothing asked for, once the dwell is over, five answers at most: a session on the real key with a capable device and a key; else ONLINE in the clear if not enforced, OFFLINE if enforced |
| CpRecovery.ComesUp | src/osdp_cp.c:1765-1790 | the same from INIT, in four |
| CpRecovery.Dwells | src/osdp_cp.c:1792-1796 | OFFLINE goes to INIT at the first pass after the dwell and at none before |
| CpRecovery.LostFor | src/osdp_cp.c:1937-2050 | however the link is lost, the dwell runs RETRY_WAIT_MAX_MS from that pass, without a session and with nothing left asked for |
| CpRecovery.Loses | src/osdp_cp.c:1804-1839 | no answer in INIT, CAPDET or ONLINE, and a reply out of sequence anywhere, take the panel OFFLINE |
| CpRecovery.TriesDefaultKey | src/osdp_cp.c:1811-1818 | a first refusal on the real key is answered with one try on the default key, if that is allowed and no session on the real one has been |
| CpRecovery.FallsBack | src/osdp_cp.c:1765-1916 | that try, answered, leads through SET_SCBK to a session on the real key in six passes |
| CpRecovery.TriesOnce | src/osdp_cp.c:1895-1914 | refused again, the panel is ONLINE in the clear with the real key on record, and tries it again after SC_RETRY_MS, not before |
| CpRecovery.RefusedHalfway | src/osdp_cp.c:1820-1830 | a failure in the second half of the handshake leaves the panel ONLINE in the clear as it was; one in SET_SCBK takes it OFFLINE without a session |
| CpRecovery.EnforcedKeepsKey | src/osdp_cp.c:1811-1824 | under ENFORCE_SECURE a refused handshake takes the panel OFFLINE and changes neither key nor retry clock |
| CpRecovery.StaysUp | src/osdp_cp.c:1786-1791 | a panel that is up stays exactly as it is, the session clock apart, while it is answered |
| CpRecovery.Rekeys | src/osdp_cp.c:1580-1599 | an acknowledged KEYSET gives the session up and two answers take it up again on the real key |
| CpRecovery.Disables | src/osdp_cp.c:2256-2327 | a disable request is met at the next pass whatever it brings, and lasts until enabled, or until a reply out of sequence takes the panel OFFLINE |
| CpRecovery.GoesOffline | src/osdp_cp.c:2256-2289 | a request to go offline is met at the next pass that finds or would make the panel ONLINE |
| CpState.Machine.StateUpdate | src/osdp_cp.c:2176-2327 | the pass as it runs, fields updated one by one, computes the step function |
| CpState.Machine.Choose | src/osdp_cp.c:2256-2289 | tables, effects and ONLINE requests as they run: the next state and what was changed on the way |
| CpState.Machine.ApplyEffects | src/osdp_cp.c:1858-1935 | the transition effects as they run, against their field-by-field meaning |
| CpState.Machine.ChangeState | src/osdp_cp.c:1937-2050 | entry actions, then state, then notification, against the field-by-field meaning of entering a state |
| Ownership.Ledger.Submit | src/osdp_cp.c:2395-2486 | a command joins the end of the queue if and only if every check, the band's included, lets it |
| Ownership.Ledger.Complete | src/osdp_cp.c:81-95 | a command is handed back and the application may submit and flush before the call returns, on in-place fields as the function has it |
| Ownership.Ledger.Drain | src/osdp_cp.c:2883-2899 | the loop over the detached queue computes the function: all of it is given back, in order, whatever callbacks do to the new queue |
| Ownership.Ledger.FlushBand | src/osdp_cp.c:1333-1371 | the loop up to the STOP and the splice after it compute the function |
| Ownership.CallbackBalances | src/osdp_cp.c:81-95 | whatever a callback submits and flushes, to any depth, every ticket stays accounted for once |
| Ownership.GiveBackBalances | src/osdp_cp.c:2883-2899 | giving back a queue takes each of its tickets off the account once, callbacks included |
| Ownership.FlushTells | src/osdp_cp.c:2928-2950 | all queued commands come back FLUSHED, as many as reported, and the band is open exactly if a session still awaits its STOP |
| Ownership.FlushBandTells | src/osdp_cp.c:1333-1371 | with re-entrant callbacks, exactly the band's commands come back FLUSHED and what followed the band stays in front of anything queued meanwhile |
| Completion.Desk.EngineDone | src/osdp_common.c:565-600 | the notification, then the completion hook, on in-place fields as the function has it |
| Completion.EngineDoneTells | src/osdp_common.c:588-599 | an operation's end completes the engine's command exactly if it is of that operation's family, with that operation's outcome |
| Completion.AbortAccounts | src/osdp_common.c:602-607 | aborting the engines leaves none of them live and every ticket accounted for |
| Completion.Desk.SubmitEngine | src/osdp_cp.c:2443-2461 | an engine's command is accepted only while no engine is live, and takes the slot |
| Completion.PickUpTells | src/osdp_cp.c:1299-1415 | the head of the queue becomes active, or comes back OK as a marker, or FAILED when it has no translation |
| Completion.SettleTells | src/osdp_cp.c:2200-2235 | the active command comes back OK or FAILED, or moves to a free engine slot while its reply is reassembled |
| Completion.TeardownTells | src/osdp_cp.c:2744-2797 | everything outstanding, in queue, engine slot and active slot, comes back ABORTED, and nothing comes back any other way |
| Completion.InOnePlace | src/osdp_cp.c:2395-2486 | on a valid panel every accepted command is in exactly one of queue, active slot, engine slot or given back, and no other is anywhere |
| CompletionRun.EveryMoment | src/osdp_cp.c:2176-2251 | in every run of submissions, flushes, engine outcomes, refreshes and re-entrant callbacks the panel is so |
| CompletionRun.ExactlyOnce | src/osdp_cp.c:2744-2797 | by the end of teardown each ticket that was handed out has been given back exactly once, and no other |
| CompletionRun.AbortedExactly | src/osdp_cp.c:2744-2797 | a completion says ABORTED if and only if teardown made it |
| CompletionRun.Lifetime | src/osdp_cp.c:2744-2797 | a panel's whole life on the object itself: the completions and acceptances are those of the life function, each accepted command completed exactly once |
| Completion.OpenBioTells | src/osdp_bio.c:68-80 | a read to be reassembled takes the place of one left behind, whose command comes back FAILED |
| QueueOrder.SubmitWaitsLast | src/osdp_cp.c:2395-2486 | a submission is accepted if and only if every check passes, and then has the next ticket and waits behind all that waited |
| QueueOrder.AcceptedExactly | src/osdp_cp.c:2395-2486 | the same at any moment of any run, the checks being its own, the last ONLINE change and the queue's discipline |
| QueueOrder.EngineTakesNext | src/osdp_cp.c:2443-2461 | an engine's command is accepted if and only if every check passes and no engine is live, and is with its engine at once under the next ticket |
| QueueOrder.QueueInOrder | src/osdp_cp.c:57-61 | in every run, callbacks included, tickets in the queue strictly rise from head to tail and are all below the next one |
| QueueOrder.SentInOrder | src/osdp_cp.c:1299-1415 | in every run commands go on the wire in the order they were accepted |
| QueueOrder.FlushBandOrders | src/osdp_cp.c:1333-1371 | what a dropped band leaves waits in order ahead of what its completions submitted |
| QueueOrder.FlushedInRuns | src/osdp_cp.c:2928-2950 | in every run a flush brings back all that waits, in order, and what waits after it was submitted since |
| QueueOrder.EnginesInRuns | src/osdp_common.c:565-600 | in every run an engine's end brings its own command back as it ended and no other's, and an engine takes a command exactly if the panel is ONLINE and none is at work |
| QueueOrder.FlushBandInOrder | src/osdp_cp.c:1333-1371 | a dropped band comes back in the order it waited in, up to its STOP |
| QueueOrder.TeardownInOrder | src/osdp_cp.c:2744-2797 | teardown gives back what waits in the order it waits in |
| QueueOrder.CallbackFlushes | src/osdp_cp.c:2883-2899 | so does a flush from inside a callback, before the callback returns |
| QueueOrder.FirstCommandGoesOut | src/osdp_cp.c:2395-2486 | a new panel, once ONLINE, takes any command but a card command or STOP and sends it on the next pass |
| PdEvents.SlotEmptyWhenFilled | src/osdp_pd.c:1748-1883 | in every run an event is held between refreshes only by a parked reply, so no event is ever overwritten by the next |
| PdEvents.InOnePlace | src/osdp_pd.c:280-296 | in every run each accepted event is in exactly one of queue, the reply being sent, or given back |
| PdEvents.ExactlyOnce | src/osdp_pd.c:2061-2076 | by the end of teardown each accepted event has been completed exactly once |
| PdEvents.PollTells | src/osdp_pd.c:1621-1883 | the event a poll takes comes back OK exactly if its reply was built as such and went out, stays only while its reply is parked, and else comes back FAILED |
| PdEvents.ParkedTells | src/osdp_pd.c:1834-1872 | an event parked with its reply comes back as that reply fares |
| PdEvents.InlineTells | src/osdp_pd.c:1621-1883 | an event that answers a command is taken after the application's callback ran, and comes back as its reply fares; one that does not stays |
| PdEvents.OthersTakeNothing | src/osdp_pd.c:1748-1883 | other commands, and a poll with nothing to tell, cost no event; a reply stays parked exactly if the channel was not ready for it |
| PdEvents.EventDesk.Refresh | src/osdp_pd.c:1748-1883 | dispatch, build, error reset and send on in-place fields are the update function |
| PdEvents.Lifetime | src/osdp_pd.c:2061-2076 | a device's whole life on the object itself, each accepted event completed exactly once |
| EventOrder.OldestFirst | src/osdp_pd.c:280-296 | in every run events wait in the order they were accepted, and the one being answered is older than all that wait |
| EventOrder.ReportedInOrder | src/osdp_pd.c:1834-1883 | in every run the application hears how events fared in the order it submitted them; only a flush brings one back out of turn |
| EventOrder.AcceptedAlways | src/osdp_pd.c:2255-2286 | in every run an event whose checks pass is accepted and waits last, and a flush brings all back in order |
| TrsBand.DropsItsBand | src/osdp_cp.c:1333-1371 | a dead session drops cards up to and including its STOP, nothing more, and the rest keeps its order and its meaning |
| TrsBand.FlushKeepsWord | src/osdp_cp.c:1333-1371 | with completions that submit, the queue stays legal if and only if the band had its STOP or nothing was submitted |
| TrsBand.AdmitsLegal | src/osdp_cp.c:2336-2392 | a submission is let in exactly if the queue is still a legal word with it at the end |
| TrsBand.StepKeeps | src/osdp_cp.c:1400-1509 | every submission, flush, pass and answer keeps the session invariant |
| TrsBand.QueueIsLegal | src/osdp_cp.c:2336-2392 | in every run the queue, read from where the session stands, is a legal word of bands ending where the next submission is judged from |
| TrsBand.CardsStayInBand | src/osdp_cp.c:1465-1509 | in every run a card command leaves the queue only from its head, into an open session of its own band, never during an unadopted probe |
| TrsBand.SessionEnds | src/osdp_cp.c:1953-1984 | a session's end takes from the queue what is left of its band and nothing else, and tells the application once how it ended |
| TrsBand.ModeTakenBack | src/osdp_trs.c:989-1070 | back ONLINE, a reader asked into mode 01 has been asked back or has named another mode, unless it gave an answer naming none |
| TrsBand.VagueAnswerLeavesMode | src/osdp_trs.c:989-1009 | such an answer, and only such an answer, leaves the reader unattended |
| TrsBand.OpenedWithoutMode01 | src/osdp_cp.c:2018-2031 | a session is announced opened without mode 01 if and only if its mode-set failed |
| TrsBand.FailureGoesOn | src/osdp_trs.c:1034-1070 | in every run a card command or mode-set without a usable answer keeps the panel on the link, and mode-set(00), under the same id, goes out next |
| TrsBand.WindsDown | src/osdp_trs.c:1010-1070 | after STOP or a failure, at most two commands of the library's own and four passes with news lead back to ONLINE |
| TrsSession.SessionRuns | src/osdp_cp.c:1465-1509 | a session from START to STOP, its reader willing: mode-set(01), the cards in order, terminate, mode-set(00); told opened and closed once each; what waits behind its band waits on |
| TrsSession.ModeRefused | src/osdp_trs.c:989-1009 | a reader that names another mode costs the session its band, and the application hears it failed |
| TrsSession.ScanRuns | src/osdp_trs.c:1082-1205 | a scan opens a session of its own, asks, and takes the reader back out of mode 01; nothing is told and the queue stays |
| TrsSession.ScanAdopted | src/osdp_trs.c:1164-1176 | a START during a scan takes the session over as it stands, announces it and sends the head of its band at once |
| TrsSession.ScanFails | src/osdp_trs.c:513-534 | a refused question is no failure; another failure takes the reader back and suspends scanning |
| TrsSession.WaitsForMore | src/osdp_cp.c:1465-1509 | with nothing waiting a session stays open, whatever the scan timers say; a scan asks when due and ends when its time is up |
| TrsSession.OnlineSends | src/osdp_cp.c:1400-1464 | outside a session the head of the queue goes out or, with no translation, is dropped; with nothing waiting what the panel has of its own |
| TrsSession.SubmissionsTaken | src/osdp_cp.c:2336-2486 | on the link a submission joins the end of the queue exactly if the queue stays a legal word with it, and a flush empties the queue |
| TrsSession.OwesFromModeOn | src/osdp_trs.c:989-1070 | a way back is owed from the moment mode-set(01) goes out until mode-set(00) does or the reader names another mode |
| TrsCodec.PositionRoundTrip | src/osdp_trs.c:149-204 | exactly the byte-aligned positions up to 15 bytes and the bit positions up to 15 have a wire form, and it reads back as the position |
| TrsCodec.PinRoundTrip | src/osdp_trs.c:354-414 | the packed PIN parameter block reads back field by field, undefined completion conditions apart |
| TrsCodec.CardRoundTrip | src/osdp_trs.c:818-959 | a card command a device in mode 01 decodes is the one the panel built if and only if it sets only defined completion conditions |
| TrsCodec.BuildsExactly | src/osdp_trs.c:315-414 | a card command is built if and only if there is room for it and a PIN entry's layout has a wire form |
| TrsCodec.DecodedIsOk | src/osdp_trs.c:818-959 | whatever a device decodes as a PIN entry has a layout the panel's check admits |
| TrsCodec.DecodesExactly | src/osdp_trs.c:818-959 | for any bytes in any mode: exactly what is acknowledged, reported, handed to the application or refused, and the mode after it |
| TrsCodec.AdmittedExactly | src/osdp_cp.c:2358-2381 | a C-APDU is admitted if and only if it and 40 bytes, 59 in a PIN entry, fit the negotiated packet |
| TrsCodec.AdmittedFits | src/osdp_cp.c:2358-2381 | every admitted card command builds and its finalized frame fits every negotiated size of at least 128, with or without mark, CRC and session |
| Multipart.HdrRoundTrip | src/osdp_multipart.c:46-69 | a fragment header reads back as written if and only if each field fits its width |
| Multipart.BuildsFragments | src/osdp_multipart.c:144-187 | whatever the builder emits is a fragment of the source at the committed offset |
| Multipart.TakesFragment | src/osdp_multipart.c:219-290 | for every fragment of the source, in any order: the verdict it gets and that nothing the receiver holds is lost |
| Multipart.CommitHolds | src/osdp_multipart.c:298-310 | a commit extends the received prefix by exactly the last fragment |
| Multipart.BuildsExactly | src/osdp_multipart.c:144-182 | a frame is built if and only if there is room for header, prefix and, short of the end, one byte, and the source does not fail |
| Multipart.RefusesForeign | src/osdp_multipart.c:219-290 | a fragment of another payload, of one too long for the buffer, past the end or behind a gap is refused and leaves the receiver as it was |
| Multipart.CommitTold | src/osdp_multipart.c:298-310 | a commit is told as progress exactly if it moved the receiver short of the end |
| Multipart.EndTold | src/osdp_multipart.c:348-356 | the end is told once, of an armed engine, and never of another |
| MultipartInPlace.Engine.TxBuild | src/osdp_multipart.c:144-182 | writing payload, prefix and header into the packet is the build function, and the rest of the packet is untouched |
| MultipartInPlace.Engine.RxConsume | src/osdp_multipart.c:219-290 | parsing and writing into the bound buffer is the consume function |
| MultipartInPlace.Engine.RxCommit | src/osdp_multipart.c:298-310 | the commit as it runs is the commit function, progress notice included |
| MultipartInPlace.Engine.Finish | src/osdp_multipart.c:348-356 | the end of a live transfer is reported once |
| MultipartRun.NeverCorrupts | src/osdp_multipart.c:144-310 | under any loss, duplication and reordering the committed prefix is the source's prefix within total and buffer, and a complete verdict followed by commit means the whole payload |
| MultipartRun.RebuildSame | src/osdp_multipart.c:144-182 | building again without a commit gives the same fragment and state |
| MultipartRun.RoundMoves | src/osdp_multipart.c:144-310 | in stop-and-wait every fragment moves both ends on together by at least a byte, and the receiver knows of the end exactly when it is there |
| MultipartRun.ConveysWhole | src/osdp_multipart.c:144-310 | at most as many fragments as there are bytes convey the whole payload |
| Fragments.FullFragmentFits | src/osdp_multipart.h:29-29 | for every packet size from 128 up: a fragment filled to its limit can be built without a session, and under one exactly when its padding fits the reserve |
| Fragments.FullFragmentAt250 | src/osdp_phy.c:312-407 | with a 250-byte buffer, mark, CRC and session, a full command fragment cannot be built |
| Fragments.CommandCrosses | src/osdp_phy.c:206-995 | a command gets across an established link as sent, and leaves it established, exactly when its packet fits |
| Fragments.ReplyCrosses | src/osdp_phy.c:206-995 | so does a reply |
| PivFragments.CommandFragment | src/osdp_piv.c:417-478 | one command fragment, built and taken in: its length, and that both ends move on together or the request is handed over |
| PivFragments.ReplyFragment | src/osdp_piv.c:347-391 | one reply fragment likewise, the first one inline or polled |
| PivTheorems.CommandArrives | src/osdp_piv.c:260-321 | a request whose first packet fits reaches the device's application as submitted, packet by packet, at the last fragment |
| PivTheorems.ReplyArrives | src/osdp_piv.c:347-545 | a reply whose first packet fits reaches the panel's application as given, and both ends are idle after it |
| PivTheorems.ChallengeAndResponse | src/osdp_piv.c:189-545 | for every family, request, reply, packet sizes, session, mark and check mode: request and reply arrive if and only if the first packet of each fits; both ends are then idle with DONE(OK) told, and otherwise the panel is idle with DONE(ABORTED) told |
| PivNotices.NoticesInOrder | src/osdp_piv.c:141-185 | over any calls and any frames the panel's application is told START PROGRESS* DONE for each operation, one START and one DONE even if it dies before its first fragment |
| Piv.SubmitsExactly | src/osdp_piv.c:189-231 | an operation starts if and only if none is under way and its challenge has from 1 to 256 bytes, and is armed with what was submitted |
| Piv.RefusesFragment | src/osdp_piv.c:417-478 | a fragment that does not fit in ends its operation with a NAK, an early end with an ACK; one with nowhere to go, or that announces nothing or too much, changes nothing |
| Piv.RefusesReply | src/osdp_piv.c:480-545 | a device sends no reply it was not asked for, none of the wrong length and nothing after the last fragment |
| Piv.ReplyEnds | src/osdp_piv.c:493-545 | a device's operation ends exactly with its reply's last fragment, told as OK, or, when one cannot be built, as aborted |
| Bio.FirstCrosses | src/osdp_bio.c:141-311 | the first packet either is the whole template or starts both ends in step, its header swapped out and back |
| Bio.ContinuationCrosses | src/osdp_bio.c:188-337 | each continuation fragment moves both ends on in step, or hands over the template with both ends idle and DONE(OK) told |
| Bio.NoticesInOrder | src/osdp_bio.c:103-337 | on either role, over any calls and frames: START PROGRESS* DONE for each operation, superseded and aborted ones included |
| Bio.BadFirstReply | src/osdp_bio.c:270-312 | a first reply that announces or brings too much starts nothing and hands over nothing |
| Bio.BadFragmentAborts | src/osdp_bio.c:313-337 | a fragment that does not fit in, or ends the reply early, aborts the operation and hands over nothing |
| Bio.NothingToSend | src/osdp_bio.c:141-187 | a template too long is not sent, and nothing is when nothing is under way |
| BioTheorems.TemplateArrives | src/osdp_bio.c:141-337 | a template arrives as submitted if and only if its first packet fits; in several packets both ends end idle with DONE(OK) told, and otherwise nothing happens at the panel |
| File.NoticesInOrder | src/osdp_file.c:83-106 | over any submissions, ticks, builds, status reports and aborts: START PROGRESS* DONE for each transfer, and every file opened is closed once |
| File.OutcomeTold | src/osdp_file.c:223-288 | a device's verdict ends the transfer with that very outcome exactly if it is a refusal or the file is out to its last byte, and a rebooting device is taken offline |
| File.OutcomeCrosses | src/osdp_file.c:108-140 | every outcome survives its status code |
| File.StatusCrosses | src/osdp_file.c:108-140 | a status code survives its outcome if and only if it is one of the five a transfer can end with |
| FileRun.PacketsCarryFile | src/osdp_file.c:144-221 | over any ticks, builds, losses, refusals, reports and aborts: every packet of a transfer opens with the file's id and carries a fragment of the file |
| FileRun.ArrivesWhole | src/osdp_file.c:144-288 | the device always holds a prefix of the file; as long as reports come only once it has taken the packet they answer it is abreast of the panel, and it holds the whole file when the application is told OK or REBOOTING |
| FileRun.TakenArrivesWhole | src/osdp_file.c:144-288 | when every packet is taken by the device, OK or REBOOTING is told only of a file it holds whole, whatever is read, reported, cancelled or aborted |
| FileRun.RereadMustAgree | src/osdp_file.c:144-221 | a packet rebuilt because its answer was lost leaves the two ends at the same place if and only if it is the same packet |
| FileProgress.FileArrives | src/osdp_file.c:144-288 | with data for every read and a device that takes every packet, at most as many packets as bytes bring the whole file, and the device's verdict is told |
| FileProgress.AsksAsTold | src/osdp_file.c:537-569 | what the panel asks for next is what the last report's control bits asked it to |
| FileProgress.StartsExactly | src/osdp_file.c:571-625 | a transfer starts if and only if no engine is at work and the file opens with something in it; a refusal leaves nothing open |
| FileProgress.CancelEnds | src/osdp_file.c:537-569 | a cancelled transfer is aborted at the next tick, its file closed, and the device told |
| FileProgress.BuildsExactly | src/osdp_file.c:144-221 | a packet is built if and only if there is room for a byte past the session's reserve, or for the header to keep the device company, and the source does not fail; else the transfer is aborted |
| FileProgress.LastReport | src/osdp_file.c:264-288 | once the last fragment is in, KEEP_ALIVE leaves the transfer open and any other status ends it with its outcome |
| FileProgress.GivesUpOnSilence | src/osdp_file.c:200-216 | a source that never has anything is given eleven empty frames, then the transfer is aborted |
| FileProgress.EndsClean | src/osdp_file.c:83-106 | however a transfer ends its file is closed, its end is told and nothing of it is left for the next |

## Left out

- LinkTheorems.ExactlyOnce: runs in which the panel gives a command up without restarting the link and goes on are not part of it; `LinkAbandon` and `LinkChains` take them up, one command given up at a time. Claims are per life of the link: a restart drops the history, because the code drops the sequence numbers. Broadcasts, KEYSET, handshake commands, session timeouts, BUSY replies and corrupted frames are not part of the runs; a NAK(MSG_CHK), which asks for a retry after the reply's MAC has already been counted, is not either, because the library's own device never sends one. Commands on sequence number 0 are not claimed to run once: the code restarts the link on every one of them.
- LinkTheorems.PanelNeverFaults: stated for an established link that is not restarted; a restart throws the session away by design.
- Link.PdEnd: a device answers a broadcast from its own address here; the source answers it from the broadcast address. What it runs is not affected (`Addressing.RunsWhatIsForIt`).
- Addressing.RunsWhatIsForIt: stated for a link without a session; under one the MAC decides as well (`LinkChains.Verdict`).
- LinkAbandon.AbandonedCommand: stated of the command after the one given up, on a link without a session; what a device does that has run the command and not yet sent its reply is part of it, a second command given up in a row is not.
- Link.ProcessReply: replies of unknown id under the ignore-unsolicited flag and the checksum fallback after NAK are not modelled, and the request to restart the session on an SC_COND reply is not either, because a decode failure returns before it could be set.
- Packet.Build: packet building and decoding are modelled on byte sequences, not on the shared buffer, so overlap of reading and writing inside one buffer is not captured; writes the source does before its space check are modelled as the error they lead to.
- Exchange.Terminates: a channel that is never ready and a clock that stands still keep an exchange open, as in the source.
- CpState.ChannelDiscipline: card sessions and a panel in install mode are not part of it; key values are not modelled, only which kind of key a session is on.
- Completion.AfterSubmitEngine: engine commands are submitted from outside callbacks only; inside the MP_DONE notification the slot is not cleared yet, and while a file is being opened its transfer is not armed yet.
- Completion.Desk: teardown called from inside a refresh is outside the model. The active slot, here and in `PdEvents`, is cleared with the completion of its command, not just after; no callback can tell.
- PdEvents.AfterUpdate: which commands an event answers is an input; the device's engines, whose later fragments carry no event, are not part of it.
- TrsBand.QueueIsLegal: disabling the device or resetting the link in the middle of a session is not part of the runs (the code does not maintain bands across those), nor are callbacks that flush; callbacks that submit are, where `TrsBand.FlushKeepsWord` speaks of them. The session machine is modelled on values: which field is written first inside one pass is not captured.
- TrsBand.ModeTakenBack: a mode report volunteered outside a session is not modelled; the mode is reset when a session opens.
- FramerStream.ChunkingDoesNotMatter: the ring must not overflow on the way, and packets of the other direction, which the framer only half skips, are not part of a clean stream.
- Bus.Controller.Refresh: what the state machine does between commands is reduced to issuing a command or restarting the link.
- PivTheorems.ChallengeAndResponse: the link below loses nothing here; losses and retries are what `LinkTheorems` is about. Operations are modelled on values, one at a time.
- PivNotices.NoticesInOrder: stated for the panel; on the device the reply leg announces a second START.
- BioTheorems.TemplateArrives: replies under the multi-part option only, modelled on values. When its reply cannot be built the device's own operation stays open until it is superseded or the link is given up.
- File.NoticesInOrder: the panel's side, modelled on values; callbacks that start a transfer from inside a transfer's end are refused by a latch and not modelled. The device's side of osdp_file.c is not modelled.
- FileRun.ArrivesWhole: that the file is whole is claimed as long as each report answers the last packet built or one just like it; `FileRun.RereadMustAgree` says what happens otherwise. The link between the two ends is reduced to packets that arrive or do not, once each.
- CpRecovery.Recovers: passes that find the command answered, one after another; what it takes to get answers is the link's matter (`Exchange`, `Waiting`).
- TrsSession.SessionRuns: the same conditions hold in every pass of the session, and nothing is submitted or flushed during it; `TrsBand` covers what happens otherwise.
- Multipart.TxBuild: an application's read callback is taken to return no more than it was asked for.
- Card-session replies (osdp_trs_reply_decode, osdp_trs_reply_build) and the presence scan's timers: the timers are inputs of the session machine.
- Application callbacks, channel bodies, logging, capture, metrics, allocation, static pools, zero-copy reception, growth of the device array, language bindings and tooling.
- LED, buzzer, text, output, time and status commands: field-by-field encodings without further structure.
