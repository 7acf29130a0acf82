# Verification of the Millennium terminal link

The Millennium manager answers calls from Nortel Millennium payphones over a serial line or modem. This project models
its terminal link and proves what the link, the session above it and the tools beside it promise:

* **CRC and framing** (`crc.dfy`, `packets.dfy`, `framing.dfy`, `frames.dfy`; `basics.dfy` holds
  two small definitions). The CRC-16 and its algebra; the receive state machine, the byte-at-a-time parser of the
  transcript converter, and what both deliver for sent, noisy and damaged frames.
* **Capture and dissector** (`capture.dfy`, `wireshark.dfy`, `reassembly.dfy`, `resends.dfy`). The capture writer with
  its direction bit, the transcript converter, the dissector's own CRC over 32-bit words, and its reassembly of tables,
  with and without retransmissions.
* **Transfer** (`phone.dfy`, `link.dfy`, `proto.dfy`, `runs.dfy`, `transfer.dfy`, `reception.dfy`, `acks.dfy`). The
  stop-and-wait transfer. `link.dfy` gives each operation as a function on the state of the link; `proto.dfy` is the
  context updated in place, every method proved equal to its function; the other files prove what the functions do,
  over every run and every line.
* **Session** (`session.dfy`, `answers.dfy`, `tableloop.dfy`, `turns.dfy`, `center.dfy`). The messages of a packet and
  the answer due to each, the queue of deferred call record acknowledgements, table downloads, whole connections and any
  number of calls.
* **Codecs** (`lcd.dfy`, `areacodes.dfy`, `bcd.dfy`, `luhn.dfy`). Local call determination tables in three densities,
  the area code table, packed phone numbers and the Luhn check.

What the outside world does is input: serial reads (a byte, nothing, or an error) and carrier polls come from arbitrary
finite scripts, the wall clock and data base values from an `Env`, table images from a list. When the reads run out the
process exits, as `read_serial` does at the end of its byte stream (src/mm_serial.c:78-83); an exhausted carrier script
means that the carrier is gone. What happened on the link is a ghost log of events. The host is little-endian, 8-bit
fields are `bv8`, and every length that could leave eight bits is shown not to, or wraps as in the program.

## Where the code differs from what one would expect

The model follows the code. In these places that matters, and a member states what holds instead:

* The send sequence also advances when the manager gives up on a packet (src/mm_proto.c:491-497), although README.md:1227
  speaks of successful transmissions only. `Transfer.SendDataWrites`, `Runs.EveryRun`; `Acks.GivenUp` and
  `Acks.NackedFiveTimes` give the lines on which it does.
* The answer to a negative acknowledgement is any intact packet. A retransmitted data packet is therefore swallowed, and
  the damaged packet before it is returned as a success and processed. `Acks.DamagedPacketReturned` says for which
  answers; `Acks.ReturnedGenuine` and `TableLoop.ProcessedGenuine` say exactly when a returned packet is genuine.
* A table acknowledgement is read from bytes 5 and 6 of the payload after a check for five bytes only, so that check
  bytes can stand in for data. `Acks.NamesByData` says exactly when; `Acks.BareIdAcknowledges` is an instance.
* The wait for a table acknowledgement has a counter of retries that it never counts down (src/mm_proto.c:143-147), so
  that it has no bound. `Acks.NoBound`.
* The status of a reception is narrowed to eight bits, which drops the carrier and line failure bits: a packet cut short
  by a broken line is processed. `TableLoop.ProcessedExactly`, `TableLoop.PartialPacketProcessed`.
* Of the packets it acknowledges the manager processes exactly those without the retry flag.
  `TableLoop.RetriedNotProcessed`.
* The 82nd call record of a transfer is stored but never acknowledged. `Session.CrowdedRecordForgotten`,
  `Session.TransferCrowds`.
* The end of data empties the queue of deferred acknowledgements before they are sent, and the status of sending them is
  ignored (src/mm_manager.c:1141-1168): on a dead link they are lost. `TableLoop.FlushLost` is an instance;
  `TableLoop.CallsConserve` says exactly when every acknowledgement was confirmed or still waits.
* A packet can ask for more reply than the reply buffer holds, or end in a message that is read beyond the payload
  buffer. `Session.PacketFits` says exactly when; `Session.TimeRequestsOverrun` and `Session.AlarmBeyondBuffer` are
  instances.
* The dissector takes the table after one of full packets only for its continuation, and shows the bytes of the previous
  table for a table it has no name for; the ids 0xa0 and 0xa1 that src/mm_manager.h:194-195 gives to the last two double
  compressed tables are such tables, while mm_lcd.py writes those tables under 154 and 155.
  `Reassembly.TablesRebuilt`, `Reassembly.RebuiltExactly`, `Reassembly.UnnamedTable`.
* A retransmission can spoil the table that the dissector shows: a full piece is appended again, a short last one can
  start a table anew. `Reassembly.ResentPiece` says what one does, `Resends.ResendsRebuilt` exactly which transfers
  survive theirs.
* Eight area codes fit the compressed tables, although the message says seven. `Lcd.GenerateLcdTables`.
* The generated Luhn digit is right for every card number only at odd positions of numbers of even length.
  `Luhn.GeneratedPasses`.

## Model

| member | source | states |
|---|---|---|
| `Crc.ComputeCrc16` | src/mm_util.c:24-37 | the byte loop with its eight conditional shifts computes the CRC that all algebra below is about, for any seed |
| `Crc.Chaining` | src/mm_util.c:24-37 | the CRC of a concatenation is the CRC of the second part seeded with that of the first |
| `Crc.Linearity` | src/mm_util.c:24-37 | XOR of seeds and of equally long messages gives the XOR of the CRCs |
| `Crc.TwoBytes` | src/mm_util.c:24-37 | two bytes fed into a register leave sixteen shifts of the register XOR the word they form |
| `Crc.CrcBitByBit` | src/mm_util.c:24-37 | the byte-wise CRC is the bit-serial CRC over the bits of the message, least significant first |
| `Crc.Parity` | src/mm_util.c:24-37 | the CRC has odd weight exactly if seed and message together have |
| `Crc.Residue` | src/mm_util.c:24-37 | two check bytes appended leave residue zero exactly if they are the CRC, low byte first |
| `Crc.PassesIsZeroResidue` | src/mm_proto.c:313-325 | the receiver's comparison of received and computed CRC is a test for residue zero |
| `Crc.BurstLeavesResidue` | src/mm_util.c:24-37 | a non-empty pattern within sixteen consecutive bits has a non-zero CRC |
| `Crc.UndetectedErrors` | src/mm_proto.c:313-325 | a damaged protected message passes exactly if the damage itself has residue zero |
| `Crc.ErrorsDetected` | src/mm_proto.c:313-325 | no burst of up to sixteen bits and no odd number of flips passes |
| `Packets.LengthByteExact` | src/mm_proto.c:440 | for payloads up to 250 bytes the length byte is payload plus five, without wrap |
| `Packets.PacketBuffer.Clear` | src/mm_proto.c:220-221 | memset of the packet structure |
| `Packets.PacketBuffer.CopyTrailer` | src/mm_proto.c:340-341 | check bytes and stop byte land right behind the data, within the 253-byte payload, and nothing else moves |
| `Framing.Accept` | src/mm_proto.c:280-337 | every byte keeps the stored length within what the length byte announces, so that no byte and no trailer leaves the buffer |
| `Framing.ParserStep` | src/mm_dlog2pcap.c:153-216 | one byte keeps parser and receiver in step although one computes the CRC in one call and copies the trailer every time |
| `Framing.ParserRefinesReceiver` | src/mm_dlog2pcap.c:90-131 | on every byte stream parser and receiver deliver the same packets with the same checksum and framing status |
| `Frames.OneFrame` | src/mm_proto.c:280-341 | header, announced data, check bytes and one more byte are consumed exactly, and what is delivered for them, good or bad |
| `Frames.SentFrame` | src/mm_proto.c:440-475 | a frame as the manager writes it is consumed exactly, whatever its payload contains |
| `Frames.FramingRoundTrip` | src/mm_proto.c:213-371 | any list of frames separated by noise without start bytes is received as exactly those packets, in order and without error |
| `Frames.DamagedFrame` | src/mm_proto.c:292-341 | flips in flags, payload or CRC leave the frame whole; it carries the CRC error exactly if the flips have a non-zero CRC |
| `Frames.DamageReported` | src/mm_proto.c:292-341 | bursts within sixteen bits and odd numbers of flips always end as a whole packet with the CRC error |
| `Capture.AddRecord` | src/mm_pcap.c:60-82 | the record holds length byte plus one bytes with the direction marked; afterwards the start byte has lost its top bit and nothing else changed |
| `Capture.StartRestored` | src/mm_pcap.c:71-80 | the start byte survives a capture exactly if its direction bit was clear |
| `Capture.RecordOfFrame` | src/mm_pcap.c:71-80 | the record of a packet is its frame on the line with the direction bit set for transmissions |
| `Capture.LineOfFrame` | src/mm_proto.c:440-475 | the packet structure read from its start byte is the frame |
| `Transcript.Parser.Reset` | src/mm_dlog2pcap.c:218-224 | a reset parser is a fresh one |
| `Transcript.Parser.Switch` | src/mm_dlog2pcap.c:156-211 | the seven-state switch in place is one step of the parser function |
| `Transcript.Parser.ParseByte` | src/mm_dlog2pcap.c:153-216 | switch and trailer copy in place; complete exactly when the packet is |
| `Transcript.Convert` | src/mm_dlog2pcap.c:87-131 | however the two directions interleave, each direction's records are the captures of the packets the receiver would deliver from that direction's bytes, and the records of both come in the order in which their packets were complete |
| `Phone.PhoneNumToString` | src/mm_util.c:76-102 | the buffer ends as the text up to the end marker or the room, a NUL, and the old characters |
| `Phone.CharacterTable` | src/mm_util.c:83-98 | the characters that the sixteen nibbles are shown as |
| `Phone.IdCharacters` | src/mm_util.c:76-102 | the text of an id without end marker, upper half of every byte first |
| `Phone.IdEcho` | src/mm_proto.c:422-425 | decoding an id and encoding the text gives the same five bytes exactly if no nibble is 0xe |
| `Proto.Checksum` | src/mm_proto.c:313-325 | the chained calls over header and data compute the checksum that the framing function compares |
| `Proto.Switch` | src/mm_proto.c:280-337 | the receive switch on the packet buffer is one step of the framing function |
| `Proto.BuildFrame` | src/mm_proto.c:410-475 | the written bytes are the frame of flags and payload, its capture carries the direction bit, and the line sees the start byte restored |
| `Proto.Context.constructor` | src/mm_manager.c:334 | a new context is an idle link |
| `Proto.Context.Connect` | src/mm_proto.c:47-52 | the connection is up with send sequence zero |
| `Proto.Context.Disconnect` | src/mm_proto.c:54-60 | the connection is down with send sequence zero |
| `Proto.Context.CheckCarrier` | src/mm_proto.c:223-229 | a monitored carrier is polled; losing it disconnects |
| `Proto.Context.Finish` | src/mm_proto.c:340-371 | retry and disconnect flags join the status, and a disconnect hangs up |
| `Link.ReceiveLoop` | src/mm_proto.c:236-338 | on every finite script of reads the loop ends, having used up reads, with at most 250 payload bytes |
| `Proto.Context.CountSilence` | src/mm_proto.c:249-270 | an empty read stops reception exactly if connection or carrier is gone or it is the eleventh in a row |
| `Proto.Context.TakeByte` | src/mm_proto.c:278-362 | one byte moves the packet buffer as the framing function says, and completes reception when it says so |
| `Proto.Context.ReceiveBytes` | src/mm_proto.c:236-371 | the loop over reads in place does what the link function says |
| `Proto.Context.ReceivePacket` | src/mm_proto.c:213-371 | the receive loop in place does what the link function says, for every script of reads |
| `Proto.Context.AwaitAck` | src/mm_proto.c:508-534 | an intact packet is success unless it is empty and lacks the ACK flag |
| `Proto.Context.EncodeTerminalId` | src/mm_proto.c:422-425 | the loop packs the ten id characters into the five bytes of every outgoing payload |
| `Proto.Context.SendAck` | src/mm_proto.c:504-506 | one frame without payload under the receive sequence, which then advances; nothing when disconnected |
| `Proto.Context.Transmit` | src/mm_proto.c:410-476 | one transmission of id and data under the current send sequence |
| `Proto.Context.SendData` | src/mm_proto.c:382-502 | the retry loop in place does what the link function says |
| `Proto.Context.SendTable` | src/mm_proto.c:106-137 | the segmentation loop in place does what the link function says |
| `Proto.Context.NoteId` | src/mm_proto.c:94 | the terminal id becomes the decoded first five payload bytes |
| `Proto.Context.ReceiveTable` | src/mm_proto.c:66-104 | receiving with acknowledgement in place does what the link function says |
| `Proto.Context.AwaitTableAck` | src/mm_proto.c:139-202 | the loop without a bound on retries in place does what the link function says |
| `Runs.SendDataKeeps` | src/mm_proto.c:382-502 | a send keeps the invariant of history, sequence number and terminal id |
| `Runs.SendTableKeeps` | src/mm_proto.c:106-137 | so does a table transfer |
| `Runs.ReceiveTableKeeps` | src/mm_proto.c:66-104 | so does receiving with acknowledgement, even when packets are damaged |
| `Runs.WaitForTableAckKeeps` | src/mm_proto.c:139-202 | so does waiting for a table acknowledgement |
| `Runs.AckSends` | src/mm_proto.c:434-439 | an acknowledgement, negative acknowledgement or retry request is one frame with exactly its own flag and the two bits of the receive sequence, which then moves on; nothing is sent when disconnected |
| `Runs.RunKeeps` | src/mm_proto.c:47-534 | and any sequence of operations on any line |
| `Runs.EveryRun` | src/mm_proto.c:387-501 | over every run: the k-th send of a connection carries k mod 4 in all its frames, these are byte-identical and at most five, hold exactly id and chunk, and start with the id last heard exactly if that has no nibble 0xe; a frame without payload carries a sequence number and the ACK flag or the retry flag or neither |
| `Transfer.SendDataWrites` | src/mm_proto.c:382-502 | one send writes its packet one to five times, nothing when disconnected; it gives up on a live connection only after five times, reports that with the failure bit, and advances the sequence once even then |
| `Transfer.SendTableWrites` | src/mm_proto.c:106-137 | a transfer writes the pieces in order, each one to five times under rising sequence numbers; all but the last are confirmed, and success means exactly that nothing is left and the last is confirmed |
| `Transfer.PiecesJoinUp` | src/mm_proto.c:117-134 | the pieces of a transcript join up to a prefix of the table |
| `Transfer.TableSegmented` | src/mm_proto.c:106-137 | every transfer announces a prefix of the table in pieces of 245 bytes, confirmed up to the last one at least; it reports success exactly if the whole table is announced and confirmed |
| `ReceptionOverLink.ReceiveYields` | src/mm_proto.c:213-371 | on a steady line the blocking receiver returns what framing delivers, plus the flags' status, and leaves the rest unread |
| `ReceptionOverLink.DeliveriesMatchParser` | src/mm_dlog2pcap.c:90-131 | repeated reception while connected returns packet for packet what the transcript parser finds in the same bytes, on lines without long silences, read errors and loss of the carrier |
| `ReceptionOverLink.EveryReception` | src/mm_proto.c:213-371 | on every line, whatever fails: a reception returns exactly the packet that the transcript parser finds in the reads it consumed, or fails if there is none in them |
| `Acks.AcceptedIsGenuine` | src/mm_proto.c:292-341 | an accepted packet starts and stops properly, its check bytes are the CRC of its header and payload, and it has the length its length byte announces |
| `Acks.GenuinePasses` | src/mm_proto.c:313-341 | header, payload and the two bytes behind it of such a packet pass the receiver's comparison, so that all results on the CRC apply to it |
| `Acks.ReceptionJudged` | src/mm_proto.c:213-371 | on every line the status of a reception is what the flags say if the packet is genuine, and otherwise an error that no flags give, except on a link that was down |
| `Acks.AcceptedExactly` | src/mm_proto.c:292-362 | on every line a reception accepts exactly the genuine packets without the disconnect flag; its status tells the retry flag, with the disconnect error and a hung up link if the disconnect flag is set |
| `Acks.NothingReceived` | src/mm_proto.c:223-234 | with the carrier gone or without a connection nothing is read; the carrier is polled once if it is monitored, and its loss hangs up |
| `Acks.AcceptedIsAcknowledged` | src/mm_proto.c:66-104 | exactly the accepted packets with an id are acknowledged, with one frame that carries their sequence; others get one negative acknowledgement, and the answer to that is the outcome, or nothing; the receive sequence follows every accepted packet |
| `Acks.ReturnedGenuine` | src/mm_proto.c:70-83 | a table reported as a success is genuine exactly if the first reception was accepted |
| `Acks.PositiveAnswer` | src/mm_proto.c:508-534 | on every line an answer is positive exactly if it is genuine, lacks the retry flag, and has data or the ACK flag; with neither it is negative, and everything else is reported as received |
| `Acks.AnsweredBy` | src/mm_proto.c:508-534 | which frames on a steady line, data packets included, are taken for a positive answer, and that the frame is then consumed |
| `Acks.GivenUp` | src/mm_proto.c:478-501 | a packet refused five times was written five times under one number, the connection stays up and the next packet takes the next number |
| `Acks.NackedFiveTimes` | src/mm_proto.c:478-501 | five empty frames without flags are such refusals |
| `Acks.DamagedPacketReturned` | src/mm_proto.c:72-83 | a damaged packet followed by any intact one is reported as success exactly if the intact one lacks the retry flag and has data or the ACK flag, and the damaged one does not hang up; the intact one is then lost |
| `Acks.NamesByData` | src/mm_proto.c:154-162 | which bytes name the acknowledged table: data from seven bytes on, otherwise check bytes |
| `Acks.LastRoundLater` | src/mm_proto.c:147-200 | the last round of the wait starts on a later part of the same line, after nothing but acknowledgements, and decides the wait for every table |
| `Acks.RoundShows` | src/mm_proto.c:147-200 | what every earlier round writes, notes and hands on to the next |
| `Acks.AckedByNamingPacket` | src/mm_proto.c:139-202 | the wait succeeds exactly if the packet received in its last round is genuine, accepted and names the table; the final state is that packet heard and acknowledged |
| `Acks.BareIdAcknowledges` | src/mm_proto.c:154-162 | a packet with nothing but an id that acknowledges table 0x71 by its checksum |
| `Acks.BareIdFrame` | src/mm_proto.c:410-475 | all eleven bytes of that packet on the line |
| `Acks.TimeoutMeansSilence` | src/mm_proto.c:249-270 | reception times out only after eleven empty reads in a row |
| `Acks.ElevenSilencesTimeOut` | src/mm_proto.c:249-270 | and it does so then, wherever in a packet it is, having polled the carrier once for each of them |
| `Acks.NoBound` | src/mm_proto.c:143-200 | for every n, 22 n empty reads with the carrier up take the wait for a table acknowledgement round n times, with a retry request and an acknowledgement written each time, each with its own flag and sequence, and leave it where it was |
| `LuaChecksum.ComputeLuaCrc` | wireshark/millennium.lua:382-400 | the two nested loops on 32-bit words compute the function compared below |
| `LuaChecksum.LuaCrcIsCrc16` | wireshark/millennium.lua:382-400 | on every byte string it is the manager's CRC-16 with the direction bit of the first byte taken off |
| `Wireshark.Dissector.Recognise` | wireshark/millennium.lua:341-370 | continuation, acknowledgement or new table by length and id of the manager's last message; a missing name ends it |
| `Wireshark.Dissector.AddFragment` | wireshark/millennium.lua:366-373 | an intact fragment of the manager joins the table, a damaged one does not |
| `Wireshark.Dissector.Dissect` | wireshark/millennium.lua:225-375 | one frame in place moves the reassembly state as its function says |
| `Reassembly.Parts` | wireshark/millennium.lua:256-319 | of every captured undamaged frame the dissector reads direction, payload and a matching CRC |
| `Reassembly.AllPieces` | wireshark/millennium.lua:266-274 | the pieces of a table, with empty frames in between, leave that table behind, joined to what a full message left |
| `Reassembly.ResentPiece` | wireshark/millennium.lua:266-274 | a piece sent again, from any state: appended twice if full, and if short by its first byte a new table, nothing, or an acknowledgement; the exact condition under which the bytes stay as they were |
| `Reassembly.TerminalMessage` | wireshark/millennium.lua:341-361 | a message of the terminal with a name, other than a table acknowledgement, empties the table being assembled |
| `Reassembly.DamagedMessage` | wireshark/millennium.lua:266-274 | a damaged frame of the manager adds nothing, but its length and name decide about the frames that follow |
| `Reassembly.ExchangeSeen` | wireshark/millennium.lua:341-372 | a table and its acknowledgement: what is kept and under which id, from any state |
| `Reassembly.RebuiltExactly` | wireshark/millennium.lua:341-372 | a new table is rebuilt exactly if the message before and its own last packet are not full |
| `Reassembly.OnlyTheirOwn` | wireshark/millennium.lua:345-347 | kept tables never change, and only ids of tables sent are added |
| `Reassembly.TablesRebuilt` | wireshark/millennium.lua:266-274 | any number of named tables with distinct ids: all are rebuilt exactly if no length is a multiple of 245 |
| `Reassembly.UnnamedTable` | wireshark/millennium.lua:357-359 | a table whose id has no name is kept as a copy of the table before it, or not at all if it ends with a full packet |
| `Reassembly.TablesWithoutName` | src/mm_manager.h:84-198 | of all the ids the manager knows exactly two have no name |
| `Reassembly.TransferCarries` | src/mm_proto.c:106-137 | a successful transfer writes at least one frame for each piece; with exactly that many, they carry the table |
| `Reassembly.CapturedCarries` | src/mm_proto.c:106-137 | whatever frames without payload a capture shows in between, the captured frames of a transfer carry its table |
| `Reassembly.TransfersRebuilt` | wireshark/millennium.lua:266-274 | of any number of captured transfers by the manager, each at the first attempt and acknowledged, all tables are rebuilt exactly if no length is a multiple of 245 |
| `Resends.TranscriptRepeats` | src/mm_proto.c:106-137 | the frames of a transcript are its pieces, each as often as it was tried |
| `Resends.FullPieces` | wireshark/millennium.lua:266-274 | full pieces leave exactly their bytes if each was sent once, and more bytes than that otherwise |
| `Resends.KeptExactly` | wireshark/millennium.lua:341-373 | whatever the retransmissions, a table is kept as it was sent exactly if nothing was carried over, its full pieces were sent once, and its last piece is short and was sent once or moves nothing; a single short piece sent again replaces what was there |
| `Resends.ResendsRebuilt` | wireshark/millennium.lua:341-373 | so it is for every successful, captured and acknowledged transfer by the manager, from any state of the link |
| `Session.Served` | src/mm_manager.c:680-1165 | one message keeps the session invariant, and acknowledgements in its reply plus queue grow by exactly its own call record, unless 81 wait |
| `Session.FlushFits` | src/mm_manager.c:1137-1152 | the end of data and all deferred acknowledgements fit one packet, and the queue is empty afterwards |
| `Answers.Answered` | src/mm_manager.c:680-1165 | read message by message, the reply to every message is exactly what is due to its kind, with alarm, maintenance type, clock, rates, authorisation code and call numbers at their places; and the session moves on accordingly |
| `Answers.AllAnswered` | src/mm_manager.c:673-1166 | over any messages the reply says exactly what is due to them, in their order |
| `Answers.ConversationAnswers` | src/mm_manager.c:604-618 | so it is over any run of packets that fit, reply by reply |
| `Answers.StructureSizes` | src/mm_packtest.c:77-135 | the message loop advances by the sizes of the structures, field by field, and by one byte over anything else |
| `Session.Accounted` | src/mm_manager.c:680-1165 | over any messages every call record is answered in order, queued, or counted as lost |
| `Session.WithinQueueExact` | src/mm_manager.c:642-652 | nothing is lost exactly if no record arrives while 81 acknowledgements wait; queue and reply length follow from the messages alone |
| `Session.AcksConserved` | src/mm_manager.c:778-804 | acknowledgements in replies followed by those queued are those of all call records in order, exactly under that condition |
| `Session.LoopServes` | src/mm_manager.c:673-1166 | the message loop stays within its buffers exactly if every message ends within the payload buffer and the replies together take at most 245 bytes; then it serves the messages its advances cut the payload into, in one reply |
| `Session.PacketFits` | src/mm_manager.c:673-1166 | whether a packet stays within the buffers, told from its messages and the number of waiting acknowledgements |
| `Session.TimeRequestsOverrun` | src/mm_manager.c:685-716 | a packet of time requests writes beyond the reply buffer exactly from 28 of them on, in every session |
| `Session.AlarmBeyondBuffer` | src/mm_manager.c:752-762 | an alarm in the last byte of a full payload is read beyond the payload buffer, in every session |
| `Session.ConversationServes` | src/mm_manager.c:604-618 | packets served one after the other stay within the buffers exactly if each fits, and are then their messages served in order |
| `Session.ConversationConserves` | src/mm_manager.c:778-804 | over any run of packets that fit, the acknowledgements in the replies, each read for itself, followed by those queued are those of all call records, exactly as long as at most 81 wait; any that are missing were lost |
| `Session.CrowdedRecordForgotten` | src/mm_manager.c:642-652 | a call record that finds 81 waiting leaves no trace in reply or queue |
| `Session.TransferCrowds` | src/mm_manager.c:778-804 | from a new session a call-in and more than 81 call records leave 81 acknowledgements waiting and lose the others |
| `Session.Manager.constructor` | src/mm_manager.c:601 | a new session is idle with an empty queue |
| `Session.Manager.AppendToCdrAckBuffer` | src/mm_manager.c:642-652 | the bytes are appended if they fit 245, otherwise dropped with the queue unchanged |
| `Session.Manager.Handle` | src/mm_manager.c:680-1165 | reply and new state of every kind of message, in place |
| `Session.Manager.ProcessMessages` | src/mm_manager.c:670-1168 | the message loop in place does what the session function says |
| `TableLoop.ProcessRuns` | src/mm_manager.c:654-1176 | processing a table is a run of link operations |
| `TableLoop.DownloadRuns` | src/mm_manager.c:1178-1362 | so is a download |
| `TableLoop.ConnectionRuns` | src/mm_manager.c:606-618 | so is a connection |
| `TableLoop.CallsRun` | src/mm_manager.c:604-627 | so is any number of calls |
| `TableLoop.EveryCall` | src/mm_manager.c:604-627 | over any number of calls every event of the link is as its history demands |
| `TableLoop.RunGrows` | src/mm_manager.c:604-627 | no operation takes back what was written |
| `Turns.Waited` | src/mm_proto.c:139-202 | what a wait for a table acknowledgement leaves in the history behind its last round, and when the process is still there |
| `Turns.TableDownloaded` | src/mm_manager.c:1338-1345 | a confirmed table other than the end of data is waited for under its own id; behind the end of data nothing is heard or acknowledged |
| `Turns.DownloadInTurn` | src/mm_manager.c:1222-1351 | a download takes the tables in their order, each on a live link, and ends with the last one, on a dead link, or with the process |
| `Turns.TableCalled` | src/mm_manager.c:1222-1351 | the first thing of every table is the announcement of its first piece |
| `Turns.TurnDownloads` | src/mm_manager.c:654-1176 | a packet that fits is answered, and then the tables are downloaded exactly if one of its messages asks for it |
| `Turns.FirstBehindReply` | src/mm_manager.c:1171-1173 | if it does and the link is up, the next thing announced is the first piece of the first table that is not empty |
| `Turns.TurnRefused` | src/mm_manager.c:664-668 | without a packet to process the turn ends after reception and the session stays as it was |
| `Turns.ConnectionTurns` | src/mm_manager.c:606-618 | the turns of a connection follow each other until the inputs, the link or the process end or three in a row were refused; then it hangs up |
| `Turns.CallsInTurn` | src/mm_manager.c:604-627 | over any calls, each is opened anew with the link and session that the one before it left, and none follows the end of the process |
| `TableLoop.ConnectionConverses` | src/mm_manager.c:606-618 | a connection leaves the session where the conversation of exactly the packets it processed leaves it; every reply of that conversation for which the link is still up is announced on the link, before the next packet is answered |
| `TableLoop.ConnectionConserves` | src/mm_manager.c:606-618 | over a connection whose packets fit: acknowledgements in replies, sent or not, and in the queue are those of all call records processed, exactly as long as at most 81 wait; those in confirmed replies and in the queue are, exactly if besides every reply with an acknowledgement was confirmed |
| `TableLoop.CallsConserve` | src/mm_manager.c:604-627 | and over any number of calls |
| `TableLoop.FlushLost` | src/mm_manager.c:1137-1168 | an end of data cut short by a broken line or a lost carrier empties the queue of deferred acknowledgements, and nothing is written |
| `TableLoop.QueueKept` | src/mm_manager.c:606-618 | a connection that comes to its end keeps the session invariant |
| `TableLoop.ProcessedExactly` | src/mm_manager.c:664-668 | a packet is processed exactly if its status is success, lost carrier or line failure |
| `TableLoop.ProcessedGenuine` | src/mm_manager.c:664-668 | a processed packet is genuine exactly if the first reception of the turn was accepted |
| `TableLoop.RetriedNotProcessed` | src/mm_manager.c:666-668 | an accepted packet with an id is acknowledged, and processed exactly if its retry flag is clear |
| `TableLoop.PartialPacketProcessed` | src/mm_manager.c:664-668 | what arrived of a packet before the line broke or the carrier was lost is processed without any check |
| `Center.Manager.constructor` | src/mm_manager.c:334 | link and session start idle |
| `Center.Manager.DownloadTable` | src/mm_manager.c:1338-1345 | one table is sent and, unless it is the end of data, waited for |
| `Center.Manager.DownloadTables` | src/mm_manager.c:1222-1351 | the download loop in place does what its function says, stopping when the connection is lost |
| `Center.Manager.ProcessTable` | src/mm_manager.c:654-1176 | reception, status, messages, reply and download in place, as the function says |
| `Center.Manager.HandleConnection` | src/mm_manager.c:606-618 | the loop with its three retries in place, as the function says |
| `Lcd.PackFlag` | mm_lcd.py:90-120 | one turn of the packing loop stores or collects a flag, or fails on a value above 255 |
| `Lcd.GenerateLcd` | mm_lcd.py:63-126 | the generator writes header, padding and packed flags of a table, or nothing on overflow |
| `Lcd.PackFits` | mm_lcd.py:98-120 | flags in range are stored without overflow in as many bytes as they need |
| `Lcd.PackUnpacks` | src/mm_lcd.c:168-202 | every flag in range is found again at its place by mask and shift |
| `Lcd.HeaderRead` | src/mm_lcd.c:126-150 | the area code is read back from the header, and accepted exactly from 200 on |
| `Lcd.HeaderDigits` | mm_lcd.py:67-77 | the digits of the area code and the end marker in the two header bytes |
| `Lcd.FlagPlaces` | mm_lcd.py:98-120 | the first flag of a byte is in its upper bits |
| `Lcd.ListedFlag` | mm_lcd.py:91-96 | an exchange that is not listed gets the flag 3 |
| `Lcd.PaddedWithZeros` | mm_lcd.py:83-86 | sixteen zeros behind the header of the plain form, nothing behind the others |
| `Lcd.DumpRejects` | src/mm_lcd.c:126-150 | the dump program rejects exactly wrong sizes, first bytes out of range and a missing end marker |
| `Lcd.LcdRoundTrip` | src/mm_lcd.c:99-202 | the dump of a generated table gives area code and all 800 flags (3 where nothing is listed), exactly if the flags fit the form |
| `Lcd.FormsAgree` | mm_lcd.py:98-120 | for flags 0 to 3 the three forms, of 818, 402 and 202 bytes, read the same |
| `Lcd.ReadFlag` | src/mm_lcd.c:168-202 | one turn of the dump loop with its carried byte gives the flag of this exchange |
| `Lcd.DumpLcd` | src/mm_lcd.c:99-202 | the dump program rejects by size, area code and end marker, or reads all flags |
| `Lcd.GenerateForm` | mm_lcd.py:135-151 | the table ids of a form in order with their gap, up to its number of tables |
| `Lcd.GenerateLcdTables` | mm_lcd.py:128-200 | which tables are written for which area codes; the status is zero exactly up to eight area codes |
| `Lcd.IdsApart` | mm_lcd.py:135-195 | no id is used twice, and each belongs to the form it is written in |
| `Lcd.TableIds` | mm_lcd.py:128-200 | the ids of each form, each once and in rising order |
| `AreaCodes.FlagForRow` | generate_npa.py:87-117 | the rules for an area code, later ones overriding earlier ones |
| `AreaCodes.FlagMeans` | generate_npa.py:85-117 | for each of the four flags, exactly which area codes get it |
| `AreaCodes.GenerateNpa` | generate_npa.py:85-126 | the packing loop writes the 400 bytes of all area codes |
| `AreaCodes.DumpAreaCodes` | src/mm_areacode.c:79-104 | the dump reads three bits of each half byte |
| `AreaCodes.AreaRoundTrip` | src/mm_areacode.c:95-96 | four-bit flags come back exactly if all are below eight |
| `AreaCodes.GeneratedReadBack` | generate_npa.py:87-126 | every generated table is read back as it was meant |
| `Bcd.StringToBcdA` | src/mm_util.c:105-127 | the buffer holds the packed digits of as many characters as twice its length in eight bits allows, and that count is returned |
| `Bcd.CallscrnNumToString` | src/mm_util.c:133-156 | the buffer ends as the characters of the digits as far as there is room, a NUL, and the old characters |
| `Bcd.LookupTable` | src/mm_util.c:130 | the lookup table of packed digits |
| `Bcd.StoredCharacter` | src/mm_util.c:105-156 | the j-th character shown for a stored number is its j-th digit, or a NUL behind the last |
| `Bcd.BcdRoundTrip` | src/mm_util.c:105-156 | a number of digits reads back as itself exactly if the buffer takes it, zeros and odd lengths included; buffers from 128 bytes on take only what is left in eight bits |
| `Luhn.SumUp` | src/mm_luhn.c:33-58 | the loop from the right sums the weighted digits and finds the first placeholder from the left |
| `Luhn.FourDigits` | src/mm_luhn.c:33-58 | the weights of the last four digits, from the right single and doubled in turn |
| `Luhn.SumApart` | src/mm_luhn.c:33-58 | digits in front of an even number of others leave the weights of these as they are |
| `Luhn.CheckCard` | src/mm_luhn.c:60-76 | a placeholder is filled in place, anything else is judged by the remainder |
| `Luhn.CheckMeansPass` | src/mm_luhn.c:69-75 | a number of digits is accepted exactly if its sum is a multiple of ten, and otherwise judged by what is left of it |
| `Luhn.SingleChangeDetected` | src/mm_luhn.c:33-58 | every single changed digit of a valid number is rejected |
| `Luhn.SwapDetected` | src/mm_luhn.c:33-58 | a swap of adjacent digits of a valid number passes exactly if they are equal or 0 and 9 |
| `Luhn.GeneratedPasses` | src/mm_luhn.c:60-66 | for which lengths, positions and missing digits the generated number passes |
| `Luhn.GeneratedUnique` | src/mm_luhn.c:60-66 | at odd positions of even-length numbers the generated digit is the only one that passes |

## Left out

- Session.Process: ends as `Overrun` where the program reads or writes outside its arrays, which `Session.PacketFits` shows to be exactly for packets that do not fit; what the program then does is not modelled.
- Wireshark.Dissector.Dissect: frames are as long as their length byte says, with no payload or with a terminal id; what the dissector's host does for other frames is not modelled, nor are later looks at the same frame.
- Reassembly.Parts: the same holds here.
- Proto.BuildFrame: the capture happens whether or not a capture file is open; record headers and timestamps are left out.
- Bcd.CallscrnNumToString: buffers of one byte, for which the program writes past the end, are excluded.
- Phone.PhoneNumToString: the same holds here.
- Luhn.GeneratedPasses: numbers with several placeholders are judged by the code (`Luhn.CheckCard`), but no property is stated for them.
- Error injection: taken to be off.
- Serial ports, modem commands, UDP copies of packets, delays before sending: platform I/O without influence on the bytes.
- Accounting, configuration and the data base: what is stored is not modelled; values read back are inputs.
- Rating test mode and the call-back requests that are compiled out.
- The choice of table lists by terminal type, and which tables are newer: a download takes the list of table images as given.
- `term_type_to_mtr`, `term_type_to_model` and the other lookup and printing functions: they are plain lookups and output.
- Big-endian hosts and the generated parameter tables.
- The terminal itself: its packets are whatever bytes the line delivers.
- The remaining dump and convert tools: fixed copies of structures.
