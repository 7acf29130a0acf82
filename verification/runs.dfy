/** What holds of the link's history over every run, whatever the line delivers. */
module Runs {
  import opened Basics
  import opened Crc
  import opened Packets
  import opened Framing
  import opened Phone
  import opened Link

  // ------------------------------------------------------------ reading a history

  function Front<T>(s: seq<T>): seq<T>
    requires s != []
  {
    s[..|s| - 1]
  }

  function Last<T>(s: seq<T>): T
    requires s != []
  {
    s[|s| - 1]
  }

  /** Data sends started since the connection was opened. */
  function Sends(log: seq<Event>): nat {
    if log == [] then 0 else
    match Last(log)
    case Opened => 0
    case Call(_) => Sends(Front(log)) + 1
    case _ => Sends(Front(log))
  }

  /** The data of the latest send. */
  function CurrentChunk(log: seq<Event>): seq<byte> {
    if log == [] then [] else
    match Last(log)
    case Call(chunk) => chunk
    case _ => CurrentChunk(Front(log))
  }

  /** The terminal id last heard, or nothing. */
  function LastId(log: seq<Event>): seq<byte> {
    if log == [] then [] else
    match Last(log)
    case Heard(id) => id
    case _ => LastId(Front(log))
  }

  /** How often the latest packet has just been written. */
  function Repeats(log: seq<Event>): nat {
    if log == [] || !Last(log).DataSent? then 0 else 1 + Repeats(Front(log))
  }

  /** The two sequence bits of the k-th send. */
  function SequenceOf(k: nat): byte {
    if k % 4 == 0 then 0 else if k % 4 == 1 then 1 else if k % 4 == 2 then 2 else 3
  }

  /** Flags of a frame without payload: a sequence number, and the ACK flag (8) or the retry flag (4) or neither. */
  predicate AckByte(flags: byte) { flags < 12 }

  /** What every event owes to the history before it. */
  predicate EventOk(past: seq<Event>, e: Event) {
    match e
    case Opened => true
    case Heard(id) => |id| == ID_LENGTH
    case Call(chunk) => |chunk| <= DATA_MAX
    case AckSent(wire) => |wire| == 6 && wire == Frame(wire[1], []) && AckByte(wire[1])
    case DataSent(wire) =>
      var chunk := CurrentChunk(past);
      && Sends(past) > 0
      && Repeats(past) < 5
      && (Repeats(past) > 0 ==> Last(past) == e)
      && |chunk| <= DATA_MAX
      && |wire| == |chunk| + ID_LENGTH + 6
      && wire == DataFrame(SequenceOf(Sends(past) - 1), wire[3..8], chunk)
      && (LastId(past) != [] ==> (wire[3..8] == LastId(past) <==> Clean(LastId(past))))
  }

  predicate LogOk(log: seq<Event>) {
    log == [] || (LogOk(Front(log)) && EventOk(Front(log), Last(log)))
  }

  // ------------------------------------------------------------ the invariant between operations

  predicate IdKept(l: State) {
    && Decodable(l.terminalId)
    && (LastId(l.log) != [] ==> (EncodeId(l.terminalId) == LastId(l.log) <==> Clean(LastId(l.log))))
  }

  predicate Inv(l: State) {
    && LogOk(l.log) && IdKept(l)
    && (l.connected ==> Sequence(l.txSeq) == SequenceOf(Sends(l.log)))
  }

  /** After an operation; when the process has exited only the history is left. */
  predicate Fine(l: State, alive: bool) {
    LogOk(l.log) && (alive ==> Inv(l))
  }

  /** Within a send: the call is on record and the packet was written this often. */
  predicate Sending(l: State, chunk: seq<byte>, retries: nat) {
    && |chunk| <= DATA_MAX
    && LogOk(l.log) && IdKept(l)
    && Sends(l.log) > 0 && CurrentChunk(l.log) == chunk && Repeats(l.log) == retries
    && (l.connected ==> Sequence(l.txSeq) == SequenceOf(Sends(l.log) - 1))
    && (retries > 0 && l.connected ==> Last(l.log) == DataSent(DataFrame(l.txSeq, EncodeId(l.terminalId), chunk)))
  }

  /** What waiting on the line can change. */
  predicate OnlyListened(l: State, m: State) {
    && m.rxSeq == l.rxSeq && m.terminalId == l.terminalId && m.log == l.log && m.monitorCarrier == l.monitorCarrier
    && (m.connected ==> l.connected && m.txSeq == l.txSeq)
  }

  lemma ListenOn(l: State, m: State)
    requires OnlyListened(l, m)
    ensures OnlyListened(l, Polled(m)) && OnlyListened(l, Disconnect(m)) && OnlyListened(l, Disconnect(Polled(m)))
    ensures m.script != [] ==> OnlyListened(l, m.(script := m.script[1..]))
  {
  }

  lemma ListenedThrough(l: State, m: State, n: State)
    requires OnlyListened(l, m) && OnlyListened(m, n)
    ensures OnlyListened(l, n)
  {
  }

  lemma CompleteListens(l: State, pkt: Packet, status: Status)
    ensures OnlyListened(l, Complete(l, pkt, status).link)
  {
    hide Flag, Has;
  }

  lemma {:induction false} ReceiveLoopListens(l: State, c: Reception, timeout: nat)
    requires Sound(c) && !c.done
    ensures OnlyListened(l, ReceiveLoop(l, c, timeout).link)
    decreases |l.script|
  {
    hide *;
    ReceiveLoopStep(l, c, timeout);
    ListeningIsReflexive(l);
    if l.script != [] {
      var next := l.(script := l.script[1..]);
      ListenOn(l, l);
      ListenOn(l, next);
      match l.script[0] {
        case Silence =>
          if timeout < TIMEOUT_MAX {
            PolledScript(next);
            ReceiveLoopListens(Polled(next), c, timeout + 1);
            ListenedThrough(l, Polled(next), ReceiveLoop(Polled(next), c, timeout + 1).link);
          }
        case Broken =>
        case Data(b) =>
          var d := Accept(c, b);
          if d.done {
            CompleteListens(next, d.pkt.CopyTrailer(), d.status);
            ListenedThrough(l, next, Complete(next, d.pkt.CopyTrailer(), d.status).link);
          } else {
            ReceiveLoopListens(next, d, 0);
            ListenedThrough(l, next, ReceiveLoop(next, d, 0).link);
          }
      }
    }
  }

  lemma ListeningIsReflexive(l: State)
    ensures OnlyListened(l, l)
  {
  }

  lemma ReceiveListens(l: State)
    ensures OnlyListened(l, Receive(l).link)
  {
    hide *;
    ReceiveStep(l);
    ListeningIsReflexive(l);
    ListenOn(l, l);
    ReceiveLoopListens(Polled(l), Fresh(), 0);
    ListenedThrough(l, Polled(l), ReceiveLoop(Polled(l), Fresh(), 0).link);
  }

  lemma WaitListens(l: State)
    ensures OnlyListened(l, WaitForAck(l).link)
  {
    hide Receive, Has;
    ReceiveListens(l);
  }

  // ------------------------------------------------------------ how single events extend a history

  lemma Extend(log: seq<Event>, e: Event)
    ensures Front(log + [e]) == log && Last(log + [e]) == e
    ensures LogOk(log + [e]) <==> LogOk(log) && EventOk(log, e)
    ensures Sends(log + [e]) == match e case Opened => 0 case Call(_) => Sends(log) + 1 case _ => Sends(log)
    ensures CurrentChunk(log + [e]) == if e.Call? then e.chunk else CurrentChunk(log)
    ensures LastId(log + [e]) == if e.Heard? then e.id else LastId(log)
    ensures Repeats(log + [e]) == if e.DataSent? then 1 + Repeats(log) else 0
  {
    hide EventOk;
    var longer := log + [e];
    assert Front(longer) == log;
  }

  lemma NextSequence(tx: byte, k: nat)
    requires Sequence(tx) == SequenceOf(k)
    ensures Sequence(tx + 1) == SequenceOf(k + 1)
  {
    hide SequenceOf;
    SequenceSteps(k);
    SequenceCarry(tx);
  }

  lemma SequenceSteps(k: nat)
    ensures SequenceOf(k + 1) == Sequence(SequenceOf(k) + 1)
  {
  }

  lemma SequenceCarry(tx: byte)
    ensures Sequence(tx + 1) == Sequence(Sequence(tx) + 1)
    ensures Sequence(Sequence(tx)) == Sequence(tx)
  {
  }

  lemma DataFrameShape(tx: byte, k: nat, id: seq<byte>, chunk: seq<byte>)
    requires |id| == ID_LENGTH && |chunk| <= DATA_MAX && Sequence(tx) == SequenceOf(k)
    ensures var w := DataFrame(tx, id, chunk);
      && |w| == |chunk| + ID_LENGTH + 6 && w[3..8] == id
      && w == DataFrame(SequenceOf(k), w[3..8], chunk)
  {
    hide Crc16, LengthByte, Lo, Hi, Sequence, SequenceOf;
    SequenceCarry(tx);
    assert DataFrame(tx, id, chunk)[3..8] == id;
  }

  lemma AckShape(flags: byte)
    requires AckByte(flags)
    ensures EventOk([], AckSent(Frame(flags, [])))
    ensures forall past :: EventOk(past, AckSent(Frame(flags, [])))
  {
    hide Crc16, LengthByte, Lo, Hi, AckByte;
  }

  /** What a frame without payload can say: acknowledgement, negative acknowledgement, retry request. */
  predicate AckKind(flags: byte) { flags == FLAG_ACK || flags == FLAG_NACK || flags == FLAG_RETRY }

  lemma AckFlagsAre(rxSeq: byte, flags: byte)
    requires AckKind(flags)
    ensures AckFlags(rxSeq, flags) == flags | Sequence(rxSeq) && AckByte(AckFlags(rxSeq, flags))
  {
  }

  /** One frame with exactly the flag asked for, under the receive sequence, which moves on; nothing when disconnected. */
  lemma AckSends(l: State, flags: byte)
    requires flags == 0x08 || flags == 0x00 || flags == 0x04
    ensures SendAck(l, flags) == if !l.connected then l else
      l.(rxSeq := l.rxSeq + 1, log := l.log + [AckSent(Frame(flags | (l.rxSeq & 0x03), []))])
  {
    AckFlagsAre(l.rxSeq, flags);
    hide Frame, AckFlags;
  }

  // ------------------------------------------------------------ every operation keeps the invariant

  lemma AckKeeps(l: State, flags: byte)
    requires Inv(l) && AckKind(flags)
    ensures Inv(SendAck(l, flags))
  {
    AckFlagsAre(l.rxSeq, flags);
    hide Frame, EventOk, LogOk, Sends, LastId, CurrentChunk, Repeats, SequenceOf, Sequence, AckFlags, AckByte;
    var f := AckFlags(l.rxSeq, flags);
    AckShape(f);
    Extend(l.log, AckSent(Frame(f, [])));
  }

  lemma ListeningKeeps(l: State, m: State)
    requires Inv(l) && OnlyListened(l, m)
    ensures Inv(m)
  {
  }

  lemma WriteKeeps(l: State, chunk: seq<byte>, retries: nat)
    requires Sending(l, chunk, retries) && retries < MAX_RETRIES && l.connected
    ensures Sending(l.(log := l.log + [DataSent(DataFrame(l.txSeq, EncodeId(l.terminalId), chunk))]), chunk, retries + 1)
  {
    hide DataFrame, LogOk, Sends, LastId, CurrentChunk, Repeats, SequenceOf, Sequence, EncodeId, Clean, Decodable;
    var w := DataFrame(l.txSeq, EncodeId(l.terminalId), chunk);
    DataFrameShape(l.txSeq, Sends(l.log) - 1, EncodeId(l.terminalId), chunk);
    Extend(l.log, DataSent(w));
  }

  /** A send may end here: giving up, done, or cut off. */
  lemma SendingEnds(l: State, chunk: seq<byte>, retries: nat)
    requires Sending(l, chunk, retries)
    ensures LogOk(l.log)
    ensures Inv(l.(txSeq := l.txSeq + 1))
    ensures !l.connected ==> Inv(l)
  {
    hide DataFrame, LogOk, Sends, LastId, CurrentChunk, Repeats, SequenceOf, Sequence, EncodeId, Clean, Decodable;
    if l.connected {
      NextSequence(l.txSeq, Sends(l.log) - 1);
    }
  }

  lemma AttemptKeeps(l: State, chunk: seq<byte>, retries: nat)
    requires Sending(l, chunk, retries) && retries < MAX_RETRIES && l.connected
    ensures Sending(WaitForAck(Written(l, chunk)).link, chunk, retries + 1)
  {
    hide DataFrame, LogOk, Sends, LastId, CurrentChunk, Repeats, SequenceOf, Sequence, EncodeId, Clean, Decodable, WaitForAck;
    WriteKeeps(l, chunk, retries);
    WaitListens(Written(l, chunk));
    Extend(l.log, DataSent(DataFrame(l.txSeq, EncodeId(l.terminalId), chunk)));
  }

  lemma {:induction false} SendLoopKeeps(l: State, chunk: seq<byte>, retries: nat, status: Status)
    requires |chunk| <= DATA_MAX && retries <= MAX_RETRIES && Sending(l, chunk, retries)
    ensures var s := SendLoop(l, chunk, retries, status); Fine(s.link, s.outcome.Returned?)
    decreases MAX_RETRIES - retries
  {
    hide *;
    SendLoopStep(l, chunk, retries, status);
    SendingEnds(l, chunk, retries);
    FineIs(l.(txSeq := l.txSeq + 1), true);
    FineIs(l, true);
    if retries < MAX_RETRIES && l.connected {
      var w := WaitForAck(Written(l, chunk));
      AttemptKeeps(l, chunk, retries);
      SendingEnds(w.link, chunk, retries + 1);
      FineIs(w.link.(txSeq := w.link.txSeq + 1), true);
      FineIs(w.link, false);
      if w.outcome.Returned? && w.outcome.status != SUCCESS {
        SendLoopKeeps(w.link, chunk, retries + 1, w.outcome.status);
      }
    }
  }

  lemma FineIs(l: State, alive: bool)
    ensures Fine(l, alive) <==> LogOk(l.log) && (alive ==> Inv(l))
  {
  }

  lemma SendDataKeeps(l: State, chunk: seq<byte>)
    requires Inv(l) && |chunk| <= DATA_MAX
    ensures var s := SendData(l, chunk); Fine(s.link, s.outcome.Returned?)
  {
    hide LogOk, Sends, LastId, CurrentChunk, Repeats, SequenceOf, Sequence, EncodeId, Clean, Decodable;
    Extend(l.log, Call(chunk));
    if l.connected {
      hide SendLoop;
      SendLoopKeeps(l.(log := l.log + [Call(chunk)]), chunk, 0, SUCCESS);
    }
  }

  lemma {:induction false} SendTableKeeps(l: State, table: seq<byte>)
    requires Inv(l)
    ensures var s := SendTable(l, table); Fine(s.link, s.outcome.Returned?)
    decreases |table|
  {
    hide SendData, IdKept, LogOk, Sends, SequenceOf, Sequence;
    if table != [] {
      var n := Min(|table|, DATA_MAX);
      SendDataKeeps(l, table[..n]);
      var s := SendData(l, table[..n]);
      if s.outcome == Returned(SUCCESS) {
        SendTableKeeps(s.link, table[n..]);
      }
    }
  }

  lemma HearKeeps(l: State, pkt: Packet)
    requires Inv(l)
    ensures Inv(Hear(l, pkt)) && Inv(NoteSequence(l, pkt))
  {
    hide LogOk, Sends, LastId, CurrentChunk, Repeats, SequenceOf, Sequence, EncodeId, Clean, Decodable, DecodeId;
    var id := pkt.payload[..ID_LENGTH];
    Extend(l.log, Heard(id));
    DecodeKeepsDecodable(l.terminalId, id);
    IdEcho(l.terminalId, id);
  }

  lemma ReceiveTableKeeps(l: State)
    requires Inv(l)
    ensures var t := ReceiveTable(l); Fine(t.link, t.outcome.Returned?)
  {
    hide Receive, WaitForAck, SendAck, Hear, NoteSequence, OnlyListened, IdKept, LogOk, Sends, SequenceOf, Sequence;
    var r := Receive(l);
    ReceiveListens(l);
    ListeningKeeps(l, r.link);
    AckKeeps(r.link, FLAG_NACK);
    WaitListens(SendAck(r.link, FLAG_NACK));
    ListeningKeeps(SendAck(r.link, FLAG_NACK), WaitForAck(SendAck(r.link, FLAG_NACK)).link);
    HearKeeps(r.link, r.pkt);
    HearKeeps(NoteSequence(r.link, r.pkt), r.pkt);
    AckKeeps(Hear(NoteSequence(r.link, r.pkt), r.pkt), FLAG_ACK);
  }

  lemma {:induction false} WaitForTableAckKeeps(l: State, tableId: byte)
    requires Inv(l)
    ensures var (m, a) := WaitForTableAck(l, tableId); Fine(m, a != Exited)
    decreases |l.script|
  {
    hide Receive, WaitForAck, SendAck, Hear, OnlyListened, Names, Accepted, IdKept, LogOk, Sends, SequenceOf, Sequence;
    var r := Receive(l);
    ReceiveListens(l);
    ListeningKeeps(l, r.link);
    if r.outcome.Returned? {
      if Accepted(r.outcome.status) {
        var l1 := NoteSequence(r.link, r.pkt);
        HearKeeps(r.link, r.pkt);
        HearKeeps(l1, r.pkt);
        AckKeeps(Hear(l1, r.pkt), FLAG_ACK);
        if r.pkt.payloadLen < ID_LENGTH {
          WaitForTableAckKeeps(l1, tableId);
        }
      } else if r.link.connected {
        var asked := SendAck(r.link, FLAG_RETRY);
        AckKeeps(r.link, FLAG_RETRY);
        WaitListens(asked);
        var w := WaitForAck(asked);
        ListeningKeeps(asked, w.link);
        AckKeeps(w.link, FLAG_ACK);
        AckScript(r.link, FLAG_RETRY);
        AckScript(w.link, FLAG_ACK);
        if w.outcome.Returned? {
          WaitForTableAckKeeps(if w.link.connected then SendAck(w.link, FLAG_ACK) else w.link, tableId);
        }
      }
    }
  }

  lemma AckScript(l: State, flags: byte)
    ensures SendAck(l, flags).script == l.script
  {
  }

  // ------------------------------------------------------------ runs

  datatype Op = DoConnect | DoDisconnect | DoSendTable(table: seq<byte>) | DoReceiveTable | DoWaitForTableAck(tableId: byte)

  /** One operation, and whether the process is still there afterwards. */
  function Step(l: State, op: Op): (State, bool) {
    match op
    case DoConnect => (Connect(l), true)
    case DoDisconnect => (Disconnect(l), true)
    case DoSendTable(table) => var s := SendTable(l, table); (s.link, s.outcome.Returned?)
    case DoReceiveTable => var t := ReceiveTable(l); (t.link, t.outcome.Returned?)
    case DoWaitForTableAck(tableId) => var (m, a) := WaitForTableAck(l, tableId); (m, a != Exited)
  }

  function RunOn(l: State, ops: seq<Op>): (State, bool)
    decreases |ops|
  {
    if ops == [] then (l, true) else
    var (m, alive) := Step(l, ops[0]);
    if alive then RunOn(m, ops[1..]) else (m, false)
  }

  function Run(l: State, ops: seq<Op>): State { RunOn(l, ops).0 }

  /** Before the first call. */
  predicate Idle(l: State) {
    !l.connected && l.log == [] && l.terminalId == seq(11, _ => 0)
  }

  lemma StepKeeps(l: State, op: Op)
    requires Inv(l)
    ensures var (m, alive) := Step(l, op); Fine(m, alive)
  {
    match op {
      case DoConnect =>
        Extend(l.log, Opened);
      case DoDisconnect =>
      case DoSendTable(table) =>
        SendTableKeeps(l, table);
      case DoReceiveTable =>
        ReceiveTableKeeps(l);
      case DoWaitForTableAck(tableId) =>
        WaitForTableAckKeeps(l, tableId);
    }
  }

  lemma {:induction false} RunKeeps(l: State, ops: seq<Op>)
    requires Inv(l)
    ensures LogOk(Run(l, ops).log)
    decreases |ops|
  {
    hide Inv, Step;
    InvLog(l);
    if ops != [] {
      StepKeeps(l, ops[0]);
      var (m, alive) := Step(l, ops[0]);
      if alive {
        RunKeeps(m, ops[1..]);
      }
    }
  }

  lemma InvLog(l: State)
    requires Inv(l)
    ensures LogOk(l.log)
  {
  }

  lemma {:induction false} LogOkAt(log: seq<Event>, i: nat)
    requires LogOk(log) && i < |log|
    ensures EventOk(log[..i], log[i])
    decreases |log|
  {
    hide EventOk;
    if i < |log| - 1 {
      LogOkAt(Front(log), i);
      assert Front(log)[..i] == log[..i];
    } else {
      assert Front(log) == log[..i];
    }
  }

  /** In every run, from any idle link and on any line, every event is as its history demands. */
  lemma EveryRun(l: State, ops: seq<Op>, i: nat)
    requires Idle(l) && i < |Run(l, ops).log|
    ensures EventOk(Run(l, ops).log[..i], Run(l, ops).log[i])
  {
    RunKeeps(l, ops);
    hide EventOk, Run;
    LogOkAt(Run(l, ops).log, i);
  }
}
