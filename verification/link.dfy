/**
 * The stop-and-wait transfer as functions on the state of the link. Serial reads and carrier polls come from
 * arbitrary finite scripts; when the reads run out the process exits, as it does at the end of a byte stream.
 */
module Link {
  import opened Basics
  import opened Crc
  import opened Packets
  import opened Framing
  import opened Phone

  datatype Read = Data(b: byte) | Silence | Broken

  /** What happened on the link, in order. */
  datatype Event =
    | Opened
    | Heard(id: seq<byte>)
    | Call(chunk: seq<byte>)
    | DataSent(wire: seq<byte>)
    | AckSent(wire: seq<byte>)

  datatype State = State(
    connected: bool, rxSeq: byte, txSeq: byte, terminalId: IdText,
    monitorCarrier: bool, script: seq<Read>, carrier: seq<bool>, log: seq<Event>)

  datatype Outcome = Exit | Returned(status: Status)

  datatype Received = Received(link: State, pkt: Packet, outcome: Outcome)

  datatype Sent = Sent(link: State, outcome: Outcome)

  const TIMEOUT_MAX: nat := 10
  const MAX_RETRIES: nat := 5

  function Has(flags: byte, mask: byte): bool { flags & mask != 0 }

  function Sequence(flags: byte): byte { flags & FLAG_SEQUENCE }

  // ------------------------------------------------------------ connection and carrier

  function Connect(l: State): State {
    l.(connected := true, txSeq := 0, log := l.log + [Opened])
  }

  function Disconnect(l: State): State {
    l.(connected := false, txSeq := 0)
  }

  function CarrierLost(l: State): bool {
    l.monitorCarrier && (l.carrier == [] || !l.carrier[0])
  }

  /** The state after the carrier was polled, if it is monitored. */
  function Polled(l: State): State {
    if l.monitorCarrier && l.carrier != [] then l.(carrier := l.carrier[1..]) else l
  }

  lemma PolledScript(l: State)
    ensures Polled(l).script == l.script
  {
  }

  // ------------------------------------------------------------ receiving

  function Receive(l: State): (r: Received)
    ensures |r.link.script| <= |l.script|
    ensures r.pkt.payloadLen <= PAYLOAD_MAX
    ensures r.outcome.Returned? && (r.link.connected || Accepted(r.outcome.status)) ==> |r.link.script| < |l.script|
  {
    StatusFacts();
    var polled := Polled(l);
    if CarrierLost(l) then Received(Disconnect(polled), ZeroPacket(), Returned(ERROR_NO_CARRIER))
    else if !polled.connected then Received(polled, ZeroPacket(), Returned(ERROR_DISCONNECT))
    else ReceiveLoop(polled, Fresh(), 0)
  }

  function ReceiveLoop(l: State, c: Reception, timeout: nat): (r: Received)
    requires Sound(c) && !c.done
    ensures |r.link.script| <= |l.script|
    ensures r.pkt.payloadLen <= PAYLOAD_MAX
    ensures r.outcome.Returned? ==> |r.link.script| < |l.script|
    decreases |l.script|
  {
    hide Accept;
    SoundBound(c);
    if l.script == [] then Received(l, c.pkt, Exit) else
    var next := l.(script := l.script[1..]);
    match l.script[0]
    case Silence =>
      if !next.connected then Received(next, c.pkt, Returned(ERROR_DISCONNECT))
      else if CarrierLost(next) then Received(Disconnect(Polled(next)), c.pkt, Returned(ERROR_NO_CARRIER))
      else if timeout + 1 > TIMEOUT_MAX then Received(Polled(next), c.pkt, Returned(ERROR_TIMEOUT))
      else ReceiveLoop(Polled(next), c, timeout + 1)
    case Broken =>
      Received(Disconnect(next), c.pkt, Returned(ERROR_FAILURE))
    case Data(b) =>
      var d := Accept(c, b);
      if d.done then Complete(next, d.pkt.CopyTrailer(), d.status) else ReceiveLoop(next, d, 0)
  }

  lemma ReceiveLoopStep(l: State, c: Reception, timeout: nat)
    requires Sound(c) && !c.done
    ensures var r := ReceiveLoop(l, c, timeout);
      if l.script == [] then r == Received(l, c.pkt, Exit) else
      var next := l.(script := l.script[1..]);
      match l.script[0]
      case Silence =>
        if !next.connected then r == Received(next, c.pkt, Returned(ERROR_DISCONNECT))
        else if CarrierLost(next) then r == Received(Disconnect(Polled(next)), c.pkt, Returned(ERROR_NO_CARRIER))
        else if timeout + 1 > TIMEOUT_MAX then r == Received(Polled(next), c.pkt, Returned(ERROR_TIMEOUT))
        else r == ReceiveLoop(Polled(next), c, timeout + 1)
      case Broken => r == Received(Disconnect(next), c.pkt, Returned(ERROR_FAILURE))
      case Data(b) =>
        var d := Accept(c, b);
        if d.done then r == Complete(next, d.pkt.CopyTrailer(), d.status) else r == ReceiveLoop(next, d, 0)
  {
    hide Accept, Packet.CopyTrailer, Complete, Polled, Disconnect, CarrierLost;
    SoundBound(c);
    hide Sound;
  }

  // One lemma for each kind of read.

  lemma LoopExits(l: State, c: Reception, timeout: nat)
    requires Sound(c) && !c.done && l.script == []
    ensures ReceiveLoop(l, c, timeout) == Received(l, c.pkt, Exit)
  {
    hide *;
    ReceiveLoopStep(l, c, timeout);
  }

  lemma LoopBreaks(l: State, c: Reception, timeout: nat)
    requires Sound(c) && !c.done && l.script != [] && l.script[0] == Broken
    ensures ReceiveLoop(l, c, timeout)
      == Received(Disconnect(l.(script := l.script[1..])), c.pkt, Returned(ERROR_FAILURE))
  {
    hide *;
    ReceiveLoopStep(l, c, timeout);
  }

  lemma LoopWaits(l: State, c: Reception, timeout: nat)
    requires Sound(c) && !c.done && l.script != [] && l.script[0] == Silence
    ensures var r, next := ReceiveLoop(l, c, timeout), l.(script := l.script[1..]);
      if !next.connected then r == Received(next, c.pkt, Returned(ERROR_DISCONNECT))
      else if CarrierLost(next) then r == Received(Disconnect(Polled(next)), c.pkt, Returned(ERROR_NO_CARRIER))
      else if timeout + 1 > TIMEOUT_MAX then r == Received(Polled(next), c.pkt, Returned(ERROR_TIMEOUT))
      else r == ReceiveLoop(Polled(next), c, timeout + 1)
  {
    hide *;
    ReceiveLoopStep(l, c, timeout);
  }

  lemma LoopAccepts(l: State, c: Reception, timeout: nat, b: byte)
    requires Sound(c) && !c.done && l.script != [] && l.script[0] == Data(b)
    ensures var r, next, d := ReceiveLoop(l, c, timeout), l.(script := l.script[1..]), Accept(c, b);
      if d.done then r == Complete(next, d.pkt.CopyTrailer(), d.status) else r == ReceiveLoop(next, d, 0)
  {
    hide *;
    ReceiveLoopStep(l, c, timeout);
  }

  lemma FreshIs()
    ensures Fresh() == Reception(SearchForStart, ZeroPacket(), SUCCESS, false)
  {
  }

  lemma ReceiveStep(l: State)
    ensures var r := Receive(l);
      if CarrierLost(l) then r == Received(Disconnect(Polled(l)), ZeroPacket(), Returned(ERROR_NO_CARRIER))
      else if !Polled(l).connected then r == Received(Polled(l), ZeroPacket(), Returned(ERROR_DISCONNECT))
      else r == ReceiveLoop(Polled(l), Fresh(), 0)
  {
    hide ReceiveLoop, Polled, Disconnect, CarrierLost, Fresh, ZeroPacket;
  }

  lemma SoundBound(c: Reception)
    requires Sound(c) && !c.done
    ensures c.pkt.payloadLen <= PAYLOAD_MAX
  {
  }

  /** A complete packet: its retry and disconnect flags add to the status, and a disconnect hangs up. */
  function Complete(l: State, pkt: Packet, status: Status): (r: Received)
    ensures r.pkt == pkt && r.outcome.Returned? && r.link.script == l.script
  {
    var s := Flag(status, Has(pkt.flags, FLAG_RETRY), ERROR_RETRY);
    if Has(pkt.flags, FLAG_DISCONNECT)
    then Received(Disconnect(l), pkt, Returned(Flag(s, true, ERROR_DISCONNECT)))
    else Received(l, pkt, Returned(s))
  }

  predicate Accepted(status: Status) { status == SUCCESS || status == ERROR_RETRY }

  lemma StatusFacts()
    ensures !Accepted(ERROR_NO_CARRIER) && !Accepted(ERROR_DISCONNECT)
  {
  }

  // ------------------------------------------------------------ sending

  function WaitForAck(l: State): (s: Sent)
    ensures |s.link.script| <= |l.script|
  {
    if !l.connected then Sent(l, Returned(ERROR_DISCONNECT)) else
    var r := Receive(l);
    match r.outcome
    case Exit => Sent(r.link, Exit)
    case Returned(status) => Sent(r.link, Returned(
      if status == SUCCESS || status == ERROR_DISCONNECT then
        if r.pkt.payloadLen == 0 && !Has(r.pkt.flags, FLAG_ACK) then ERROR_NACK else SUCCESS
      else status))
  }

  /** The frame of a data packet: current send sequence, terminal id, data. */
  function DataFrame(seqNo: byte, id: seq<byte>, chunk: seq<byte>): seq<byte>
    requires |id| == ID_LENGTH && |chunk| <= DATA_MAX
  {
    Frame(Sequence(seqNo), id + chunk)
  }

  function AckFlags(rxSeq: byte, flags: byte): byte {
    var f := flags | Sequence(rxSeq);
    if Has(flags, FLAG_RETRY) then f | FLAG_RETRY else f
  }

  /** The packets without payload: acknowledgement, negative acknowledgement, retry request. */
  function SendAck(l: State, flags: byte): State
  {
    if !l.connected then l else
    l.(rxSeq := l.rxSeq + 1, log := l.log + [AckSent(Frame(AckFlags(l.rxSeq, flags), []))])
  }

  function SendData(l: State, chunk: seq<byte>): (s: Sent)
    requires |chunk| <= DATA_MAX
    ensures |s.link.script| <= |l.script|
  {
    SendLoop(if l.connected then l.(log := l.log + [Call(chunk)]) else l, chunk, 0, SUCCESS)
  }

  function Written(l: State, chunk: seq<byte>): State
    requires |chunk| <= DATA_MAX
  {
    l.(log := l.log + [DataSent(DataFrame(l.txSeq, EncodeId(l.terminalId), chunk))])
  }

  function SendLoop(l: State, chunk: seq<byte>, retries: nat, status: Status): (s: Sent)
    requires |chunk| <= DATA_MAX && retries <= MAX_RETRIES
    ensures |s.link.script| <= |l.script|
    decreases MAX_RETRIES - retries
  {
    if retries == MAX_RETRIES then Sent(l.(txSeq := l.txSeq + 1), Returned(Flag(status, true, ERROR_FAILURE)))
    else if !l.connected then Sent(l, Returned(ERROR_DISCONNECT)) else
    var w := WaitForAck(Written(l, chunk));
    match w.outcome
    case Exit => w
    case Returned(s) =>
      if s == SUCCESS then Sent(w.link.(txSeq := w.link.txSeq + 1), Returned(SUCCESS))
      else SendLoop(w.link, chunk, retries + 1, s)
  }

  lemma SendLoopStep(l: State, chunk: seq<byte>, retries: nat, status: Status)
    requires |chunk| <= DATA_MAX && retries <= MAX_RETRIES
    ensures var s := SendLoop(l, chunk, retries, status);
      if retries == MAX_RETRIES then s == Sent(l.(txSeq := l.txSeq + 1), Returned(Flag(status, true, ERROR_FAILURE)))
      else if !l.connected then s == Sent(l, Returned(ERROR_DISCONNECT))
      else var w := WaitForAck(Written(l, chunk));
        if w.outcome == Exit then s == w
        else if w.outcome == Returned(SUCCESS) then s == Sent(w.link.(txSeq := w.link.txSeq + 1), Returned(SUCCESS))
        else s == SendLoop(w.link, chunk, retries + 1, w.outcome.status)
  {
    hide WaitForAck, Written, Flag;
  }

  function SendTable(l: State, table: seq<byte>): (s: Sent)
    ensures |s.link.script| <= |l.script|
    decreases |table|
  {
    if table == [] then Sent(l, Returned(SUCCESS)) else
    var n := Min(|table|, DATA_MAX);
    var s := SendData(l, table[..n]);
    if s.outcome == Returned(SUCCESS) then SendTable(s.link, table[n..]) else s
  }

  // ------------------------------------------------------------ receiving with acknowledgement

  /** The sequence number and, with a payload, the terminal id are taken from an accepted packet. */
  function NoteSequence(l: State, pkt: Packet): State {
    l.(rxSeq := Sequence(pkt.flags))
  }

  function Hear(l: State, pkt: Packet): State {
    var id := pkt.payload[..ID_LENGTH];
    l.(terminalId := DecodeId(l.terminalId, id), log := l.log + [Heard(id)])
  }

  function ReceiveTable(l: State): (t: Received)
    ensures |t.link.script| <= |l.script| && t.pkt.payloadLen <= PAYLOAD_MAX
  {
    var r := Receive(l);
    match r.outcome
    case Exit => r
    case Returned(status) =>
      if !Accepted(status) then
        if r.link.connected then
          var w := WaitForAck(SendAck(r.link, FLAG_NACK));
          Received(w.link, r.pkt, w.outcome)
        else r
      else
        var l1 := NoteSequence(r.link, r.pkt);
        if r.pkt.payloadLen < ID_LENGTH then Received(l1, r.pkt, Returned(SUCCESS))
        else Received(SendAck(Hear(l1, r.pkt), FLAG_ACK), r.pkt, Returned(status))
  }

  datatype TableAck = Exited | Acked | WrongTable | Failed(status: Status)

  /** Whether the bytes where a table acknowledgement is read name this table. */
  predicate Names(pkt: Packet, tableId: byte) {
    pkt.payload[ID_LENGTH] == TABLE_UPD_ACK && pkt.payload[ID_LENGTH + 1] == tableId
  }

  function WaitForTableAck(l: State, tableId: byte): (State, TableAck)
    decreases |l.script|
  {
    var r := Receive(l);
    match r.outcome
    case Exit => (r.link, Exited)
    case Returned(status) =>
      if Accepted(status) then
        var l1 := NoteSequence(r.link, r.pkt);
        if r.pkt.payloadLen < ID_LENGTH then WaitForTableAck(l1, tableId) else
        var l2 := Hear(l1, r.pkt);
        if Names(r.pkt, tableId) then (SendAck(l2, FLAG_ACK), Acked) else (l2, WrongTable)
      else if !r.link.connected then (r.link, Failed(status)) else
      var w := WaitForAck(SendAck(r.link, FLAG_RETRY));
      match w.outcome
      case Exit => (w.link, Exited)
      case Returned(_) => WaitForTableAck(if w.link.connected then SendAck(w.link, FLAG_ACK) else w.link, tableId)
  }

  lemma WaitForTableAckStep(l: State, tableId: byte)
    ensures var r := Receive(l);
      var result := WaitForTableAck(l, tableId);
      if r.outcome == Exit then result == (r.link, Exited)
      else if Accepted(r.outcome.status) then
        var heard := NoteSequence(r.link, r.pkt);
        if r.pkt.payloadLen < ID_LENGTH then result == WaitForTableAck(heard, tableId) && |heard.script| < |l.script|
        else if Names(r.pkt, tableId) then result == (SendAck(Hear(heard, r.pkt), FLAG_ACK), Acked)
        else result == (Hear(heard, r.pkt), WrongTable)
      else if !r.link.connected then result == (r.link, Failed(r.outcome.status))
      else
        var w := WaitForAck(SendAck(r.link, FLAG_RETRY));
        var on := if w.link.connected then SendAck(w.link, FLAG_ACK) else w.link;
        if w.outcome == Exit then result == (w.link, Exited)
        else result == WaitForTableAck(on, tableId) && |on.script| < |l.script|
  {
    hide Receive, WaitForAck, Hear, Names, AckFlags, Frame, Accepted;
  }
}
