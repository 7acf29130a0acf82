/** Which packets are accepted, when they are acknowledged, and what the waiting operations may conclude. */
module Acks {
  import opened Crc
  import opened Packets
  import opened Framing
  import opened Frames
  import opened Phone
  import opened Link
  import opened Runs
  import opened ReceptionOverLink
  import Transfer

  // ------------------------------------------------------------ accepted packets are genuine

  predicate Err(status: Status, bit: Status) { status & bit != 0 }

  lemma FlagSticks(status: Status, bad: bool, error: Status, bit: Status)
    ensures Err(status, bit) ==> Err(Flag(status, bad, error), bit)
    ensures Flag(status, false, error) == status
  {
  }

  lemma FlagSets(status: Status)
    ensures Err(Flag(status, true, ERROR_CRC), ERROR_CRC)
    ensures Err(Flag(status, true, ERROR_FRAMING), ERROR_FRAMING)
    ensures Err(Flag(status, true, ERROR_DISCONNECT), ERROR_DISCONNECT)
  {
  }

  lemma AcceptedHasNoErrors(status: Status)
    requires Accepted(status)
    ensures !Err(status, ERROR_CRC) && !Err(status, ERROR_FRAMING) && !Err(status, ERROR_DISCONNECT)
  {
  }

  lemma GivingUpIsNoAcceptance()
    ensures !Accepted(ERROR_DISCONNECT) && !Accepted(ERROR_NO_CARRIER) && !Accepted(ERROR_TIMEOUT) && !Accepted(ERROR_FAILURE)
    ensures ERROR_TIMEOUT != ERROR_DISCONNECT && ERROR_TIMEOUT != ERROR_NO_CARRIER && ERROR_TIMEOUT != ERROR_FAILURE
  {
  }

  /** The computed checksum is the CRC of header and payload. */
  predicate Summed(p: Packet)
    requires p.payloadLen <= BUFFER_SIZE
  {
    p.calculated == Crc16(0, p.Header() + p.payload[..p.payloadLen])
  }

  /** Once the check bytes are in, the checksum has been computed over the packet as it is. */
  predicate SummedUp(c: Reception) {
    c.l2 == SearchForStop || c.done ==> c.pkt.payloadLen <= PAYLOAD_MAX && Summed(c.pkt)
  }

  lemma AcceptSums(c: Reception, b: byte)
    requires Sound(c) && !c.done && SummedUp(c)
    ensures SummedUp(Accept(c, b))
  {
    hide DataLength, Join, Flag, Crc16;
    if c.l2 == GetCrc1 {
      Chaining(0, c.pkt.Header(), c.pkt.payload[..c.pkt.payloadLen]);
    }
  }

  /** Copying the trailer touches nothing the checksum covers. */
  lemma TrailerSums(p: Packet)
    requires p.payloadLen <= PAYLOAD_MAX
    ensures Summed(p.CopyTrailer()) <==> Summed(p)
  {
    TrailerAgain(p, p);
    hide Crc16;
  }

  /** A wrong checksum, and a wrong end byte, leave their mark in the status. */
  predicate ErrorsTold(c: Reception) {
    && (c.l2 == SearchForStop || c.done ==> c.pkt.crc == c.pkt.calculated || Err(c.status, ERROR_CRC))
    && (c.done ==> c.pkt.end == STOP_BYTE || Err(c.status, ERROR_FRAMING))
    && (c.done ==> c.pkt.payloadLen == DataLength(c.pkt.pktlen) && c.pkt.start == START_BYTE)
    && (c.l2 != SearchForStart ==> c.pkt.start == START_BYTE)
  }

  lemma AcceptTells(c: Reception, b: byte)
    requires Sound(c) && !c.done && ErrorsTold(c)
    ensures ErrorsTold(Accept(c, b))
  {
    hide DataLength, Join, Flag, Crc16, Err;
    FlagSets(c.status);
    FlagSticks(c.status, b != STOP_BYTE, ERROR_FRAMING, ERROR_CRC);
  }

  /** Checksum, end byte and length of a complete packet are what the status tells of them. */
  predicate Honest(c: Reception) { SummedUp(c) && ErrorsTold(c) }

  lemma AcceptHonest(c: Reception, b: byte)
    requires Sound(c) && !c.done && Honest(c)
    ensures Honest(Accept(c, b))
  {
    AcceptSums(c, b);
    AcceptTells(c, b);
    hide Accept, SummedUp, ErrorsTold;
  }

  lemma FreshHonest()
    ensures Honest(Fresh())
  {
    hide DataLength, Err;
  }

  /**
   * The packet was complete, its delimiters are right, its check bytes are the CRC of its header and payload, and its
   * trailer stands behind its data.
   */
  predicate Genuine(p: Packet) {
    && p.start == START_BYTE && p.end == STOP_BYTE
    && p.payloadLen == DataLength(p.pktlen)
    && p.payloadLen <= PAYLOAD_MAX && p.payload[p.payloadLen..p.payloadLen + 3] == p.Trailer()
    && p.crc == Crc16(0, p.Header() + p.payload[..p.payloadLen])
  }

  /** The body of a genuine packet and the two bytes behind its data, as they were on the line, pass the comparison. */
  lemma GenuinePasses(p: Packet)
    requires Genuine(p)
    ensures Passes(p.Header() + p.payload[..p.payloadLen + 2])
  {
    hide Passes, Crc16, Lo, Hi, DataLength;
    PassesWithCrc(p.Header() + p.payload[..p.payloadLen], p.crc);
    TwoMore(p, p.Trailer());
  }

  lemma PassesWithCrc(body: seq<byte>, crc: bv16)
    requires crc == Crc16(0, body)
    ensures Passes(body + [Lo(crc), Hi(crc)])
  {
    WordSplit(crc);
    hide Crc16, Lo, Hi, Word16;
    assert (body + [Lo(crc), Hi(crc)])[..|body|] == body;
  }

  lemma TwoMore(p: Packet, trailer: seq<byte>)
    requires p.payloadLen <= PAYLOAD_MAX && |trailer| == 3 && p.payload[p.payloadLen..p.payloadLen + 3] == trailer
    ensures p.Header() + p.payload[..p.payloadLen + 2] == p.Header() + p.payload[..p.payloadLen] + [trailer[0], trailer[1]]
  {
    var n := p.payloadLen;
    assert p.payload[n..n + 3][0] == p.payload[n] && p.payload[n..n + 3][1] == p.payload[n + 1];
  }

  /** A packet that is complete without error is genuine, and a complete one with a wrong check or end is not. */
  lemma DoneGenuine(c: Reception)
    requires Sound(c) && c.done && c.pkt.payloadLen <= PAYLOAD_MAX && Honest(c)
    ensures var p := c.pkt.CopyTrailer();
      Genuine(p) <==> c.pkt.crc == c.pkt.calculated && c.pkt.end == STOP_BYTE
  {
    var p := c.pkt.CopyTrailer();
    TrailerSums(c.pkt);
    hide Err, DataLength, Lo, Hi, Crc16;
    assert p.payload[p.payloadLen..p.payloadLen + 3] == p.Trailer();
  }

  lemma CompleteGenuine(l: State, c: Reception)
    requires Sound(c) && c.done && c.pkt.payloadLen <= PAYLOAD_MAX && Honest(c)
    ensures var r := Complete(l, c.pkt.CopyTrailer(), c.status);
      Accepted(r.outcome.status) ==> Genuine(r.pkt) && r.link == l
  {
    var p := c.pkt.CopyTrailer();
    var r := Complete(l, p, c.status);
    CompleteIs(l, p, c.status);
    DoneGenuine(c);
    var s1 := Flag(c.status, Has(p.flags, FLAG_RETRY), ERROR_RETRY);
    FlagSticks(c.status, Has(p.flags, FLAG_RETRY), ERROR_RETRY, ERROR_CRC);
    FlagSticks(c.status, Has(p.flags, FLAG_RETRY), ERROR_RETRY, ERROR_FRAMING);
    FlagSticks(s1, true, ERROR_DISCONNECT, ERROR_CRC);
    FlagSticks(s1, true, ERROR_DISCONNECT, ERROR_FRAMING);
    FlagSets(s1);
    hide Err, Flag, Has, Accepted, Complete, Genuine, Sound, SummedUp;
    if Accepted(r.outcome.status) {
      AcceptedHasNoErrors(r.outcome.status);
    }
  }

  lemma {:induction false} LoopAcceptsGenuine(l: State, c: Reception, timeout: nat)
    requires Sound(c) && !c.done && Honest(c) && l.connected
    ensures var r := ReceiveLoop(l, c, timeout);
      r.outcome.Returned? && Accepted(r.outcome.status) ==> Genuine(r.pkt) && r.link.connected
    decreases |l.script|
  {
    hide *;
    ReceiveLoopStep(l, c, timeout);
    GivingUpIsNoAcceptance();
    if l.script != [] {
      var next := l.(script := l.script[1..]);
      PolledScript(next);
      match l.script[0] {
        case Silence =>
          PolledConnected(next);
          if ReceiveLoop(l, c, timeout) == ReceiveLoop(Polled(next), c, timeout + 1) {
            LoopAcceptsGenuine(Polled(next), c, timeout + 1);
          }
        case Broken =>
        case Data(b) =>
          var d := Accept(c, b);
          AcceptHonest(c, b);
          if d.done {
            CompleteGenuine(next, d);
          } else {
            LoopAcceptsGenuine(next, d, 0);
          }
      }
    }
  }

  lemma PolledConnected(l: State)
    ensures Polled(l).connected == l.connected
  {
  }

  /** On every line: a packet is accepted only if it is complete with the right checksum, and then the connection is up. */
  lemma AcceptedIsGenuine(l: State)
    ensures var r := Receive(l);
      r.outcome.Returned? && Accepted(r.outcome.status) ==> Genuine(r.pkt) && r.link.connected
  {
    hide *;
    ReceiveStep(l);
    GivingUpIsNoAcceptance();
    FreshHonest();
    PolledConnected(l);
    if Polled(l).connected {
      LoopAcceptsGenuine(Polled(l), Fresh(), 0);
    }
  }

  // ------------------------------------------------------------ and genuine packets are accepted

  /** A status other than success has its cause in the packet; before the end there is no end byte. */
  predicate Telling(c: Reception) {
    if c.done then c.status == SUCCESS || c.pkt.crc != c.pkt.calculated || c.pkt.end != STOP_BYTE
    else c.pkt.end == 0 && (c.status == SUCCESS || (c.l2 == SearchForStop && c.pkt.crc != c.pkt.calculated))
  }

  lemma AcceptTelling(c: Reception, b: byte)
    requires Sound(c) && !c.done && Telling(c)
    ensures Telling(Accept(c, b))
  {
    NoFlag();
    hide DataLength, Join, Flag, Crc16, Sound;
    if c.l2 == SearchForStop {
      assert Accept(c, b).pkt == c.pkt.(end := b);
    } else {
      assert !Accept(c, b).done && Accept(c, b).pkt.end == c.pkt.end;
    }
  }

  lemma NoFlag()
    ensures forall error :: Flag(SUCCESS, false, error) == SUCCESS
  {
  }

  lemma FreshTelling()
    ensures Telling(Fresh())
  {
  }

  /** The status of a genuine packet: what its flags say. */
  function FlagStatus(flags: byte): Status {
    var s := Flag(SUCCESS, Has(flags, FLAG_RETRY), ERROR_RETRY);
    if Has(flags, FLAG_DISCONNECT) then Flag(s, true, ERROR_DISCONNECT) else s
  }

  /** Anything beyond the two flags. */
  predicate Fault(status: Status) { status > 3 }

  /** The status told from the packet: its flags if it is genuine, a fault if not; up says whether the link was. */
  predicate Judged(r: Received, up: bool) {
    r.outcome.Returned? ==>
      && (Genuine(r.pkt) ==> r.outcome.status == FlagStatus(r.pkt.flags))
      && (!Genuine(r.pkt) ==> Fault(r.outcome.status) || (!up && r.outcome.status == ERROR_DISCONNECT))
      && (Genuine(r.pkt) && Has(r.pkt.flags, FLAG_DISCONNECT) ==> !r.link.connected)
  }

  lemma FaultsStay(status: Status, retry: bool, disconnect: bool)
    requires Err(status, ERROR_CRC) || Err(status, ERROR_FRAMING)
    ensures var s := Flag(status, retry, ERROR_RETRY);
      Fault(if disconnect then Flag(s, true, ERROR_DISCONNECT) else s)
  {
  }

  lemma FlagStatuses(flags: byte)
    ensures FlagStatus(flags) ==
      if Has(flags, FLAG_RETRY) then if Has(flags, FLAG_DISCONNECT) then 3 else ERROR_RETRY
      else if Has(flags, FLAG_DISCONNECT) then ERROR_DISCONNECT else SUCCESS
    ensures Accepted(FlagStatus(flags)) <==> !Has(flags, FLAG_DISCONNECT)
  {
    hide Has;
  }

  lemma FaultFacts()
    ensures Fault(ERROR_NO_CARRIER) && Fault(ERROR_TIMEOUT) && Fault(ERROR_FAILURE)
    ensures !Accepted(ERROR_DISCONNECT) && forall s :: Fault(s) ==> !Accepted(s) && s != SUCCESS && s != ERROR_DISCONNECT
  {
  }

  lemma CompleteJudged(l: State, c: Reception, up: bool)
    requires Sound(c) && c.done && c.pkt.payloadLen <= PAYLOAD_MAX && Honest(c) && Telling(c)
    ensures Judged(Complete(l, c.pkt.CopyTrailer(), c.status), up)
  {
    var p := c.pkt.CopyTrailer();
    CompleteIs(l, p, c.status);
    DoneGenuine(c);
    hide Genuine, Flag, Has, Complete, Sound, SummedUp, Err, Fault;
    if !Genuine(p) {
      FaultsStay(c.status, Has(p.flags, FLAG_RETRY), Has(p.flags, FLAG_DISCONNECT));
    }
  }

  lemma UnfinishedJudged(link: State, pkt: Packet, status: Status, up: bool)
    requires pkt.end == 0 && (Fault(status) || (!up && status == ERROR_DISCONNECT))
    ensures Judged(Received(link, pkt, Returned(status)), up)
  {
    hide Fault, DataLength, Has, Crc16;
  }

  lemma {:induction false} LoopJudged(l: State, c: Reception, timeout: nat)
    requires Sound(c) && !c.done && Honest(c) && Telling(c) && l.connected
    ensures Judged(ReceiveLoop(l, c, timeout), true)
    decreases |l.script|
  {
    TellingEnd(c);
    hide *;
    FaultFacts();
    if l.script == [] {
      LoopExits(l, c, timeout);
      ExitJudged(l, c.pkt, true);
    } else {
      var next := l.(script := l.script[1..]);
      PolledScript(next);
      PolledConnected(next);
      match l.script[0] {
        case Silence =>
          LoopWaits(l, c, timeout);
          UnfinishedJudged(Disconnect(Polled(next)), c.pkt, ERROR_NO_CARRIER, true);
          UnfinishedJudged(Polled(next), c.pkt, ERROR_TIMEOUT, true);
          if ReceiveLoop(l, c, timeout) == ReceiveLoop(Polled(next), c, timeout + 1) {
            LoopJudged(Polled(next), c, timeout + 1);
          }
        case Broken =>
          LoopBreaks(l, c, timeout);
          UnfinishedJudged(Disconnect(next), c.pkt, ERROR_FAILURE, true);
        case Data(b) =>
          LoopAccepts(l, c, timeout, b);
          var d := Accept(c, b);
          AcceptHonest(c, b);
          AcceptTelling(c, b);
          if d.done {
            CompleteJudged(next, d, true);
          } else {
            LoopJudged(next, d, 0);
          }
      }
    }
  }

  lemma TellingEnd(c: Reception)
    requires !c.done && Telling(c)
    ensures c.pkt.end == 0
  {
  }

  lemma ExitJudged(link: State, pkt: Packet, up: bool)
    ensures Judged(Received(link, pkt, Exit), up)
  {
  }

  /** On every line: the status of a reception is what the packet's flags say if it is genuine, and a fault if not. */
  lemma ReceptionJudged(l: State)
    ensures Judged(Receive(l), l.connected)
  {
    assert ZeroPacket().end == 0;
    hide *;
    ReceiveStep(l);
    FaultFacts();
    PolledConnected(l);
    UnfinishedJudged(Disconnect(Polled(l)), ZeroPacket(), ERROR_NO_CARRIER, l.connected);
    if Polled(l).connected {
      FreshHonest();
      FreshTelling();
      LoopJudged(Polled(l), Fresh(), 0);
    } else {
      UnfinishedJudged(Polled(l), ZeroPacket(), ERROR_DISCONNECT, l.connected);
    }
  }

  /** On every line: a reception accepts exactly the genuine packets that do not ask to disconnect. */
  lemma AcceptedExactly(l: State)
    ensures var r := Receive(l);
      r.outcome.Returned? ==>
        && (Accepted(r.outcome.status) <==> Genuine(r.pkt) && !Has(r.pkt.flags, FLAG_DISCONNECT))
        && (Accepted(r.outcome.status) ==>
            r.outcome.status == if Has(r.pkt.flags, FLAG_RETRY) then ERROR_RETRY else SUCCESS)
        && (Genuine(r.pkt) && !Accepted(r.outcome.status) ==>
            !r.link.connected && r.outcome.status == if Has(r.pkt.flags, FLAG_RETRY) then 3 else ERROR_DISCONNECT)
  {
    ReceptionJudged(l);
    FlagStatuses(Receive(l).pkt.flags);
    FaultFacts();
    hide Receive, Genuine, Has, Accepted, Fault, FlagStatus;
  }

  /**
   * Reception with the carrier gone, or without a connection: no byte is read; the carrier is polled once if it is
   * monitored, and its loss hangs up.
   */
  lemma NothingReceived(l: State)
    ensures var gone := l.monitorCarrier && (l.carrier == [] || !l.carrier[0]);
      var polled := if l.monitorCarrier && l.carrier != [] then l.carrier[1..] else l.carrier;
      && (gone ==>
        Receive(l) == Received(l.(connected := false, txSeq := 0, carrier := polled), ZeroPacket(), Returned(ERROR_NO_CARRIER)))
      && (!gone && !l.connected ==>
        Receive(l) == Received(l.(carrier := polled), ZeroPacket(), Returned(ERROR_DISCONNECT)))
  {
    ReceiveStep(l);
    hide Receive, ReceiveLoop, ZeroPacket;
  }

  // ------------------------------------------------------------ acknowledgements

  function AckFrame(flags: byte): Event { AckSent(Frame(flags, [])) }

  lemma AckFlagsPlain(rxSeq: byte, flags: byte)
    ensures AckFlags(Sequence(rxSeq), FLAG_ACK) == FLAG_ACK | Sequence(rxSeq)
    ensures AckFlags(rxSeq, FLAG_NACK) == Sequence(rxSeq)
  {
  }

  /** An accepted packet with an id is acknowledged, once, under its own sequence; nothing else is. */
  lemma AcceptedIsAcknowledged(l: State)
    ensures var r := Receive(l);
      var t := ReceiveTable(l);
      if r.outcome == Exit || (!Accepted(r.outcome.status) && !r.link.connected) then t == r
      else if !Accepted(r.outcome.status) then
        && t.pkt == r.pkt && t.outcome == WaitForAck(SendAck(r.link, FLAG_NACK)).outcome
        && t.link.log == l.log + [AckFrame(Sequence(l.rxSeq))]
      else if r.pkt.payloadLen < ID_LENGTH then
        && t.outcome == Returned(SUCCESS) && t.pkt == r.pkt && t.link.log == l.log
        && t.link.rxSeq == Sequence(r.pkt.flags)
      else
        && t.outcome == r.outcome && t.pkt == r.pkt && Genuine(t.pkt)
        && t.link.log == l.log + [Heard(r.pkt.payload[..ID_LENGTH]), AckFrame(FLAG_ACK | Sequence(r.pkt.flags))]
        && t.link.rxSeq == Sequence(r.pkt.flags) + 1
  {
    AcceptedIsGenuine(l);
    ReceiveListens(l);
    var r := Receive(l);
    AckFlagsPlain(r.pkt.flags, 0);
    AckFlagsPlain(l.rxSeq, 0);
    WaitListens(SendAck(r.link, FLAG_NACK));
    hide Receive, Genuine, Accepted, AckFlags, Sequence, DecodeId, Frame, WaitForAck;
  }

  lemma YieldsFirst(r: Received, p: Packet, status: Status, rest: seq<(Packet, Status)>)
    requires Yields(r, [(p, status)] + rest) && !Has(p.flags, FLAG_DISCONNECT)
    ensures r.pkt == p && r.outcome == Returned(Flag(status, Has(p.flags, FLAG_RETRY), ERROR_RETRY))
    ensures Up(r.link) && Receptions(Fresh(), BytesRead(r.link.script)) == rest
  {
    hide Flag, Has, Receptions, Fresh, Steady, CarrierHolds, BytesRead;
    assert ([(p, status)] + rest)[1..] == rest;
  }

  lemma UpAfterAck(l: State, flags: byte)
    requires Up(l)
    ensures l.connected && Up(SendAck(l, flags)) && SendAck(l, flags).script == l.script
  {
    hide Frame, AckFlags;
  }

  lemma RefusedTable(l: State)
    requires var r := Receive(l); r.outcome.Returned? && !Accepted(r.outcome.status) && r.link.connected
    ensures var r := Receive(l);
      var w := WaitForAck(SendAck(r.link, FLAG_NACK));
      ReceiveTable(l) == Received(w.link, r.pkt, w.outcome)
  {
    hide Receive, WaitForAck, SendAck, Accepted;
  }

  /** A table reported as received is genuine exactly if the first reception was accepted: the guard before the retry. */
  lemma ReturnedGenuine(l: State)
    requires ReceiveTable(l).outcome == Returned(SUCCESS)
    ensures Genuine(ReceiveTable(l).pkt) <==> Accepted(Receive(l).outcome.status)
  {
    AcceptedExactly(l);
    AcceptedIsAcknowledged(l);
    assert Accepted(SUCCESS);
    hide Receive, Genuine, Accepted, Sequence, WaitForAck, Has, Err, AckFrame, Frame;
  }

  /**
   * On every line: an answer is positive exactly if it is a genuine packet without the retry flag that has data or the
   * ACK flag; one with neither is a negative acknowledgement, and anything else is reported as it was received.
   */
  lemma PositiveAnswer(l: State)
    ensures var r := Receive(l);
      var outcome := WaitForAck(l).outcome;
      && (outcome == Returned(SUCCESS) <==>
        && l.connected && r.outcome.Returned? && Genuine(r.pkt)
        && !Has(r.pkt.flags, FLAG_RETRY) && (r.pkt.payloadLen > 0 || Has(r.pkt.flags, FLAG_ACK)))
      && (outcome == if outcome == Returned(SUCCESS) then outcome
        else if !l.connected then Returned(ERROR_DISCONNECT)
        else if r.outcome.Returned? && Genuine(r.pkt) && !Has(r.pkt.flags, FLAG_RETRY) then Returned(ERROR_NACK)
        else r.outcome)
  {
    ReceptionJudged(l);
    FlagStatuses(Receive(l).pkt.flags);
    FaultFacts();
    assert ERROR_NACK != SUCCESS && ERROR_RETRY != SUCCESS && ERROR_RETRY != ERROR_DISCONNECT && ERROR_DISCONNECT != SUCCESS;
    assert ERROR_RETRY != 3 && ERROR_DISCONNECT != 3 && SUCCESS != 3;
    hide Receive, Genuine, Has, Fault, FlagStatus;
  }

  /** Which intact packets are taken for a positive answer. */
  predicate TakenForSuccess(flags: byte, data: seq<byte>) {
    !Has(flags, FLAG_RETRY) && (data != [] || Has(flags, FLAG_ACK))
  }

  lemma YieldsPacketWithFlags(r: Received, p: Packet, status: Status, rest: seq<(Packet, Status)>)
    requires Yields(r, [(p, status)] + rest)
    ensures r.pkt == p && r.outcome == Returned(WithFlags((p, status)).1)
    ensures r.link.connected == !Has(p.flags, FLAG_DISCONNECT)
    ensures r.link.connected ==> Up(r.link)
    ensures Receptions(Fresh(), BytesRead(r.link.script)) == rest
  {
    hide Flag, Has, Receptions, Fresh, Steady, CarrierHolds, BytesRead, WithFlags;
    assert ([(p, status)] + rest)[1..] == rest;
  }

  lemma AnswerStatus(p: Packet)
    ensures var s := WithFlags((p, SUCCESS)).1;
      (s == SUCCESS || s == ERROR_DISCONNECT) <==> !Has(p.flags, FLAG_RETRY)
    ensures var s := WithFlags((p, ERROR_CRC)).1;
      s != SUCCESS && !Accepted(s) && s != 3 && s != ERROR_DISCONNECT
    ensures ERROR_NACK != SUCCESS
  {
    hide Has;
  }

  /** An intact packet as the answer: success is reported exactly for those taken for success. */
  lemma AnsweredBy(l: State, flags: byte, data: seq<byte>, rest: seq<byte>)
    requires |data| <= PAYLOAD_MAX && Up(l)
    requires Receptions(Fresh(), BytesRead(l.script)) == Receptions(Fresh(), Frame(flags, data) + rest)
    ensures WaitForAck(l).outcome == Returned(SUCCESS) <==> TakenForSuccess(flags, data)
    ensures Receptions(Fresh(), BytesRead(WaitForAck(l).link.script)) == Receptions(Fresh(), rest)
  {
    UpIsConnected(l);
    hide *;
    var good := SentDelivery(flags, data);
    SentFrame(flags, data, rest);
    DeliveredIntact(flags, data, []);
    IntactFacts(good, flags, data);
    ReceiveYields(l);
    YieldsPacketWithFlags(Receive(l), good.0, SUCCESS, Receptions(Fresh(), rest));
    AnswerStatus(good.0);
    WaitedFor(l, flags, data);
  }

  lemma UpIsConnected(l: State)
    requires Up(l)
    ensures l.connected
  {
  }

  lemma WaitedFor(l: State, flags: byte, data: seq<byte>)
    requires l.connected && Receive(l).outcome.Returned?
    requires Receive(l).pkt.flags == flags && Receive(l).pkt.payloadLen == |data| && ERROR_NACK != SUCCESS
    requires var s := Receive(l).outcome.status; (s == SUCCESS || s == ERROR_DISCONNECT) <==> !Has(flags, FLAG_RETRY)
    ensures WaitForAck(l).link == Receive(l).link
    ensures WaitForAck(l).outcome == Returned(SUCCESS) <==> TakenForSuccess(flags, data)
  {
    hide Receive, Has;
  }

  /** Which intact packets refuse what was sent without ending the connection, such as an empty one without flags. */
  predicate Refusal(flags: byte, data: seq<byte>) {
    |data| <= PAYLOAD_MAX && !TakenForSuccess(flags, data) && !Has(flags, FLAG_DISCONNECT)
  }

  lemma EmptyFrameRefuses()
    ensures Refusal(FLAG_NACK, [])
  {
  }

  lemma RefusedBy(l: State, flags: byte, data: seq<byte>, rest: seq<byte>)
    requires Refusal(flags, data) && Up(l)
    requires Receptions(Fresh(), BytesRead(l.script)) == Receptions(Fresh(), Frame(flags, data) + rest)
    ensures var w := WaitForAck(l);
      && w.outcome.Returned? && w.outcome.status != SUCCESS && Up(w.link)
      && Receptions(Fresh(), BytesRead(w.link.script)) == Receptions(Fresh(), rest)
  {
    assert |data| <= PAYLOAD_MAX && !TakenForSuccess(flags, data) && !Has(flags, FLAG_DISCONNECT);
    UpIsConnected(l);
    hide *;
    var good := SentDelivery(flags, data);
    SentFrame(flags, data, rest);
    DeliveredIntact(flags, data, []);
    IntactFacts(good, flags, data);
    ReceiveYields(l);
    YieldsPacketWithFlags(Receive(l), good.0, SUCCESS, Receptions(Fresh(), rest));
    AnswerStatus(good.0);
    WaitedFor(l, flags, data);
  }

  /** The same answer n times, and then rest. */
  function Answers(flags: byte, data: seq<byte>, n: nat, rest: seq<byte>): seq<byte>
    requires |data| <= PAYLOAD_MAX
  {
    if n == 0 then rest else Frame(flags, data) + Answers(flags, data, n - 1, rest)
  }

  lemma AnswersStep(flags: byte, data: seq<byte>, n: nat, rest: seq<byte>)
    requires |data| <= PAYLOAD_MAX && n > 0
    ensures Answers(flags, data, n, rest) == Frame(flags, data) + Answers(flags, data, n - 1, rest)
  {
    hide Frame;
  }

  lemma WrittenSame(l: State, chunk: seq<byte>)
    requires |chunk| <= DATA_MAX && Up(l)
    ensures Up(Written(l, chunk)) && Written(l, chunk).script == l.script
  {
    hide DataFrame, EncodeId;
  }

  lemma RefusedOnce(l: State, chunk: seq<byte>, flags: byte, data: seq<byte>, rest: seq<byte>, retries: nat, status: Status)
    requires |chunk| <= DATA_MAX && retries < MAX_RETRIES && Refusal(flags, data) && Up(l)
    requires Receptions(Fresh(), BytesRead(l.script)) == Receptions(Fresh(), Frame(flags, data) + rest)
    ensures var w := WaitForAck(Written(l, chunk));
      && w.outcome.Returned? && Up(w.link) && Receptions(Fresh(), BytesRead(w.link.script)) == Receptions(Fresh(), rest)
      && SendLoop(l, chunk, retries, status) == SendLoop(w.link, chunk, retries + 1, w.outcome.status)
  {
    UpIsConnected(l);
    hide *;
    WrittenSame(l, chunk);
    RefusedBy(Written(l, chunk), flags, data, rest);
    SendLoopStep(l, chunk, retries, status);
  }

  /** A failure while the connection is up. */
  predicate Abandoned(s: Link.Sent) { s.outcome.Returned? && s.outcome != Returned(SUCCESS) && s.link.connected }

  lemma LastAttempt(l: State, chunk: seq<byte>, status: Status)
    requires |chunk| <= DATA_MAX && Up(l)
    ensures Abandoned(SendLoop(l, chunk, MAX_RETRIES, status))
  {
    UpIsConnected(l);
    hide SendLoop, Up;
    SendLoopStep(l, chunk, MAX_RETRIES, status);
    Transfer.FailureIsNoSuccess(status);
  }

  /** With n attempts left. */
  lemma {:induction false} RefusedToTheEnd(l: State, chunk: seq<byte>, flags: byte, data: seq<byte>, rest: seq<byte>,
    n: nat, status: Status)
    requires |chunk| <= DATA_MAX && n <= MAX_RETRIES && Refusal(flags, data) && Up(l)
    requires |data| <= PAYLOAD_MAX && Receptions(Fresh(), BytesRead(l.script)) == Receptions(Fresh(), Answers(flags, data, n, rest))
    ensures Abandoned(SendLoop(l, chunk, MAX_RETRIES - n, status))
    decreases n
  {
    hide *;
    if n == 0 {
      LastAttempt(l, chunk, status);
    } else {
      var more := Answers(flags, data, n - 1, rest);
      AnswersStep(flags, data, n, rest);
      RefusedOnce(l, chunk, flags, data, more, MAX_RETRIES - n, status);
      var w := WaitForAck(Written(l, chunk));
      RefusedToTheEnd(w.link, chunk, flags, data, rest, n - 1, w.outcome.status);
    }
  }

  /**
   * A packet refused five times is given up: it was written five times under one sequence number, and although nobody
   * took it the connection stays up and the next packet goes out under the next number.
   */
  lemma GivenUp(l: State, chunk: seq<byte>, flags: byte, data: seq<byte>, rest: seq<byte>)
    requires |chunk| <= DATA_MAX && Refusal(flags, data) && Up(l)
    requires BytesRead(l.script) == Answers(flags, data, MAX_RETRIES, rest)
    ensures var s := SendData(l, chunk);
      && s.outcome.Returned? && s.outcome != Returned(SUCCESS)
      && s.link.connected && s.link.txSeq == l.txSeq + 1
      && s.link.log == l.log + ([Call(chunk)] + Transfer.Repeat(Transfer.Packaged(l, chunk), MAX_RETRIES))
  {
    SendDataIs(l, chunk);
    hide *;
    var n := Transfer.SendDataWrites(l, chunk);
    CallSame(l, chunk);
    RefusedToTheEnd(l.(log := l.log + [Call(chunk)]), chunk, flags, data, rest, MAX_RETRIES, SUCCESS);
  }

  /** Five empty frames without flags, which are negative acknowledgements, do that. */
  lemma NackedFiveTimes(l: State, chunk: seq<byte>, rest: seq<byte>)
    requires |chunk| <= DATA_MAX && Up(l) && BytesRead(l.script) == Answers(FLAG_NACK, [], MAX_RETRIES, rest)
    ensures var s := SendData(l, chunk);
      s.outcome.Returned? && s.outcome != Returned(SUCCESS) && s.link.connected && s.link.txSeq == l.txSeq + 1
  {
    EmptyFrameRefuses();
    GivenUp(l, chunk, FLAG_NACK, [], rest);
    hide SendData, Answers, Refusal, Transfer.Packaged, Transfer.Repeat, Up, BytesRead;
  }

  lemma SendDataIs(l: State, chunk: seq<byte>)
    requires |chunk| <= DATA_MAX && Up(l)
    ensures l.connected && SendData(l, chunk) == SendLoop(l.(log := l.log + [Call(chunk)]), chunk, 0, SUCCESS)
  {
    hide SendLoop;
  }

  lemma CallSame(l: State, chunk: seq<byte>)
    requires Up(l)
    ensures Up(l.(log := l.log + [Call(chunk)]))
  {
  }

  /**
   * A damaged packet and an intact one after it, whatever that is: the damaged one is reported as a success, and the
   * intact one is lost, exactly if the intact one is taken for a positive answer and the damaged one does not hang up.
   */
  lemma DamagedPacketReturned(l: State, flags: byte, data: seq<byte>, f: Flips, answer: seq<byte>, again: byte, rest: seq<byte>)
    requires |data| <= PAYLOAD_MAX && |f.data| == |data| && |answer| <= PAYLOAD_MAX
    requires Up(l) && BytesRead(l.script) == Xor(Frame(flags, data), f.Pattern() + [0]) + (Frame(again, answer) + rest)
    requires Crc16(0, f.Pattern()) != 0
    ensures var t := ReceiveTable(l);
      && !Genuine(t.pkt) && t.pkt.payloadLen == |data| && t.pkt.payload[..|data|] == Xor(data, f.data)
      && (t.outcome == Returned(SUCCESS) <==> TakenForSuccess(again, answer) && !Has(Flip(flags, f.flags), FLAG_DISCONNECT))
      && (t.outcome == Returned(SUCCESS) ==>
        && t.link.log == l.log + [AckFrame(Sequence(l.rxSeq))]
        && Receptions(Fresh(), BytesRead(t.link.script)) == Receptions(Fresh(), rest))
  {
    hide *;
    var r := Receive(l);
    var p := DamagedFrame(flags, data, f, Frame(again, answer) + rest);
    ReceiveYields(l);
    YieldsPacketWithFlags(r, p, ERROR_CRC, Receptions(Fresh(), Frame(again, answer) + rest));
    AnswerStatus(p);
    AcceptedExactly(l);
    AcceptedIsAcknowledged(l);
    if !Has(p.flags, FLAG_DISCONNECT) {
      UpAfterAck(r.link, FLAG_NACK);
      RefusedTable(l);
      AnsweredBy(SendAck(r.link, FLAG_NACK), again, answer, rest);
    }
  }

  lemma IntactFacts(r: (Packet, Status), flags: byte, data: seq<byte>)
    requires Intact(r, Frames.Sent.Sent([], flags, data))
    ensures r.1 == SUCCESS && r.0.flags == flags && r.0.payloadLen == |data|
  {
  }

  // ------------------------------------------------------------ waiting for a table acknowledgement

  lemma AckWritten(l: State, pkt: Packet)
    requires l.connected
    ensures var heard := NoteSequence(l, pkt);
      SendAck(Hear(heard, pkt), FLAG_ACK).log
        == l.log + [Heard(pkt.payload[..ID_LENGTH]), AckFrame(FLAG_ACK | Sequence(pkt.flags))]
  {
    AckFlagsPlain(pkt.flags, 0);
    hide AckFlags, Sequence, DecodeId, Frame;
  }

  /** Which bytes name the table: data when there are seven, otherwise the check bytes copied behind the data. */
  predicate NamedBy(pkt: Packet, tableId: byte) {
    if pkt.payloadLen >= 7 then pkt.payload[5] == TABLE_UPD_ACK && pkt.payload[6] == tableId
    else if pkt.payloadLen == 6 then pkt.payload[5] == TABLE_UPD_ACK && Lo(pkt.crc) == tableId
    else pkt.payloadLen == 5 && Lo(pkt.crc) == TABLE_UPD_ACK && Hi(pkt.crc) == tableId
  }

  lemma NamesByData(pkt: Packet, tableId: byte)
    requires Genuine(pkt) && pkt.payloadLen >= ID_LENGTH
    ensures Names(pkt, tableId) <==> NamedBy(pkt, tableId)
  {
    hide Lo, Hi, DataLength;
    var n := pkt.payloadLen;
    assert pkt.payload[n..n + 3][0] == pkt.payload[n] && pkt.payload[n..n + 3][1] == pkt.payload[n + 1];
  }

  // The wait goes round again after a packet too short for an id, and after a refused reception on a live connection.

  predicate GoesOn(l: State) {
    var r := Receive(l);
    && r.outcome.Returned?
    && if Accepted(r.outcome.status) then r.pkt.payloadLen < ID_LENGTH
      else r.link.connected && WaitForAck(SendAck(r.link, FLAG_RETRY)).outcome.Returned?
  }

  /** The state in which the next round starts. */
  function Again(l: State): State
    requires GoesOn(l)
  {
    var r := Receive(l);
    if Accepted(r.outcome.status) then NoteSequence(r.link, r.pkt) else
    var w := WaitForAck(SendAck(r.link, FLAG_RETRY));
    if w.link.connected then SendAck(w.link, FLAG_ACK) else w.link
  }

  lemma AgainShrinks(l: State)
    requires GoesOn(l)
    ensures |Again(l).script| < |l.script|
    ensures forall id :: WaitForTableAck(l, id) == WaitForTableAck(Again(l), id)
  {
    forall id
      ensures WaitForTableAck(l, id) == WaitForTableAck(Again(l), id) && |Again(l).script| < |l.script|
    {
      WaitForTableAckStep(l, id);
      hide Receive, WaitForAck, WaitForTableAck, Accepted, SendAck;
    }
    WaitForTableAckStep(l, 0);
    hide Receive, WaitForAck, WaitForTableAck, Accepted, SendAck;
  }

  /** The state in which the last round of a wait starts; it does not depend on the table waited for. */
  function LastRound(l: State): State
    decreases |l.script|
  {
    hide *;
    if GoesOn(l) then AgainShrinks(l); LastRound(Again(l)) else l
  }

  /** What a later round starts with: fewer reads of the same line, and acknowledgements added to the history. */
  predicate Later(l: State, m: State) {
    && |m.script| <= |l.script| && m.script == l.script[|l.script| - |m.script|..]
    && l.log <= m.log && forall k :: |l.log| <= k < |m.log| ==> m.log[k].AckSent?
  }

  lemma LaterStill(l: State, m: State, n: State)
    requires Later(l, m) && Later(m, n)
    ensures Later(l, n)
  {
    assert n.script == l.script[|l.script| - |n.script|..];
    forall k | |l.log| <= k < |n.log|
      ensures n.log[k].AckSent?
    {
      if k < |m.log| {
        assert n.log[k] == m.log[k];
      }
    }
  }

  lemma LaterSelf(l: State)
    ensures Later(l, l)
  {
    assert l.script[0..] == l.script;
  }

  lemma ReadOn(l: State, m: State)
    requires l.script != [] && m.script == l.script[1..] && m.log == l.log
    ensures Later(l, m)
  {
  }

  lemma SameLine(l: State, m: State)
    requires m.script == l.script && m.log == l.log
    ensures Later(l, m)
  {
    LaterSelf(l);
  }

  lemma {:induction false} LoopReadsOn(l: State, c: Reception, timeout: nat)
    requires Sound(c) && !c.done
    ensures Later(l, ReceiveLoop(l, c, timeout).link)
    decreases |l.script|
  {
    hide *;
    ReceiveLoopStep(l, c, timeout);
    var end := ReceiveLoop(l, c, timeout).link;
    if l.script == [] {
      LaterSelf(l);
    } else {
      var next := l.(script := l.script[1..]);
      ReadOn(l, next);
      PolledSame(next);
      SameLine(next, Polled(next));
      SameLine(next, Disconnect(next));
      SameLine(next, Disconnect(Polled(next)));
      LaterSelf(next);
      match l.script[0] {
        case Silence =>
          if ReceiveLoop(l, c, timeout) == ReceiveLoop(Polled(next), c, timeout + 1) {
            LoopReadsOn(Polled(next), c, timeout + 1);
            LaterStill(next, Polled(next), end);
          }
        case Broken =>
        case Data(b) =>
          var d := Accept(c, b);
          if d.done {
            CompleteSame(next, d.pkt.CopyTrailer(), d.status);
            SameLine(next, end);
          } else {
            LoopReadsOn(next, d, 0);
          }
      }
      LaterStill(l, next, end);
    }
  }

  lemma PolledSame(l: State)
    ensures Polled(l).script == l.script && Polled(l).log == l.log
    ensures Disconnect(l).script == l.script && Disconnect(l).log == l.log
    ensures Disconnect(Polled(l)).script == l.script && Disconnect(Polled(l)).log == l.log
  {
  }

  lemma CompleteSame(l: State, p: Packet, status: Status)
    ensures Complete(l, p, status).link.script == l.script && Complete(l, p, status).link.log == l.log
  {
    CompleteIs(l, p, status);
    hide Complete;
  }

  lemma ReceiveReadsOn(l: State)
    ensures Later(l, Receive(l).link)
  {
    hide *;
    ReceiveStep(l);
    PolledSame(l);
    SameLine(l, Polled(l));
    SameLine(l, Disconnect(Polled(l)));
    LoopReadsOn(Polled(l), Fresh(), 0);
    LaterStill(l, Polled(l), ReceiveLoop(Polled(l), Fresh(), 0).link);
  }

  lemma AckLater(l: State, flags: byte)
    ensures Later(l, SendAck(l, flags))
  {
    hide AckFlags, Frame;
    assert l.script[0..] == l.script;
  }

  lemma WaitReadsOn(l: State)
    ensures Later(l, WaitForAck(l).link)
  {
    ReceiveReadsOn(l);
    LaterSelf(l);
    hide Receive, Later;
  }

  lemma AgainLater(l: State)
    requires GoesOn(l)
    ensures Later(l, Again(l))
  {
    hide Receive, WaitForAck, Accepted, SendAck, Later;
    var r := Receive(l);
    ReceiveReadsOn(l);
    if Accepted(r.outcome.status) {
      NotedSame(r.link, r.pkt);
      SameLine(r.link, Again(l));
      LaterStill(l, r.link, Again(l));
    } else {
      var asked := SendAck(r.link, FLAG_RETRY);
      var w := WaitForAck(asked).link;
      AckLater(r.link, FLAG_RETRY);
      WaitReadsOn(asked);
      AckLater(w, FLAG_ACK);
      LaterSelf(w);
      LaterStill(l, r.link, asked);
      LaterStill(l, asked, w);
      LaterStill(l, w, Again(l));
    }
  }

  lemma NotedSame(l: State, p: Packet)
    ensures NoteSequence(l, p).script == l.script && NoteSequence(l, p).log == l.log
  {
  }

  lemma LastRoundStep(l: State)
    ensures LastRound(l) == if GoesOn(l) then LastRound(Again(l)) else l
  {
    hide GoesOn, Again;
  }

  /** The last round is one the wait itself comes to: on the same line, and with only acknowledgements sent before. */
  lemma {:induction false} LastRoundLater(l: State)
    ensures Later(l, LastRound(l)) && !GoesOn(LastRound(l))
    ensures forall id :: WaitForTableAck(l, id) == WaitForTableAck(LastRound(l), id)
    decreases |l.script|
  {
    hide *;
    LastRoundStep(l);
    LaterSelf(l);
    if GoesOn(l) {
      AgainShrinks(l);
      AgainLater(l);
      LastRoundLater(Again(l));
      LaterStill(l, Again(l), LastRound(l));
    }
  }

  /** A reception that is accepted and names the table. */
  predicate NamingReception(r: Received, tableId: byte) {
    && r.outcome.Returned? && Accepted(r.outcome.status) && Genuine(r.pkt)
    && r.pkt.payloadLen >= ID_LENGTH && NamedBy(r.pkt, tableId)
  }

  /**
   * The wait for a table acknowledgement succeeds exactly if the packet received in its last round is genuine, is
   * accepted and names the table; that packet is then acknowledged once, and nothing else is done.
   */
  lemma AckedByNamingPacket(l: State, tableId: byte)
    ensures var m := LastRound(l);
      var r := Receive(m);
      var (end, result) := WaitForTableAck(l, tableId);
      && Later(l, m)
      && (result == Acked <==> NamingReception(r, tableId))
      && (result == Acked ==>
        && end == SendAck(Hear(NoteSequence(r.link, r.pkt), r.pkt), FLAG_ACK)
        && end.log == m.log + [Heard(r.pkt.payload[..ID_LENGTH]), AckFrame(FLAG_ACK | Sequence(r.pkt.flags))])
  {
    LastRoundLater(l);
    var m := LastRound(l);
    var r := Receive(m);
    AcceptedIsGenuine(m);
    SameLog(m);
    WaitForTableAckStep(m, tableId);
    if r.outcome.Returned? && Accepted(r.outcome.status) && r.pkt.payloadLen >= ID_LENGTH {
      NamesByData(r.pkt, tableId);
      AckWritten(r.link, r.pkt);
    }
    hide LastRound, Later, Receive, Genuine, NamedBy, Names, Accepted, SendAck, Hear,
      NoteSequence, AckFrame, WaitForTableAck, WaitForAck, Sequence;
  }

  lemma SameLog(l: State)
    ensures Receive(l).link.log == l.log
  {
    hide Receive;
    ReceiveListens(l);
  }

  /** A packet that carries nothing but a terminal id, chosen so that its checksum reads as an acknowledgement. */
  const BARE_ID: seq<byte> := [0x00, 0x00, 0x00, 0x14, 0x06]
  const UNNAMED_TABLE: byte := 0x71

  lemma AbsorbSteps()
    ensures Absorb(0x0000, 0x02) == 0xC181 && Absorb(0xC181, 0x00) == 0x6001 && Absorb(0x6001, 0x0A) == 0xC721
    ensures Absorb(0xC721, 0x00) == 0x1807 && Absorb(0x1807, 0x00) == 0xC259 && Absorb(0xC259, 0x00) == 0x3A02
    ensures Absorb(0x3A02, 0x14) == 0xCEBB && Absorb(0xCEBB, 0x06) == 0x710E
  {
  }

  lemma CrcStep(c: bv16, b: byte, s: seq<byte>)
    ensures Crc16(c, [b] + s) == Crc16(Absorb(c, b), s)
  {
    hide Absorb;
    assert ([b] + s)[1..] == s;
  }

  lemma BareIdBody()
    ensures FrameBody(0, BARE_ID) == [0x02] + ([0x00] + ([0x0A] + ([0x00] + ([0x00] + ([0x00] + ([0x14] + ([0x06] + [])))))))
  {
    assert LengthByte(5) == 0x0A;
  }

  lemma EmptyCrc(c: bv16)
    ensures Crc16(c, []) == c
  {
  }

  lemma BareIdChecksum()
    ensures Crc16(0, FrameBody(0, BARE_ID)) == 0x710E
  {
    hide *;
    AbsorbSteps();
    BareIdBody();
    CrcStep(0x0000, 0x02, [0x00] + ([0x0A] + ([0x00] + ([0x00] + ([0x00] + ([0x14] + ([0x06] + [])))))));
    CrcStep(0xC181, 0x00, [0x0A] + ([0x00] + ([0x00] + ([0x00] + ([0x14] + ([0x06] + []))))));
    CrcStep(0x6001, 0x0A, [0x00] + ([0x00] + ([0x00] + ([0x14] + ([0x06] + [])))));
    CrcStep(0xC721, 0x00, [0x00] + ([0x00] + ([0x14] + ([0x06] + []))));
    CrcStep(0x1807, 0x00, [0x00] + ([0x14] + ([0x06] + [])));
    CrcStep(0xC259, 0x00, [0x14] + ([0x06] + []));
    CrcStep(0x3A02, 0x14, [0x06] + []);
    CrcStep(0xCEBB, 0x06, []);
    EmptyCrc(0x710E);
  }

  /** The whole packet as it goes over the line. */
  lemma BareIdFrame()
    ensures Frame(0, BARE_ID) == [0x02, 0x00, 0x0a, 0x00, 0x00, 0x00, 0x14, 0x06, 0x0e, 0x71, 0x03]
  {
    hide Crc16;
    BareIdChecksum();
    BareIdBody();
    assert Lo(0x710E) == 0x0e && Hi(0x710E) == 0x71;
  }

  lemma SentChecksum(flags: byte, data: seq<byte>)
    requires |data| <= PAYLOAD_MAX
    ensures SentDelivery(flags, data).0.crc == Crc16(0, FrameBody(flags, data))
  {
    hide Crc16, DataLength, LengthByte, Lo, Hi, Word16;
    FrameLength(|data|);
    WordSplit(Crc16(0, FrameBody(flags, data)));
  }

  lemma BareIdNames(p: Packet)
    requires p.payloadLen == 5 && p.crc == 0x710E
    ensures NamedBy(p, UNNAMED_TABLE) && !Has(0, FLAG_DISCONNECT) && !Has(0, FLAG_RETRY)
  {
  }

  /** An intact packet without any data can be taken for the acknowledgement of a table it never mentions. */
  lemma BareIdAcknowledges(l: State, rest: seq<byte>)
    requires Up(l) && BytesRead(l.script) == Frame(0, BARE_ID) + rest
    ensures WaitForTableAck(l, UNNAMED_TABLE).1 == Acked
  {
    assert |BARE_ID| == ID_LENGTH == 5 && |BARE_ID| <= PAYLOAD_MAX;
    assert Accepted(SUCCESS);
    hide *;
    var r := Receive(l);
    var sent := SentDelivery(0, BARE_ID);
    ReceiveYields(l);
    SentFrame(0, BARE_ID, rest);
    DeliveredIntact(0, BARE_ID, []);
    IntactFacts(sent, 0, BARE_ID);
    BareIdChecksum();
    SentChecksum(0, BARE_ID);
    BareIdNames(sent.0);
    YieldsFirst(r, sent.0, sent.1, Receptions(Fresh(), rest));
    FlagSticks(sent.1, false, ERROR_RETRY, 0);
    AcceptedIsGenuine(l);
    NamesByData(r.pkt, UNNAMED_TABLE);
    WaitForTableAckStep(l, UNNAMED_TABLE);
  }

  // ------------------------------------------------------------ bounded waiting

  /** The last k reads of a script found nothing. */
  predicate EndsSilent(s: seq<Read>, k: nat) {
    k <= |s| && forall i :: |s| - k <= i < |s| ==> s[i] == Silence
  }

  predicate EndStatus(status: Status) { status in {SUCCESS, ERROR_CRC, ERROR_FRAMING, ERROR_CRC | ERROR_FRAMING} }

  lemma TimeoutIsOwnStatus(c: Reception, p: Packet, l: State)
    requires EndStatus(c.status)
    ensures Complete(l, p, c.status).outcome != Returned(ERROR_TIMEOUT)
  {
    hide Has;
  }

  lemma StatusStaysSmall(c: Reception, b: byte)
    requires Sound(c) && !c.done && SmallStatus(c.status)
    ensures var d := Accept(c, b); if d.done then EndStatus(d.status) else SmallStatus(d.status)
  {
    SmallFlags();
    hide DataLength, Join, Crc16, Flag;
  }

  lemma SmallFlags()
    ensures forall bad :: Flag(SUCCESS, bad, ERROR_CRC) in {SUCCESS, ERROR_CRC} && Flag(ERROR_CRC, bad, ERROR_CRC) == ERROR_CRC
    ensures forall bad :: Flag(SUCCESS, bad, ERROR_FRAMING) in {SUCCESS, ERROR_FRAMING}
    ensures forall bad :: Flag(ERROR_CRC, bad, ERROR_FRAMING) in {ERROR_CRC, ERROR_CRC | ERROR_FRAMING}
  {
  }

  /** The reads before rest end with eleven empty ones, or are all empty and eleven with the silent ones before. */
  predicate EndedSilent(script: seq<Read>, rest: seq<Read>, silent: nat) {
    var n := |script| - |rest|;
    && 0 < n && rest == script[n..]
    && (EndsSilent(script[..n], TIMEOUT_MAX + 1) || (n + silent == TIMEOUT_MAX + 1 && EndsSilent(script[..n], n)))
  }

  lemma LastSilence(script: seq<Read>)
    requires script != [] && script[0] == Silence
    ensures EndedSilent(script, script[1..], TIMEOUT_MAX)
  {
  }

  lemma OneReadBefore(script: seq<Read>, rest: seq<Read>, silent: nat, later: nat)
    requires script != [] && |rest| <= |script| && EndedSilent(script[1..], rest, later)
    requires later == 0 || (script[0] == Silence && later == silent + 1)
    ensures EndedSilent(script, rest, silent)
  {
    var tail := script[1..];
    var n := |tail| - |rest|;
    Prepend(script, n);
    assert tail[n..] == script[n + 1..];
    hide EndsSilent;
  }

  lemma Prepend(s: seq<Read>, n: nat)
    requires n < |s|
    ensures forall k :: EndsSilent(s[1..][..n], k) ==> EndsSilent(s[..n + 1], k)
    ensures s[0] == Silence && EndsSilent(s[1..][..n], n) ==> EndsSilent(s[..n + 1], n + 1)
  {
    assert s[..n + 1] == [s[0]] + s[1..][..n];
  }

  predicate SmallStatus(status: Status) { status == SUCCESS || status == ERROR_CRC }

  /** A timeout is reported only after eleven consecutive empty reads, counting those before. */
  lemma {:induction false} LoopTimeout(l: State, c: Reception, silent: nat)
    requires Sound(c) && !c.done && SmallStatus(c.status) && silent <= TIMEOUT_MAX && l.connected
    requires ReceiveLoop(l, c, silent).outcome == Returned(ERROR_TIMEOUT)
    ensures EndedSilent(l.script, ReceiveLoop(l, c, silent).link.script, silent)
    decreases |l.script|
  {
    assert TIMEOUT_MAX == 10;
    hide *;
    GivingUpIsNoAcceptance();
    if l.script == [] {
      LoopExits(l, c, silent);
    } else {
      var next := l.(script := l.script[1..]);
      PolledScript(next);
      PolledConnected(next);
      var end := ReceiveLoop(l, c, silent).link;
      match l.script[0] {
        case Silence =>
          LoopWaits(l, c, silent);
          if silent < TIMEOUT_MAX {
            LoopTimeout(Polled(next), c, silent + 1);
            OneReadBefore(l.script, end.script, silent, silent + 1);
          } else {
            LastSilence(l.script);
          }
        case Data(b) =>
          LoopAccepts(l, c, silent, b);
          StatusStaysSmall(c, b);
          var d := Accept(c, b);
          if d.done {
            TimeoutIsOwnStatus(d, d.pkt.CopyTrailer(), next);
          } else {
            LoopTimeout(next, d, 0);
            OneReadBefore(l.script, end.script, silent, 0);
          }
        case Broken =>
          LoopBreaks(l, c, silent);
      }
    }
  }

  /** Reception gives up only after eleven consecutive empty reads. */
  lemma TimeoutMeansSilence(l: State)
    requires Receive(l).outcome == Returned(ERROR_TIMEOUT)
    ensures var rest := Receive(l).link.script;
      var n := |l.script| - |rest|;
      n > 0 && rest == l.script[n..] && EndsSilent(l.script[..n], TIMEOUT_MAX + 1)
  {
    ReceiveStep(l);
    GivingUpIsNoAcceptance();
    PolledScript(l);
    PolledConnected(l);
    hide Receive, ReceiveLoop, Sound, EndsSilent;
    assert SmallStatus(Fresh().status);
    LoopTimeout(Polled(l), Fresh(), 0);
  }

  /** A connected link whose next n reads find nothing while the carrier is there for the next polls polls. */
  predicate Quiet(l: State, n: nat, polls: nat) {
    l.connected && CarrierHolds(l, polls) && n <= |l.script| && forall i :: 0 <= i < n ==> l.script[i] == Silence
  }

  /** The carrier, if monitored, was polled exactly n times. */
  predicate Polls(l: State, m: State, n: nat) {
    m.monitorCarrier == l.monitorCarrier && (l.monitorCarrier ==> |m.carrier| + n == |l.carrier|)
  }

  lemma MorePolls()
    ensures forall l, m, n, k: nat :: Polls(l, m, 1) && Polls(m, n, k) ==> Polls(l, n, k + 1)
  {
  }

  lemma OnePoll(l: State, m: State)
    requires m.monitorCarrier == l.monitorCarrier && m.carrier == l.carrier && !CarrierLost(m)
    ensures Polls(l, Polled(m), 1)
  {
  }

  lemma QuietRead(l: State, n: nat, polls: nat)
    requires Quiet(l, n + 1, polls + 1)
    ensures l.script != [] && l.script[0] == Silence
    ensures var next := l.(script := l.script[1..]);
      && next.connected && !CarrierLost(next) && Quiet(Polled(next), n, polls) && Polled(next).script == l.script[1..]
      && Polls(l, Polled(next), 1)
  {
    CarrierStep(l.(script := l.script[1..]), polls);
    OnePoll(l, l.(script := l.script[1..]));
    hide CarrierHolds, CarrierLost, Polled;
  }

  /** And it does give up then, wherever in a packet it is; polls is what the carrier lasts for after that. */
  lemma {:induction false} ElevenSilencesTimeOut(l: State, c: Reception, silent: nat, polls: nat)
    requires Sound(c) && !c.done && silent <= TIMEOUT_MAX
    requires Quiet(l, TIMEOUT_MAX + 1 - silent, TIMEOUT_MAX + 1 - silent + polls)
    ensures var r := ReceiveLoop(l, c, silent);
      && r.outcome == Returned(ERROR_TIMEOUT) && TIMEOUT_MAX + 1 - silent <= |l.script|
      && r.link.script == l.script[TIMEOUT_MAX + 1 - silent..] && Quiet(r.link, 0, polls)
      && Polls(l, r.link, TIMEOUT_MAX + 1 - silent)
    decreases TIMEOUT_MAX - silent
  {
    hide ReceiveLoop, Sound, Quiet, Polled, CarrierLost, Polls;
    MorePolls();
    QuietRead(l, TIMEOUT_MAX - silent, TIMEOUT_MAX - silent + polls);
    LoopWaits(l, c, silent);
    if silent < TIMEOUT_MAX {
      ElevenSilencesTimeOut(Polled(l.(script := l.script[1..])), c, silent + 1, polls);
    }
  }

  // ------------------------------------------------------------ unbounded waiting

  /** Reads, and polls of the carrier, of a reception that times out. */
  const READS: nat := TIMEOUT_MAX + 1
  const POLLS: nat := TIMEOUT_MAX + 2

  lemma QuietPolled(l: State, n: nat, polls: nat)
    requires Quiet(l, n, polls + 1)
    ensures !CarrierLost(l) && Quiet(Polled(l), n, polls) && Polled(l).script == l.script
  {
    CarrierStep(l, polls);
    hide CarrierHolds, CarrierLost, Polled;
  }

  /** The reads after the first k. */
  lemma QuietRest(l: State, m: State, k: nat, n: nat, polls: nat)
    requires Quiet(l, k + n, 0) && Quiet(m, 0, polls) && m.script == l.script[k..]
    ensures Quiet(m, n, polls)
  {
    hide CarrierHolds;
  }

  lemma QuietLess(l: State, n: nat, fewer: nat, polls: nat, less: nat)
    requires Quiet(l, n, polls) && fewer <= n && less <= polls
    ensures Quiet(l, fewer, less)
  {
  }

  /** A reception on a quiet line times out and leaves a quiet line behind. */
  lemma QuietReception(l: State, n: nat, polls: nat)
    requires Quiet(l, READS + n, POLLS + polls)
    ensures READS <= |l.script| && Receive(l).outcome == Returned(ERROR_TIMEOUT)
    ensures var m := Receive(l).link;
      m.script == l.script[READS..] && Quiet(m, n, polls) && m.rxSeq == l.rxSeq && m.log == l.log
  {
    assert READS == TIMEOUT_MAX + 1 && POLLS == READS + 1;
    hide Quiet, Receive, ReceiveLoop, Polled, CarrierLost, Sound;
    ReceiveStep(l);
    QuietPolled(l, READS + n, READS + polls);
    QuietConnected(Polled(l), READS + n, READS + polls);
    QuietLess(Polled(l), READS + n, READS, READS + polls, READS + polls);
    ElevenSilencesTimeOut(Polled(l), Fresh(), 0, polls);
    QuietLess(l, READS + n, READS + n, POLLS + polls, 0);
    QuietRest(l, Receive(l).link, READS, n, polls);
    ReceiveListens(l);
  }

  lemma QuietConnected(l: State, n: nat, polls: nat)
    requires Quiet(l, n, polls)
    ensures l.connected
  {
  }

  /** The frames of one round, by the receive sequence they are sent under. */
  function RetryRequest(rxSeq: byte): Event { AckFrame(FLAG_RETRY | Sequence(rxSeq)) }

  function Confirmation(rxSeq: byte): Event { AckFrame(FLAG_ACK | Sequence(rxSeq)) }

  lemma Kinds(rxSeq: byte)
    ensures AckKind(FLAG_RETRY) && AckKind(FLAG_ACK) && AckKind(FLAG_NACK)
    ensures AckFrame(FLAG_RETRY | Sequence(rxSeq)) == RetryRequest(rxSeq)
    ensures AckFrame(FLAG_ACK | Sequence(rxSeq)) == Confirmation(rxSeq)
  {
  }

  lemma QuietAck(l: State, flags: byte, n: nat, polls: nat)
    requires Quiet(l, n, polls) && AckKind(flags)
    ensures var m := SendAck(l, flags);
      && Quiet(m, n, polls) && m.script == l.script && m.rxSeq == l.rxSeq + 1
      && m.log == l.log + [AckFrame(flags | Sequence(l.rxSeq))]
  {
    AckFlagsAre(l.rxSeq, flags);
    hide AckFlags, Frame, Sequence;
  }

  lemma QuietAnswer(l: State, n: nat, polls: nat)
    requires Quiet(l, READS + n, POLLS + polls)
    ensures WaitForAck(l).link == Receive(l).link && WaitForAck(l).outcome.Returned?
  {
    QuietConnected(l, READS + n, POLLS + polls);
    QuietReception(l, n, polls);
    hide Receive;
  }

  /**
   * A round that is not the last: after an accepted packet without id its sequence is noted and nothing is written;
   * after a refused one a retry request, and a confirmation if the connection outlives the answer to that.
   */
  lemma RoundShows(l: State)
    requires GoesOn(l)
    ensures var r, m := Receive(l), Again(l);
      if Accepted(r.outcome.status) then m == r.link.(rxSeq := r.pkt.flags & 0x03) && m.log == l.log
      else
        var answered := WaitForAck(SendAck(r.link, FLAG_RETRY)).link.connected;
        && m.log == l.log + [RetryRequest(l.rxSeq)] + (if answered then [Confirmation(l.rxSeq + 1)] else [])
        && m.rxSeq == l.rxSeq + if answered then 2 else 1
    ensures forall id :: WaitForTableAck(l, id) == WaitForTableAck(Again(l), id)
  {
    AgainShrinks(l);
    if Accepted(Receive(l).outcome.status) {
      NotedRound(l);
    } else {
      RefusedRound(l);
    }
  }

  lemma NotedRound(l: State)
    requires GoesOn(l) && Accepted(Receive(l).outcome.status)
    ensures var r := Receive(l); Again(l) == r.link.(rxSeq := r.pkt.flags & 0x03) && r.link.log == l.log
  {
    SameLog(l);
    hide Receive, Accepted;
  }

  lemma AckShows(l: State)
    requires l.connected
    ensures SendAck(l, FLAG_RETRY).log == l.log + [RetryRequest(l.rxSeq)] && SendAck(l, FLAG_RETRY).rxSeq == l.rxSeq + 1
    ensures SendAck(l, FLAG_ACK).log == l.log + [Confirmation(l.rxSeq)] && SendAck(l, FLAG_ACK).rxSeq == l.rxSeq + 1
  {
    AckSends(l, FLAG_RETRY);
    AckSends(l, FLAG_ACK);
    hide Frame, SendAck;
  }

  lemma RefusedRound(l: State)
    requires GoesOn(l) && !Accepted(Receive(l).outcome.status)
    ensures var asked := SendAck(Receive(l).link, FLAG_RETRY);
      var answered := WaitForAck(asked).link.connected;
      && Again(l).log == l.log + [RetryRequest(l.rxSeq)] + (if answered then [Confirmation(l.rxSeq + 1)] else [])
      && Again(l).rxSeq == l.rxSeq + if answered then 2 else 1
  {
    var m := Receive(l).link;
    var w := WaitForAck(SendAck(m, FLAG_RETRY)).link;
    ReceiveListens(l);
    WaitListens(SendAck(m, FLAG_RETRY));
    hide Receive, WaitForAck, SendAck, Accepted, RetryRequest, Confirmation;
    AckShows(m);
    if w.connected {
      AckShows(w);
    }
  }

  /** What the terminal sees of a wait in vain: a request to repeat and an acknowledgement, again and again. */
  function Requests(seqNo: byte, n: nat): (events: seq<Event>)
    ensures |events| == 2 * n
    decreases n
  {
    hide RetryRequest, Confirmation;
    if n == 0 then [] else
    [RetryRequest(seqNo), Confirmation(seqNo + 1)] + Requests(seqNo + 2, n - 1)
  }

  /** An unanswered request, seen from where it is written. */
  lemma QuietRequest(l: State, n: nat, polls: nat)
    requires Quiet(l, READS + n, POLLS + polls)
    ensures READS <= |l.script|
    ensures var asked := SendAck(l, FLAG_RETRY);
      var w := WaitForAck(asked);
      var m := SendAck(w.link, FLAG_ACK);
      && w.outcome.Returned? && w.link.connected && Quiet(m, n, polls)
      && m.script == l.script[READS..] && m.rxSeq == l.rxSeq + 2
      && m.log == l.log + [RetryRequest(l.rxSeq), Confirmation(l.rxSeq + 1)]
  {
    hide *;
    Kinds(l.rxSeq);
    Kinds(l.rxSeq + 1);
    var asked := SendAck(l, FLAG_RETRY);
    var w := WaitForAck(asked).link;
    QuietAck(l, FLAG_RETRY, READS + n, POLLS + polls);
    QuietReception(asked, n, polls);
    QuietAnswer(asked, n, polls);
    QuietConnected(w, n, polls);
    QuietAck(w, FLAG_ACK, n, polls);
  }

  /** A quiet line takes the wait for a table acknowledgement one round further. */
  lemma QuietRound(l: State, n: nat, polls: nat)
    requires Quiet(l, READS + (READS + n), POLLS + (POLLS + polls))
    ensures GoesOn(l) && 2 * READS <= |l.script|
    ensures var m := Again(l);
      && Quiet(m, n, polls) && m.script == l.script[2 * READS..] && m.rxSeq == l.rxSeq + 2
      && m.log == l.log + [RetryRequest(l.rxSeq), Confirmation(l.rxSeq + 1)]
  {
    hide *;
    GivingUpIsNoAcceptance();
    var m := Receive(l).link;
    QuietReception(l, READS + n, POLLS + polls);
    QuietConnected(m, READS + n, POLLS + polls);
    QuietRequest(m, n, polls);
    AgainIs(l);
    DroppedTwice(l.script, READS, READS);
  }

  lemma DroppedTwice(s: seq<Read>, a: nat, b: nat)
    requires a <= |s| && b <= |s[a..]|
    ensures s[a..][b..] == s[a + b..]
  {
  }

  lemma AgainIs(l: State)
    requires var r := Receive(l); r.outcome.Returned? && !Accepted(r.outcome.status) && r.link.connected
    requires var w := WaitForAck(SendAck(Receive(l).link, FLAG_RETRY)); w.outcome.Returned? && w.link.connected
    ensures GoesOn(l) && Again(l) == SendAck(WaitForAck(SendAck(Receive(l).link, FLAG_RETRY)).link, FLAG_ACK)
  {
    hide Receive, WaitForAck, Accepted, SendAck;
  }

  /** After 22 * n more reads the wait is where it was: connected, with two frames written for each of n rounds. */
  ghost predicate Rounds(l: State, m: State, n: nat) {
    && 22 * n <= |l.script| && m.script == l.script[22 * n..] && m.connected
    && m.log == l.log + Requests(l.rxSeq, n)
    && forall id :: WaitForTableAck(l, id) == WaitForTableAck(m, id)
  }

  lemma NoRound(l: State)
    requires l.connected
    ensures Rounds(l, l, 0)
  {
    hide WaitForTableAck;
    assert l.script[0..] == l.script && l.log + [] == l.log;
  }

  lemma OneRound(l: State, next: State, m: State, n: nat)
    requires 22 <= |l.script| && next.script == l.script[22..] && next.rxSeq == l.rxSeq + 2
    requires next.log == l.log + [RetryRequest(l.rxSeq), Confirmation(l.rxSeq + 1)]
    requires forall id :: WaitForTableAck(l, id) == WaitForTableAck(next, id)
    requires Rounds(next, m, n)
    ensures Rounds(l, m, n + 1)
  {
    hide WaitForTableAck, AckFlags, AckFrame, Requests;
    DroppedTwice(l.script, 22, 22 * n);
    RequestsStep(l.rxSeq, n + 1, l.log);
  }

  lemma ReadsAndPolls()
    ensures READS == 11 && POLLS == 12
  {
  }

  /** The wait for a table acknowledgement has no bound: any number of rounds on a line quiet for long enough. */
  lemma {:induction false} NoBound(l: State, n: nat) returns (m: State)
    requires Quiet(l, 22 * n, 24 * n)
    ensures Rounds(l, m, n)
    decreases n
  {
    hide *;
    ReadsAndPolls();
    if n == 0 {
      QuietConnected(l, 0, 0);
      NoRound(l);
      m := l;
    } else {
      QuietRound(l, 22 * (n - 1), 24 * (n - 1));
      AgainShrinks(l);
      m := NoBound(Again(l), n - 1);
      OneRound(l, Again(l), m, n - 1);
    }
  }

  lemma RequestsStep(seqNo: byte, n: nat, log: seq<Event>)
    requires n > 0
    ensures log + Requests(seqNo, n)
      == log + [RetryRequest(seqNo), Confirmation(seqNo + 1)] + Requests(seqNo + 2, n - 1)
  {
    hide RetryRequest, Confirmation;
  }
}
