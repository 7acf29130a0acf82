/** The protocol context updated in place, each operation proved against its function on the link state. */
module Proto {
  import opened Crc
  import opened Packets
  import opened Framing
  import opened Phone
  import opened Capture
  import opened Link

  /** The checksum of header and data as far as they have arrived. */
  method Checksum(pkt: PacketBuffer) returns (calculated: bv16)
    requires pkt.Valid() && pkt.payloadLen <= PAYLOAD_MAX
    ensures var p := pkt.Value(); calculated == Crc16(Crc16(0, p.Header()), p.payload[..p.payloadLen])
  {
    hide Crc16;
    var header := ComputeCrc16(0, [pkt.start, pkt.flags, pkt.pktlen]);
    calculated := ComputeCrc16(header, pkt.payload[..][..pkt.payloadLen]);
  }

  /** The switch for check bytes and stop byte. */
  method SwitchTrailer(pkt: PacketBuffer, l2: L2, status: Status, b: byte)
    returns (next: L2, newStatus: Status, received: bool)
    requires pkt.Valid() && Sound(Reception(l2, pkt.Value(), status, false))
    requires l2 == GetCrc0 || l2 == GetCrc1 || l2 == SearchForStop
    modifies pkt
    ensures Reception(next, pkt.Value(), newStatus, received) == Accept(Reception(l2, old(pkt.Value()), status, false), b)
  {
    hide DataLength, Join, Flag, Crc16;
    next, newStatus, received := l2, status, false;
    match l2 {
      case GetCrc0 =>
        next, pkt.crc := GetCrc1, b as bv16;
      case GetCrc1 =>
        var calculated := Checksum(pkt);
        next, pkt.crc, pkt.calculated := SearchForStop, Join(pkt.crc, b), calculated;
        newStatus := Flag(status, pkt.crc != pkt.calculated, ERROR_CRC);
      case SearchForStop =>
        if b == STOP_BYTE {
          next := SearchForStart;
        }
        newStatus := Flag(status, b != STOP_BYTE, ERROR_FRAMING);
        pkt.end := b;
        received := true;
    }
  }

  /** One turn of the receive switch on a packet buffer. */
  method Switch(pkt: PacketBuffer, l2: L2, status: Status, b: byte) returns (next: L2, newStatus: Status, received: bool)
    requires pkt.Valid() && Sound(Reception(l2, pkt.Value(), status, false))
    modifies pkt, pkt.payload
    ensures Reception(next, pkt.Value(), newStatus, received) == Accept(Reception(l2, old(pkt.Value()), status, false), b)
  {
    hide DataLength, Join, Flag, Crc16;
    next, newStatus, received := l2, status, false;
    match l2 {
      case SearchForStart =>
        if b == START_BYTE {
          next, pkt.payloadLen, pkt.start := GetFlags, 0, b;
        }
      case GetFlags =>
        next, pkt.flags := GetLength, b;
      case GetLength =>
        pkt.pktlen := b;
        next := if pkt.pktlen > 5 then AccumulateData else GetCrc0;
      case AccumulateData =>
        pkt.payload[pkt.payloadLen] := b;
        pkt.payloadLen := pkt.payloadLen + 1;
        if pkt.payloadLen == DataLength(pkt.pktlen) {
          next := GetCrc0;
        }
      case _ =>
        next, newStatus, received := SwitchTrailer(pkt, l2, status, b);
    }
  }

  /** Header and data laid out in a cleared buffer. */
  method LayOut(pkt: PacketBuffer, flags: byte, data: seq<byte>)
    requires pkt.Valid() && |data| <= PAYLOAD_MAX
    modifies pkt, pkt.payload
    ensures var p := pkt.Value();
      && p.Header() == [START_BYTE, flags, LengthByte(|data|)]
      && p.payloadLen == |data| && p.payload[..|data|] == data
  {
    hide LengthByte;
    pkt.Clear();
    pkt.start, pkt.flags, pkt.payloadLen := START_BYTE, flags, |data|;
    for i := 0 to |data|
      invariant pkt.start == START_BYTE && pkt.flags == flags && pkt.payloadLen == |data|
      invariant pkt.payload[..i] == data[..i]
    {
      pkt.payload[i] := data[i];
    }
    pkt.pktlen := LengthByte(pkt.payloadLen);
  }

  /**
   * Header, data, checksum and stop byte laid out in one buffer, captured, and written from its start. The capture
   * shows the direction bit; the line does not.
   */
  method BuildFrame(pkt: PacketBuffer, flags: byte, data: seq<byte>) returns (record: seq<byte>, wire: seq<byte>)
    requires pkt.Valid() && |data| <= PAYLOAD_MAX
    modifies pkt, pkt.payload
    ensures wire == Frame(flags, data) && record == Shown(true, wire)
  {
    hide Crc16, LengthByte, Lo, Hi, Frame, Put, Marked, Unmarked, RecordLength, Shown, Captured;
    LayOut(pkt, flags, data);
    LengthByteExact(|data|);
    pkt.crc := Checksum(pkt);
    pkt.end := STOP_BYTE;
    ghost var p := pkt.Value();
    assert p.payload[..|data|] == data;
    Chaining(0, p.Header(), data);
    assert Holds(p, flags, data);
    pkt.CopyTrailer();
    RecordOfFrame(true, p, flags, data);
    record := AddRecord(true, pkt);
    StartByteRestored();
    LineOfFrame(p, flags, data);
    wire := ([pkt.start, pkt.flags, pkt.pktlen] + pkt.payload[..])[..RecordLength(pkt.pktlen)];
  }

  class Context {
    var connected: bool
    var rxSeq: byte
    var txSeq: byte
    const terminalId: array<byte>
    var monitorCarrier: bool
    /** The serial line: reads and carrier polls to come, and what has happened. */
    var script: seq<Read>
    var carrier: seq<bool>
    ghost var log: seq<Event>

    ghost predicate Valid() { terminalId.Length == 11 }

    ghost function Now(): State
      requires Valid()
      reads this, terminalId
    {
      State(connected, rxSeq, txSeq, terminalId[..], monitorCarrier, script, carrier, log)
    }

    /** Before the first call: not connected, no terminal known. */
    constructor (monitorCarrier: bool, script: seq<Read>, carrier: seq<bool>)
      ensures Valid() && fresh(terminalId)
      ensures Now() == State(false, 0, 0, seq(11, _ => 0), monitorCarrier, script, carrier, [])
    {
      connected, rxSeq, txSeq := false, 0, 0;
      terminalId := new byte[11](_ => 0);
      this.monitorCarrier, this.script, this.carrier, log := monitorCarrier, script, carrier, [];
      new;
      assert terminalId[..] == seq(11, _ => 0);
    }

    method Connect()
      requires Valid()
      modifies this
      ensures Now() == Link.Connect(old(Now()))
    {
      txSeq, connected := 0, true;
      log := log + [Opened];
    }

    method Disconnect()
      requires Valid()
      modifies this
      ensures Now() == Link.Disconnect(old(Now()))
    {
      txSeq, connected := 0, false;
    }

    /** Polls the carrier if it is monitored; a lost carrier disconnects. */
    method CheckCarrier() returns (lost: bool)
      requires Valid()
      modifies this
      ensures lost == CarrierLost(old(Now()))
      ensures Now() == if lost then Link.Disconnect(Polled(old(Now()))) else Polled(old(Now()))
    {
      lost := false;
      if monitorCarrier {
        lost := carrier == [] || !carrier[0];
        if carrier != [] {
          carrier := carrier[1..];
        }
        if lost {
          Disconnect();
        }
      }
    }

    /** Trailer, retry and disconnect flags of a complete packet. */
    method Finish(pkt: PacketBuffer, status: Status) returns (outcome: Outcome)
      requires Valid() && pkt.Valid() && pkt.payloadLen <= PAYLOAD_MAX
      modifies this, pkt, pkt.payload
      ensures Received(Now(), pkt.Value(), outcome) == Complete(old(Now()), old(pkt.Value()).CopyTrailer(), status)
    {
      hide Flag, Has, Packet.CopyTrailer;
      pkt.CopyTrailer();
      var s := Flag(status, Has(pkt.flags, FLAG_RETRY), ERROR_RETRY);
      if Has(pkt.flags, FLAG_DISCONNECT) {
        txSeq := 0;
        Disconnect();
        s := Flag(s, true, ERROR_DISCONNECT);
      }
      outcome := Returned(s);
    }

    /** An empty read: reception stops if the connection or the carrier is gone, or at the eleventh in a row. */
    method CountSilence(timeout: nat) returns (stop: bool, outcome: Outcome)
      requires Valid()
      modifies this
      ensures var l := old(Now());
        if !l.connected then stop && outcome == Returned(ERROR_DISCONNECT) && Now() == l
        else if CarrierLost(l) then stop && outcome == Returned(ERROR_NO_CARRIER) && Now() == Link.Disconnect(Polled(l))
        else Now() == Polled(l) && stop == (timeout + 1 > TIMEOUT_MAX) && (stop ==> outcome == Returned(ERROR_TIMEOUT))
    {
      hide CarrierLost, Polled, Link.Disconnect;
      stop, outcome := true, Returned(ERROR_DISCONNECT);
      if connected {
        stop := CheckCarrier();
        outcome := Returned(ERROR_NO_CARRIER);
        if !stop && timeout + 1 > TIMEOUT_MAX {
          stop, outcome := true, Returned(ERROR_TIMEOUT);
        }
      }
    }

    /** A byte: one turn of the switch, and the end of reception if it completes the packet. */
    method TakeByte(pkt: PacketBuffer, l2: L2, status: Status, b: byte)
      returns (next: L2, newStatus: Status, received: bool, outcome: Outcome)
      requires Valid() && pkt.Valid() && Sound(Reception(l2, pkt.Value(), status, false))
      modifies this, pkt, pkt.payload
      ensures var d := Accept(Reception(l2, old(pkt.Value()), status, false), b);
        && received == d.done
        && if d.done then Received(Now(), pkt.Value(), outcome) == Complete(old(Now()), d.pkt.CopyTrailer(), d.status)
          else Now() == old(Now()) && Reception(next, pkt.Value(), newStatus, false) == d
    {
      hide Accept, Complete, Packet.CopyTrailer, Sound;
      next, newStatus, received := Switch(pkt, l2, status, b);
      outcome := Exit;
      if received {
        outcome := Finish(pkt, newStatus);
      }
    }

    /** Reads until a packet is complete or reception fails. */
    method ReceiveBytes(pkt: PacketBuffer) returns (outcome: Outcome)
      requires Valid() && pkt.Valid() && pkt.Value() == ZeroPacket()
      modifies this, pkt, pkt.payload
      ensures Received(Now(), pkt.Value(), outcome) == ReceiveLoop(old(Now()), Fresh(), 0)
    {
      hide ReceiveLoop, Accept, CarrierLost, Polled, Link.Disconnect, Complete, Packet.CopyTrailer, ZeroPacket, Sound, Fresh;
      FreshIs();
      var l2, status, timeout := SearchForStart, SUCCESS, 0;
      ghost var goal := ReceiveLoop(Now(), Fresh(), 0);
      while true
        invariant Valid() && pkt.Valid()
        invariant Sound(Reception(l2, pkt.Value(), status, false))
        invariant ReceiveLoop(Now(), Reception(l2, pkt.Value(), status, false), timeout) == goal
        decreases |script|
      {
        ghost var l, c := Now(), Reception(l2, pkt.Value(), status, false);
        if script == [] {
          LoopExits(l, c, timeout);
          return Exit;
        }
        var read := script[0];
        script := script[1..];
        match read {
          case Silence =>
            LoopWaits(l, c, timeout);
            PolledScript(Now());
            var stop;
            stop, outcome := CountSilence(timeout);
            if stop {
              return;
            }
            timeout := timeout + 1;
          case Broken =>
            LoopBreaks(l, c, timeout);
            Disconnect();
            return Returned(ERROR_FAILURE);
          case Data(b) =>
            LoopAccepts(l, c, timeout, b);
            timeout := 0;
            var received;
            l2, status, received, outcome := TakeByte(pkt, l2, status, b);
            if received {
              return;
            }
        }
      }
    }

    method ReceivePacket(pkt: PacketBuffer) returns (outcome: Outcome)
      requires Valid() && pkt.Valid()
      modifies this, pkt, pkt.payload
      ensures Received(Now(), pkt.Value(), outcome) == Receive(old(Now()))
    {
      hide Receive, ReceiveLoop, CarrierLost, Polled, Link.Disconnect, ZeroPacket, Fresh;
      ReceiveStep(Now());
      pkt.Clear();
      var lost := CheckCarrier();
      if lost {
        return Returned(ERROR_NO_CARRIER);
      }
      if !connected {
        return Returned(ERROR_DISCONNECT);
      }
      outcome := ReceiveBytes(pkt);
    }

    /** Waits for the answer to a data packet. */
    method AwaitAck() returns (outcome: Outcome)
      requires Valid()
      modifies this
      ensures Link.Sent.Sent(Now(), outcome) == WaitForAck(old(Now()))
    {
      hide Receive, Has, ZeroPacket;
      if !connected {
        return Returned(ERROR_DISCONNECT);
      }
      var pkt := new PacketBuffer();
      outcome := ReceivePacket(pkt);
      if outcome == Returned(SUCCESS) || outcome == Returned(ERROR_DISCONNECT) {
        outcome := Returned(if pkt.payloadLen == 0 && !Has(pkt.flags, FLAG_ACK) then ERROR_NACK else SUCCESS);
      }
    }

    /** The terminal id, two characters to a byte. */
    method EncodeTerminalId() returns (id: seq<byte>)
      requires Valid()
      ensures id == EncodeId(terminalId[..])
    {
      hide Pack;
      id := [];
      for i := 0 to ID_LENGTH
        invariant |id| == i
        invariant forall k :: 0 <= k < i ==> id[k] == Pack(terminalId[2 * k], terminalId[2 * k + 1])
      {
        id := id + [Pack(terminalId[i * 2], terminalId[i * 2 + 1])];
      }
    }

    /** An acknowledgement is written once and not waited for. */
    method SendAck(flags: byte)
      requires Valid()
      modifies this
      ensures Now() == Link.SendAck(old(Now()), flags)
    {
      hide Frame, AckFlags, ZeroPacket;
      if !connected {
        return;
      }
      var pkt := new PacketBuffer();
      var _, wire := BuildFrame(pkt, AckFlags(rxSeq, flags), []);
      log := log + [AckSent(wire)];
      rxSeq := rxSeq + 1;
    }

    /** One transmission of a data packet. */
    method Transmit(chunk: seq<byte>)
      requires Valid() && |chunk| <= DATA_MAX
      modifies this
      ensures Now() == Written(old(Now()), chunk)
    {
      hide Frame, Sequence, EncodeId;
      var id := EncodeTerminalId();
      var pkt := new PacketBuffer();
      var _, wire := BuildFrame(pkt, Sequence(txSeq), id + chunk);
      log := log + [DataSent(wire)];
    }

    /** Ghost bookkeeping: a transmission of this chunk begins. */
    ghost method NoteCall(chunk: seq<byte>)
      requires Valid() && |chunk| <= DATA_MAX
      modifies this`log
      ensures Link.SendData(old(Now()), chunk) == SendLoop(Now(), chunk, 0, SUCCESS)
      ensures connected == old(connected)
    {
      hide SendLoop;
      ghost var start := Now();
      if connected {
        log := log + [Call(chunk)];
        assert Now() == start.(log := start.log + [Call(chunk)]);
      }
    }

    /** A data packet is written until it is answered, at most five times. */
    method SendData(chunk: seq<byte>) returns (outcome: Outcome)
      requires Valid() && |chunk| <= DATA_MAX
      modifies this
      ensures Link.Sent.Sent(Now(), outcome) == Link.SendData(old(Now()), chunk)
    {
      hide SendLoop, Written, WaitForAck, Flag, Link.SendData;
      ghost var goal := Link.SendData(Now(), chunk);
      NoteCall(chunk);
      var retries, status := 0, SUCCESS;
      while retries < MAX_RETRIES
        invariant Valid() && retries <= MAX_RETRIES
        invariant SendLoop(Now(), chunk, retries, status) == goal
        decreases MAX_RETRIES - retries
      {
        SendLoopStep(Now(), chunk, retries, status);
        if !connected {
          return Returned(ERROR_DISCONNECT);
        }
        Transmit(chunk);
        outcome := AwaitAck();
        if outcome == Exit {
          return;
        }
        status := outcome.status;
        if status == SUCCESS {
          txSeq := txSeq + 1;
          return;
        }
        retries := retries + 1;
      }
      SendLoopStep(Now(), chunk, retries, status);
      txSeq := txSeq + 1;
      outcome := Returned(Flag(status, true, ERROR_FAILURE));
    }

    /** A table is sent in pieces of 245 bytes until one is not confirmed. */
    method SendTable(payload: seq<byte>) returns (outcome: Outcome)
      requires Valid()
      modifies this
      ensures Link.Sent.Sent(Now(), outcome) == Link.SendTable(old(Now()), payload)
    {
      hide Link.SendData;
      ghost var start := Now();
      var p := 0;
      outcome := Returned(SUCCESS);
      assert payload[0..] == payload;
      while p < |payload|
        invariant Valid() && 0 <= p <= |payload| && outcome == Returned(SUCCESS)
        invariant Link.SendTable(Now(), payload[p..]) == Link.SendTable(start, payload)
      {
        var chunkLen := if |payload| - p > DATA_MAX then DATA_MAX else |payload| - p;
        assert payload[p..][..chunkLen] == payload[p..p + chunkLen] && payload[p..][chunkLen..] == payload[p + chunkLen..];
        outcome := SendData(payload[p..p + chunkLen]);
        if outcome != Returned(SUCCESS) {
          return;
        }
        p := p + chunkLen;
      }
      assert payload[p..] == [];
    }

    /** Takes over the terminal id of an accepted packet. */
    method NoteId(pkt: PacketBuffer)
      requires Valid() && pkt.Valid()
      modifies this, terminalId
      ensures Now() == Hear(old(Now()), pkt.Value()) && pkt.Value() == old(pkt.Value())
    {
      hide Decoded;
      var id := pkt.payload[..ID_LENGTH];
      assert id == pkt.Value().payload[..ID_LENGTH];
      PhoneNumToString(terminalId, id);
      log := log + [Heard(id)];
    }

    method ReceiveTable(pkt: PacketBuffer) returns (outcome: Outcome)
      requires Valid() && pkt.Valid()
      modifies this, terminalId, pkt, pkt.payload
      ensures Received(Now(), pkt.Value(), outcome) == Link.ReceiveTable(old(Now()))
    {
      hide Receive, WaitForAck, Accepted, Hear, Link.SendAck, Sequence;
      outcome := ReceivePacket(pkt);
      if outcome == Exit {
        return;
      }
      if !Accepted(outcome.status) {
        if connected {
          SendAck(FLAG_NACK);
          outcome := AwaitAck();
        }
        return;
      }
      rxSeq := Sequence(pkt.flags);
      if pkt.payloadLen < ID_LENGTH {
        return Returned(SUCCESS);
      }
      NoteId(pkt);
      SendAck(FLAG_ACK);
    }

    method AwaitTableAck(tableId: byte) returns (result: TableAck)
      requires Valid()
      modifies this, terminalId
      ensures (Now(), result) == WaitForTableAck(old(Now()), tableId)
    {
      hide Receive, WaitForAck, Accepted, Hear, Link.SendAck, Sequence, WaitForTableAck, ZeroPacket;
      ghost var start := Now();
      var pkt := new PacketBuffer();
      while true
        invariant Valid() && pkt.Valid() && fresh(pkt) && fresh(pkt.payload)
        invariant WaitForTableAck(Now(), tableId) == WaitForTableAck(start, tableId)
        decreases |script|
      {
        WaitForTableAckStep(Now(), tableId);
        var outcome := ReceivePacket(pkt);
        if outcome == Exit {
          return Exited;
        }
        if Accepted(outcome.status) {
          rxSeq := Sequence(pkt.flags);
          if pkt.payloadLen >= ID_LENGTH {
            NoteId(pkt);
            if pkt.payload[ID_LENGTH] == TABLE_UPD_ACK && pkt.payload[ID_LENGTH + 1] == tableId {
              SendAck(FLAG_ACK);
              return Acked;
            }
            return WrongTable;
          }
        } else if connected {
          SendAck(FLAG_RETRY);
          var answer := AwaitAck();
          if answer == Exit {
            return Exited;
          }
          if connected {
            SendAck(FLAG_ACK);
          }
        } else {
          return Failed(outcome.status);
        }
      }
    }
  }
}
