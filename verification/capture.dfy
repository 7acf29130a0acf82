/** The packet capture writer, which marks the direction in the start byte while it writes. */
module Capture {
  import opened Crc
  import opened Packets

  const DIRECTION_BIT: byte := 0x80

  function Marked(tx: bool, start: byte): byte {
    if tx then start | DIRECTION_BIT else start
  }

  function Unmarked(start: byte): byte { start & 0x7F }

  function RecordLength(pktlen: byte): (n: nat)
    ensures n <= 256
  {
    pktlen as int + 1
  }

  /** The bytes of one record: as many as the length byte says, plus the start byte. */
  function Captured(tx: bool, p: Packet): (r: seq<byte>)
    ensures |r| == RecordLength(p.pktlen)
  {
    ([Marked(tx, p.start), p.flags, p.pktlen] + p.payload)[..RecordLength(p.pktlen)]
  }

  method AddRecord(tx: bool, pkt: PacketBuffer) returns (record: seq<byte>)
    requires pkt.Valid()
    modifies pkt`start
    ensures record == Captured(tx, old(pkt.Value()))
    ensures pkt.Value() == old(pkt.Value()).(start := Unmarked(Marked(tx, old(pkt.start))))
  {
    hide Marked, Unmarked, RecordLength;
    pkt.start := Marked(tx, pkt.start);
    record := ([pkt.start, pkt.flags, pkt.pktlen] + pkt.payload[..])[..RecordLength(pkt.pktlen)];
    pkt.start := Unmarked(pkt.start);
  }

  /** A frame as a capture shows it. */
  function Shown(tx: bool, frame: seq<byte>): seq<byte>
    requires frame != []
  {
    [Marked(tx, frame[0])] + frame[1..]
  }

  /** The packet structure holds this frame, checksum and all, except that the trailer is not yet behind the data. */
  predicate Holds(p: Packet, flags: byte, data: seq<byte>)
    requires |data| <= PAYLOAD_MAX
  {
    && p.Header() == [START_BYTE, flags, LengthByte(|data|)]
    && p.payloadLen == |data| && p.payload[..|data|] == data
    && p.crc == Crc16(0, p.Header() + data) && p.end == STOP_BYTE
  }

  lemma PutBehind(buffer: Payload, data: seq<byte>, trailer: seq<byte>)
    requires |data| + |trailer| <= BUFFER_SIZE && buffer[..|data|] == data
    ensures Put(buffer, |data|, trailer) == data + trailer + buffer[|data| + |trailer|..]
  {
  }

  lemma LaidOut(header: seq<byte>, buffer: Payload, data: seq<byte>, trailer: seq<byte>)
    requires |data| + |trailer| <= BUFFER_SIZE && buffer[..|data|] == data
    ensures (header + Put(buffer, |data|, trailer))[..|header| + |data| + |trailer|] == (header + data) + trailer
  {
    PutBehind(buffer, data, trailer);
  }

  lemma FrameParts(flags: byte, data: seq<byte>, crc: bv16)
    requires |data| <= PAYLOAD_MAX && crc == Crc16(0, [START_BYTE, flags, LengthByte(|data|)] + data)
    ensures Frame(flags, data) == ([START_BYTE, flags, LengthByte(|data|)] + data) + [Lo(crc), Hi(crc), STOP_BYTE]
  {
    hide Crc16, LengthByte, Lo, Hi;
    var body := FrameBody(flags, data);
    assert body + [Lo(crc), Hi(crc)] + [STOP_BYTE] == body + [Lo(crc), Hi(crc), STOP_BYTE];
  }

  /** Header, data and trailer lie in the packet structure as they go over the line. */
  lemma LineOfFrame(p: Packet, flags: byte, data: seq<byte>)
    requires |data| <= PAYLOAD_MAX && Holds(p, flags, data)
    ensures (p.Header() + p.CopyTrailer().payload)[..RecordLength(p.pktlen)] == Frame(flags, data)
  {
    hide Crc16, Lo, Hi, Frame, Put, LengthByte;
    FrameParts(flags, data, p.crc);
    LengthByteExact(|data|);
    LaidOut(p.Header(), p.payload, data, p.Trailer());
  }

  lemma FirstReplaced(b: byte, c: byte, rest: seq<byte>, n: nat)
    requires 0 < n <= |rest| + 1
    ensures ([c] + rest)[..n] == [c] + ([b] + rest)[..n][1..]
  {
  }

  lemma RecordOfFrame(tx: bool, p: Packet, flags: byte, data: seq<byte>)
    requires |data| <= PAYLOAD_MAX && Holds(p, flags, data)
    ensures Captured(tx, p.CopyTrailer()) == Shown(tx, Frame(flags, data))
  {
    hide Crc16, Lo, Hi, Frame, Put, LengthByte, Marked, RecordLength, Packet.CopyTrailer;
    LineOfFrame(p, flags, data);
    var rest := [p.flags, p.pktlen] + p.CopyTrailer().payload;
    assert p.Header() + p.CopyTrailer().payload == [p.start] + rest;
    assert [Marked(tx, p.start), p.flags, p.pktlen] + p.CopyTrailer().payload == [Marked(tx, p.start)] + rest;
    FirstReplaced(p.start, Marked(tx, p.start), rest, RecordLength(p.pktlen));
  }

  /** The start byte of a frame survives its capture. */
  lemma StartByteRestored()
    ensures Unmarked(Marked(true, START_BYTE)) == START_BYTE
  {
  }

  /** A frame on the line is untouched by the capture exactly when its start byte has the direction bit clear. */
  lemma StartRestored(tx: bool, start: byte)
    ensures Unmarked(Marked(tx, start)) == start <==> start & DIRECTION_BIT == 0
  {
  }
}

/** The transcript converter: one parser for each direction, bytes interleaved as they were logged. */
module Transcript {
  import opened Crc
  import opened Packets
  import opened Framing
  import opened Capture

  class Parser {
    var l2: L2
    const pkt: PacketBuffer
    var status: Status

    ghost function State(): Reception
      requires pkt.Valid()
      reads this, pkt, pkt.payload
    {
      Reception(l2, pkt.Value(), status, false)
    }

    constructor ()
      ensures pkt.Valid() && State() == Fresh()
      ensures fresh(this) && fresh(pkt) && fresh(pkt.payload)
    {
      l2, status := SearchForStart, SUCCESS;
      pkt := new PacketBuffer();
    }

    method Reset()
      requires pkt.Valid()
      modifies this, pkt, pkt.payload
      ensures State() == Fresh()
    {
      l2, status := SearchForStart, SUCCESS;
      pkt.Clear();
    }

    method Switch(b: byte) returns (complete: bool)
      requires pkt.Valid() && Sound(State())
      modifies this, pkt, pkt.payload
      ensures var r := ParserSwitch(old(State()), b);
        complete == r.done && State() == r.(done := false)
    {
      hide DataLength, Join, Flag, Crc16;
      complete := false;
      match l2 {
        case SearchForStart =>
          if b == START_BYTE {
            l2, pkt.payloadLen, pkt.start := GetFlags, 0, b;
          }
        case GetFlags =>
          l2, pkt.flags := GetLength, b;
        case GetLength =>
          pkt.pktlen := b;
          l2 := if pkt.pktlen > 5 then AccumulateData else GetCrc0;
        case AccumulateData =>
          pkt.payload[pkt.payloadLen] := b;
          pkt.payloadLen := pkt.payloadLen + 1;
          if pkt.payloadLen == DataLength(pkt.pktlen) {
            l2 := GetCrc0;
          }
        case GetCrc0 =>
          l2, pkt.crc := GetCrc1, b as bv16;
        case GetCrc1 =>
          var calculated := ComputeCrc16(0, [pkt.start, pkt.flags, pkt.pktlen] + pkt.payload[..][..pkt.payloadLen]);
          l2, pkt.crc, pkt.calculated := SearchForStop, Join(pkt.crc, b), calculated;
          status := Flag(status, pkt.crc != pkt.calculated, ERROR_CRC);
        case SearchForStop =>
          if b == STOP_BYTE {
            l2 := SearchForStart;
          }
          status := Flag(status, b != STOP_BYTE, ERROR_FRAMING);
          pkt.end := b;
          complete := true;
      }
    }

    method ParseByte(b: byte) returns (complete: bool)
      requires pkt.Valid() && Sound(State())
      modifies this, pkt, pkt.payload
      ensures var r := Framing.ParseByte(old(State()), b);
        complete == r.done && State() == r.(done := false)
    {
      complete := Switch(b);
      hide *;
      pkt.CopyTrailer();
    }
  }

  datatype Logged = Logged(tx: bool, b: byte)

  function BytesOf(log: seq<Logged>, tx: bool): seq<byte> {
    if log == [] then [] else
    (if log[0].tx == tx then [log[0].b] else []) + BytesOf(log[1..], tx)
  }

  datatype Record = Record(tx: bool, bytes: seq<byte>)

  function Own(r: Record, tx: bool): seq<seq<byte>> { if r.tx == tx then [r.bytes] else [] }

  function RecordsOf(records: seq<Record>, tx: bool): seq<seq<byte>> {
    if records == [] then [] else Own(records[0], tx) + RecordsOf(records[1..], tx)
  }

  function CaptureAll(tx: bool, packets: seq<(Packet, Status)>): seq<seq<byte>> {
    seq(|packets|, i requires 0 <= i < |packets| => Captured(tx, packets[i].0))
  }

  lemma RecordsCons(r: Record, rest: seq<Record>, tx: bool)
    ensures RecordsOf([r] + rest, tx) == Own(r, tx) + RecordsOf(rest, tx)
    ensures RecordsOf([], tx) == []
  {
    hide Own;
    assert ([r] + rest)[1..] == rest;
  }

  lemma {:induction false} RecordsAppend(a: seq<Record>, b: seq<Record>, tx: bool)
    ensures RecordsOf(a + b, tx) == RecordsOf(a, tx) + RecordsOf(b, tx)
  {
    hide *;
    if a == [] {
      assert a + b == b;
      assert [] + RecordsOf(b, tx) == RecordsOf(b, tx);
      RecordsCons(Record(tx, []), [], tx);
    } else {
      var rest := a[1..];
      assert a == [a[0]] + rest && a + b == [a[0]] + (rest + b);
      RecordsAppend(rest, b, tx);
      RecordsCons(a[0], rest, tx);
      RecordsCons(a[0], rest + b, tx);
    }
  }

  /** What is still to come of one direction, as capture records. */
  ghost function Pending(p: Reception, log: seq<Logged>, tx: bool): seq<seq<byte>>
    requires Sound(p) && !p.done
  {
    CaptureAll(tx, ParseAll(p, BytesOf(log, tx)))
  }

  lemma CaptureCons(tx: bool, p: (Packet, Status), packets: seq<(Packet, Status)>)
    ensures CaptureAll(tx, [p] + packets) == [Captured(tx, p.0)] + CaptureAll(tx, packets)
  {
    hide Captured;
  }

  lemma BytesStep(log: seq<Logged>, tx: bool)
    requires log != []
    ensures BytesOf(log, tx) == (if log[0].tx == tx then [log[0].b] else []) + BytesOf(log[1..], tx)
  {
  }

  lemma ParseStep(p: Reception, b: byte, s: seq<byte>)
    requires Sound(p) && !p.done
    ensures ParseAll(p, [b] + s) ==
      var r := Framing.ParseByte(p, b);
      if r.done then [(r.pkt, r.status)] + ParseAll(Fresh(), s) else ParseAll(r, s)
  {
    hide Framing.ParseByte, Sound;
    assert ([b] + s)[1..] == s;
  }

  /** One logged byte advances its own direction and leaves the other alone. */
  lemma PendingStep(p: Reception, log: seq<Logged>, tx: bool)
    requires Sound(p) && !p.done && log != []
    ensures Pending(p, log, tx) ==
      if log[0].tx != tx then Pending(p, log[1..], tx) else
      var r := Framing.ParseByte(p, log[0].b);
      if r.done then [Captured(tx, r.pkt)] + Pending(Fresh(), log[1..], tx) else Pending(r, log[1..], tx)
  {
    hide Framing.ParseByte, Captured, Sound, CaptureAll, ParseAll, BytesOf;
    var rest := BytesOf(log[1..], tx);
    BytesStep(log, tx);
    if log[0].tx == tx {
      ParseStep(p, log[0].b, rest);
      var r := Framing.ParseByte(p, log[0].b);
      CaptureCons(tx, (r.pkt, r.status), ParseAll(Fresh(), rest));
    } else {
      assert [] + rest == rest;
    }
  }

  /** Feeds one byte; a completed packet is captured and the parser reset. */
  method Advance(parser: Parser, tx: bool, b: byte) returns (out: seq<Record>)
    requires parser.pkt.Valid() && Sound(parser.State())
    modifies parser, parser.pkt, parser.pkt.payload
    ensures var r := Framing.ParseByte(old(parser.State()), b);
      && out == (if r.done then [Record(tx, Captured(tx, r.pkt))] else [])
      && parser.State() == if r.done then Fresh() else r
  {
    hide Framing.ParseByte, Captured, Sound, Marked, Unmarked;
    out := [];
    var complete := parser.ParseByte(b);
    if complete {
      var bytes := AddRecord(tx, parser.pkt);
      out := [Record(tx, bytes)];
      parser.Reset();
    }
  }

  /** These records are what the log so far amounts to, with the parser in state p: however it goes on. */
  ghost predicate Fed(done: seq<seq<byte>>, p: Reception, log: seq<Logged>, tx: bool) {
    && Sound(p) && !p.done
    && forall more: seq<Logged> :: Pending(Fresh(), log + more, tx) == done + Pending(p, more, tx)
  }

  /** The parser after one logged byte: its own direction advances it. */
  function Advanced(p: Reception, l: Logged, tx: bool): Reception
    requires Sound(p) && !p.done
  {
    if l.tx != tx then p else
    var r := Framing.ParseByte(p, l.b); if r.done then Fresh() else r
  }

  /** What a logged byte adds to the records of a direction. */
  predicate Adds(p: Reception, l: Logged, tx: bool, out: seq<Record>)
    requires Sound(p) && !p.done
  {
    if l.tx != tx then out == [] || (|out| == 1 && out[0].tx != tx) else
    var r := Framing.ParseByte(p, l.b); out == if r.done then [Record(tx, Captured(tx, r.pkt))] else []
  }

  lemma FedMore(records: seq<Record>, p: Reception, l: Logged, tx: bool, out: seq<Record>, more: seq<Logged>)
    requires Sound(p) && !p.done && Adds(p, l, tx, out)
    ensures RecordsOf(records, tx) + Pending(p, [l] + more, tx)
      == RecordsOf(records + out, tx) + Pending(Advanced(p, l, tx), more, tx)
  {
    hide Framing.ParseByte, Captured, Sound, CaptureAll, ParseAll, BytesOf, RecordsOf, Pending;
    assert ([l] + more)[1..] == more;
    PendingStep(p, [l] + more, tx);
    AddedIs(p, l, tx, out);
    RecordsAppend(records, out, tx);
    assert RecordsOf(records, tx) + [] == RecordsOf(records, tx);
  }

  lemma AddedIs(p: Reception, l: Logged, tx: bool, out: seq<Record>)
    requires Sound(p) && !p.done && Adds(p, l, tx, out)
    ensures RecordsOf(out, tx) == if l.tx != tx then [] else
      var r := Framing.ParseByte(p, l.b); if r.done then [Captured(tx, r.pkt)] else []
  {
    hide Framing.ParseByte, Captured, Sound, RecordsOf;
    OneRecord(out, tx);
  }

  lemma AdvancedSound(p: Reception, l: Logged, tx: bool)
    requires Sound(p) && !p.done
    ensures Sound(Advanced(p, l, tx)) && !Advanced(p, l, tx).done
  {
    hide Framing.ParseByte, Sound;
  }

  lemma FedWith(records: seq<Record>, p: Reception, log: seq<Logged>, l: Logged, tx: bool, out: seq<Record>, more: seq<Logged>)
    requires Fed(RecordsOf(records, tx), p, log, tx) && Adds(p, l, tx, out)
    ensures Pending(Fresh(), log + [l] + more, tx) == RecordsOf(records + out, tx) + Pending(Advanced(p, l, tx), more, tx)
  {
    hide Adds, Sound, RecordsOf, Pending, Advanced, Fresh;
    assert log + [l] + more == log + ([l] + more);
    FedMore(records, p, l, tx, out, more);
  }

  /** One byte more, whichever direction it belongs to. */
  lemma FedOne(records: seq<Record>, p: Reception, log: seq<Logged>, l: Logged, tx: bool, out: seq<Record>)
    requires Fed(RecordsOf(records, tx), p, log, tx) && Adds(p, l, tx, out)
    ensures Fed(RecordsOf(records + out, tx), Advanced(p, l, tx), log + [l], tx)
  {
    hide Adds, Sound, RecordsOf, Pending, Advanced, Fresh;
    AdvancedSound(p, l, tx);
    forall more: seq<Logged>
      ensures Pending(Fresh(), log + [l] + more, tx) == RecordsOf(records + out, tx) + Pending(Advanced(p, l, tx), more, tx)
    {
      FedWith(records, p, log, l, tx, out, more);
    }
  }

  lemma FedStart(tx: bool)
    ensures Fed(RecordsOf([], tx), Fresh(), [], tx)
  {
    forall more: seq<Logged>
      ensures Pending(Fresh(), [] + more, tx) == RecordsOf([], tx) + Pending(Fresh(), more, tx)
    {
      assert [] + more == more;
    }
  }

  /** Each direction's records so far are the packets of its own bytes so far. */
  ghost predicate InStep(records: seq<Record>, log: seq<Logged>) {
    forall tx :: RecordsOf(records, tx) == CaptureAll(tx, Receptions(Fresh(), BytesOf(log, tx)))
  }

  lemma FedInStep(records: seq<Record>, p: Reception, q: Reception, log: seq<Logged>)
    requires Fed(RecordsOf(records, false), p, log, false) && Fed(RecordsOf(records, true), q, log, true)
    ensures InStep(records, log)
  {
    hide CaptureAll, Receptions, BytesOf, RecordsOf, ParseAll;
    assert log + [] == log;
    NothingPending(p, false);
    NothingPending(q, true);
    assert Pending(Fresh(), log + [], false) == RecordsOf(records, false) + Pending(p, [], false);
    assert Pending(Fresh(), log + [], true) == RecordsOf(records, true) + Pending(q, [], true);
    ParserRefinesReceiver(BytesOf(log, false));
    ParserRefinesReceiver(BytesOf(log, true));
  }

  /**
   * The records come in the order of the log: after any part of it the capture holds exactly the packets complete by
   * then. The i-th cut is how far the capture is after i bytes.
   */
  ghost predicate InOrder(records: seq<Record>, log: seq<Logged>, cuts: seq<nat>) {
    && |cuts| == |log| + 1 && cuts[|log|] == |records|
    && (forall i :: 0 <= i <= |log| ==> cuts[i] <= |records| && InStep(records[..cuts[i]], log[..i]))
    && forall i, j :: 0 <= i <= j <= |log| ==> cuts[i] <= cuts[j]
  }

  lemma InOrderOne(records: seq<Record>, log: seq<Logged>, cuts: seq<nat>, out: seq<Record>, l: Logged)
    requires InOrder(records, log, cuts) && InStep(records + out, log + [l])
    ensures InOrder(records + out, log + [l], cuts + [|records + out|])
  {
    hide InStep;
    var later, on, more := records + out, log + [l], cuts + [|records + out|];
    forall i | 0 <= i <= |on|
      ensures more[i] <= |later| && InStep(later[..more[i]], on[..i])
    {
      if i <= |log| {
        assert later[..cuts[i]] == records[..cuts[i]] && on[..i] == log[..i];
      } else {
        assert later[..|later|] == later && on[..|on|] == on;
      }
    }
  }

  lemma InOrderStart()
    ensures InOrder([], [], [0])
  {
    forall tx
      ensures RecordsOf([], tx) == CaptureAll(tx, Receptions(Fresh(), BytesOf([], tx)))
    {
    }
    assert InStep([], []);
    var none: seq<Record>, empty: seq<Logged> := [], [];
    assert none[..0] == none && empty[..0] == empty;
  }

  lemma OneRecord(out: seq<Record>, tx: bool)
    requires |out| <= 1
    ensures RecordsOf(out, tx) == if out != [] && out[0].tx == tx then [out[0].bytes] else []
  {
  }

  /**
   * Each direction's records are exactly the packets of that direction's own bytes, however they interleave, and the
   * records of both come in the order in which the packets were complete.
   */
  method Convert(log: seq<Logged>) returns (records: seq<Record>, ghost cuts: seq<nat>)
    ensures forall tx :: RecordsOf(records, tx) == CaptureAll(tx, Receptions(Fresh(), BytesOf(log, tx)))
    ensures InOrder(records, log, cuts)
  {
    hide *;
    var rx := new Parser();
    var tx := new Parser();
    records, cuts := [], [0];
    FedStart(false);
    FedStart(true);
    InOrderStart();
    assert log[..0] == [];
    for i := 0 to |log|
      invariant fresh(rx) && fresh(rx.pkt) && fresh(rx.pkt.payload) && fresh(tx) && fresh(tx.pkt) && fresh(tx.pkt.payload)
      invariant rx != tx && rx.pkt != tx.pkt && rx.pkt.payload != tx.pkt.payload
      invariant rx.pkt.Valid() && tx.pkt.Valid()
      invariant Fed(RecordsOf(records, false), rx.State(), log[..i], false)
      invariant Fed(RecordsOf(records, true), tx.State(), log[..i], true)
      invariant InOrder(records, log[..i], cuts)
    {
      var l := log[i];
      ghost var p, q := rx.State(), tx.State();
      FedSound(RecordsOf(records, false), p, log[..i], false);
      FedSound(RecordsOf(records, true), q, log[..i], true);
      assert log[..i + 1] == log[..i] + [l];
      var out;
      if l.tx {
        out := Advance(tx, true, l.b);
      } else {
        out := Advance(rx, false, l.b);
      }
      AdvancedIs(p, l, false, out);
      AdvancedIs(q, l, true, out);
      FedOne(records, p, log[..i], l, false, out);
      FedOne(records, q, log[..i], l, true, out);
      FedInStep(records + out, rx.State(), tx.State(), log[..i + 1]);
      InOrderOne(records, log[..i], cuts, out, l);
      records := records + out;
      cuts := cuts + [|records|];
    }
    assert log[..|log|] == log;
    FedInStep(records, rx.State(), tx.State(), log);
    InStepIs(records, log);
  }

  lemma AdvancedIs(p: Reception, l: Logged, tx: bool, out: seq<Record>)
    requires Sound(p) && !p.done
    ensures Adds(p, l, tx, out) <==> if l.tx != tx then out == [] || (|out| == 1 && out[0].tx != tx) else
      var r := Framing.ParseByte(p, l.b); out == if r.done then [Record(tx, Captured(tx, r.pkt))] else []
    ensures Advanced(p, l, tx) == if l.tx != tx then p else
      var r := Framing.ParseByte(p, l.b); if r.done then Fresh() else r
  {
    hide Framing.ParseByte, Captured, Sound;
  }

  lemma FedSound(done: seq<seq<byte>>, p: Reception, log: seq<Logged>, tx: bool)
    requires Fed(done, p, log, tx)
    ensures Sound(p) && !p.done
  {
  }

  lemma InStepIs(records: seq<Record>, log: seq<Logged>)
    requires InStep(records, log)
    ensures forall tx :: RecordsOf(records, tx) == CaptureAll(tx, Receptions(Fresh(), BytesOf(log, tx)))
  {
  }

  lemma NothingPending(p: Reception, tx: bool)
    requires Sound(p) && !p.done
    ensures Pending(p, [], tx) == []
  {
  }
}
