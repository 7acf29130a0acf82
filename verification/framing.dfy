/** The receiver's byte-by-byte framing, the independent transcript parser, and what both recognise. */
module Framing {
  import opened Crc
  import opened Packets

  datatype L2 = SearchForStart | GetFlags | GetLength | AccumulateData | GetCrc0 | GetCrc1 | SearchForStop

  /** A packet being assembled. */
  datatype Reception = Reception(l2: L2, pkt: Packet, status: Status, done: bool)

  function Fresh(): (c: Reception)
    ensures Sound(c) && !c.done
  {
    Reception(SearchForStart, ZeroPacket(), SUCCESS, false)
  }

  /** Payload bytes announced by the length byte. */
  function DataLength(pktlen: byte): (n: nat)
    ensures n <= PAYLOAD_MAX
    ensures n > 0 <==> pktlen > 5
  {
    if pktlen > 5 then pktlen as int - 5 else 0
  }

  /** Before the length byte nothing is stored; then at most what it announces; then exactly that. */
  predicate Sound(c: Reception) {
    match c.l2
    case SearchForStart => c.done || c.pkt.payloadLen == 0
    case GetFlags => c.pkt.payloadLen == 0
    case GetLength => c.pkt.payloadLen == 0
    case AccumulateData => c.pkt.payloadLen < DataLength(c.pkt.pktlen)
    case _ => c.pkt.payloadLen == DataLength(c.pkt.pktlen)
  }

  /** The second check byte joins the first. */
  function Join(low: bv16, b: byte): bv16 { low | ((b as bv16) << 8) }

  function Flag(status: Status, bad: bool, error: Status): Status {
    if bad then status | error else status
  }

  // ------------------------------------------------------------ the blocking receiver

  /** One turn of the receiver's switch. */
  function Accept(c: Reception, b: byte): (r: Reception)
    requires Sound(c) && !c.done
    ensures Sound(r)
    ensures r.pkt.payloadLen <= PAYLOAD_MAX
  {
    hide DataLength, Join, Flag, Crc16;
    var p := c.pkt;
    match c.l2
    case SearchForStart =>
      if b == START_BYTE then c.(l2 := GetFlags, pkt := p.(payloadLen := 0, start := b)) else c
    case GetFlags =>
      c.(l2 := GetLength, pkt := p.(flags := b))
    case GetLength =>
      c.(l2 := if b > 5 then AccumulateData else GetCrc0, pkt := p.(pktlen := b))
    case AccumulateData =>
      var n := p.payloadLen + 1;
      c.(l2 := if n == DataLength(p.pktlen) then GetCrc0 else AccumulateData,
         pkt := p.(payload := p.payload[p.payloadLen := b], payloadLen := n))
    case GetCrc0 =>
      c.(l2 := GetCrc1, pkt := p.(crc := b as bv16))
    case GetCrc1 =>
      var crc := Join(p.crc, b);
      var calculated := Crc16(Crc16(0, p.Header()), p.payload[..p.payloadLen]);
      c.(l2 := SearchForStop, pkt := p.(crc := crc, calculated := calculated),
         status := Flag(c.status, crc != calculated, ERROR_CRC))
    case SearchForStop =>
      var bad := b != STOP_BYTE;
      c.(l2 := if bad then SearchForStop else SearchForStart, pkt := p.(end := b),
         status := Flag(c.status, bad, ERROR_FRAMING), done := true)
  }

  /** Feeds bytes until a packet is complete or the bytes run out. */
  function Feed(c: Reception, s: seq<byte>): (r: Reception)
    requires Sound(c)
    ensures Sound(r)
    decreases |s|
  {
    if s == [] || c.done then c else Feed(Accept(c, s[0]), s[1..])
  }

  /** Everything repeated receptions deliver from a stream: packets with trailer, and checksum and framing status. */
  function Receptions(c: Reception, s: seq<byte>): seq<(Packet, Status)>
    requires Sound(c) && !c.done
    decreases |s|
  {
    if s == [] then [] else
    var r := Accept(c, s[0]);
    if r.done then [(r.pkt.CopyTrailer(), r.status)] + Receptions(Fresh(), s[1..])
    else Receptions(r, s[1..])
  }

  // ------------------------------------------------------------ the transcript parser

  /** The parser's switch: one checksum over header and payload together. */
  function ParserSwitch(c: Reception, b: byte): (r: Reception)
    requires Sound(c) && !c.done
    ensures Sound(r)
    ensures r.pkt.payloadLen <= PAYLOAD_MAX
  {
    hide DataLength, Join, Flag, Crc16;
    var p := c.pkt;
    match c.l2
    case SearchForStart =>
      if b == START_BYTE then c.(l2 := GetFlags, pkt := p.(payloadLen := 0, start := b)) else c
    case GetFlags =>
      c.(l2 := GetLength, pkt := p.(flags := b))
    case GetLength =>
      c.(pkt := p.(pktlen := b), l2 := if b > 5 then AccumulateData else GetCrc0)
    case AccumulateData =>
      var n := p.payloadLen + 1;
      c.(pkt := p.(payload := p.payload[p.payloadLen := b], payloadLen := n),
         l2 := if n == DataLength(p.pktlen) then GetCrc0 else AccumulateData)
    case GetCrc0 =>
      c.(l2 := GetCrc1, pkt := p.(crc := b as bv16))
    case GetCrc1 =>
      var crc := Join(p.crc, b);
      var calculated := Crc16(0, p.Header() + p.payload[..p.payloadLen]);
      c.(l2 := SearchForStop, pkt := p.(crc := crc, calculated := calculated),
         status := Flag(c.status, crc != calculated, ERROR_CRC))
    case SearchForStop =>
      var bad := b != STOP_BYTE;
      c.(l2 := if bad then SearchForStop else SearchForStart, pkt := p.(end := b),
         status := Flag(c.status, bad, ERROR_FRAMING), done := true)
  }

  /** One call of the parser: the switch, and the trailer copied whatever the state. */
  function ParseByte(c: Reception, b: byte): (r: Reception)
    requires Sound(c) && !c.done
    ensures Sound(r)
  {
    var r := ParserSwitch(c, b);
    r.(pkt := r.pkt.CopyTrailer())
  }

  /** The parser fed with a whole stream and reset after each packet. */
  function ParseAll(c: Reception, s: seq<byte>): seq<(Packet, Status)>
    requires Sound(c) && !c.done
    decreases |s|
  {
    if s == [] then [] else
    var r := ParseByte(c, s[0]);
    if r.done then [(r.pkt, r.status)] + ParseAll(Fresh(), s[1..])
    else ParseAll(r, s[1..])
  }

  /** What the parser holds is what the receiver holds, with the trailer copied. */
  predicate Mirrors(p: Reception, c: Reception) {
    c.pkt.payloadLen <= PAYLOAD_MAX && p == c.(pkt := c.pkt.CopyTrailer())
  }

  lemma TrailerAgain(p: Packet, q: Packet)
    requires p.payloadLen <= PAYLOAD_MAX && q.payloadLen == p.payloadLen && q.payload == p.payload
    ensures q.(payload := p.CopyTrailer().payload).CopyTrailer() == q.CopyTrailer()
    ensures p.CopyTrailer().payload[..p.payloadLen] == p.payload[..p.payloadLen]
  {
    var once := Put(p.payload, p.payloadLen, p.Trailer());
    assert Put(once, p.payloadLen, q.Trailer()) == Put(p.payload, p.payloadLen, q.Trailer());
  }

  lemma TrailerMovesUp(p: Packet, b: byte)
    requires p.payloadLen < PAYLOAD_MAX
    ensures var q := p.CopyTrailer();
      q.(payload := q.payload[q.payloadLen := b], payloadLen := q.payloadLen + 1).CopyTrailer()
        == p.(payload := p.payload[p.payloadLen := b], payloadLen := p.payloadLen + 1).CopyTrailer()
  {
    var q := p.CopyTrailer();
    var n := p.payloadLen;
    var left, right := q.payload[n := b], p.payload[n := b];
    assert Put(left, n + 1, p.Trailer()) == Put(right, n + 1, p.Trailer());
  }

  /** The parser's packet: the receiver's with another payload, the same as far as it is filled. */
  function Other(c: Reception, payload: Payload): Reception { c.(pkt := c.pkt.(payload := payload)) }

  // Away from the data, the switches agree whatever lies behind the filled part of the payload; state by state.

  lemma HeaderStep(c: Reception, payload: Payload, b: byte)
    requires Sound(c) && !c.done && (c.l2 == SearchForStart || c.l2 == GetFlags || c.l2 == GetLength)
    ensures ParserSwitch(Other(c, payload), b) == Other(Accept(c, b), payload)
    ensures Accept(c, b).pkt.payload == c.pkt.payload && Accept(c, b).pkt.payloadLen == c.pkt.payloadLen
  {
    hide Crc16, Join, Flag, DataLength;
  }

  lemma FirstCheckStep(c: Reception, payload: Payload, b: byte)
    requires Sound(c) && !c.done && c.l2 == GetCrc0
    ensures ParserSwitch(Other(c, payload), b) == Other(Accept(c, b), payload)
    ensures Accept(c, b).pkt.payload == c.pkt.payload && Accept(c, b).pkt.payloadLen == c.pkt.payloadLen
  {
    hide Crc16, Join, Flag, DataLength;
  }

  lemma SecondCheckStep(c: Reception, payload: Payload, b: byte)
    requires Sound(c) && !c.done && c.l2 == GetCrc1
    requires c.pkt.payloadLen <= PAYLOAD_MAX && payload[..c.pkt.payloadLen] == c.pkt.payload[..c.pkt.payloadLen]
    ensures ParserSwitch(Other(c, payload), b) == Other(Accept(c, b), payload)
    ensures Accept(c, b).pkt.payload == c.pkt.payload && Accept(c, b).pkt.payloadLen == c.pkt.payloadLen
  {
    hide Crc16, Join, Flag, DataLength;
    Chaining(0, c.pkt.Header(), c.pkt.payload[..c.pkt.payloadLen]);
  }

  lemma StopStep(c: Reception, payload: Payload, b: byte)
    requires Sound(c) && !c.done && c.l2 == SearchForStop
    ensures ParserSwitch(Other(c, payload), b) == Other(Accept(c, b), payload)
    ensures Accept(c, b).pkt.payload == c.pkt.payload && Accept(c, b).pkt.payloadLen == c.pkt.payloadLen
  {
    hide Crc16, Join, Flag, DataLength;
  }

  lemma NonDataStep(c: Reception, payload: Payload, b: byte)
    requires Sound(c) && !c.done && c.l2 != AccumulateData
    requires c.pkt.payloadLen <= PAYLOAD_MAX && payload[..c.pkt.payloadLen] == c.pkt.payload[..c.pkt.payloadLen]
    ensures Sound(Other(c, payload))
    ensures ParserSwitch(Other(c, payload), b) == Other(Accept(c, b), payload)
    ensures Accept(c, b).pkt.payload == c.pkt.payload && Accept(c, b).pkt.payloadLen == c.pkt.payloadLen
  {
    OtherSound(c, payload);
    hide *;
    match c.l2 {
      case GetCrc0 => FirstCheckStep(c, payload, b);
      case GetCrc1 => SecondCheckStep(c, payload, b);
      case SearchForStop => StopStep(c, payload, b);
      case _ => HeaderStep(c, payload, b);
    }
  }

  lemma OtherSound(c: Reception, payload: Payload)
    ensures Sound(Other(c, payload)) == Sound(c)
  {
    hide DataLength;
  }

  lemma DataStep(c: Reception, payload: Payload, b: byte)
    requires Sound(c) && !c.done && c.l2 == AccumulateData
    ensures c.pkt.payloadLen < PAYLOAD_MAX && Sound(Other(c, payload))
    ensures var n := c.pkt.payloadLen;
      && Accept(c, b).pkt == c.pkt.(payload := c.pkt.payload[n := b], payloadLen := n + 1)
      && ParserSwitch(Other(c, payload), b) == Other(Accept(c, b), payload[n := b])
  {
    hide Crc16, Join, Flag, DataLength;
  }

  /** One byte keeps parser and receiver in step, although they compute differently. */
  lemma ParserStep(p: Reception, c: Reception, b: byte)
    requires Sound(c) && !c.done && Mirrors(p, c)
    ensures Sound(p) && Mirrors(ParseByte(p, b), Accept(c, b))
  {
    hide Accept, ParserSwitch, Sound, Packet.CopyTrailer;
    var q := c.pkt;
    var payload := q.CopyTrailer().payload;
    assert p == Other(c, payload);
    if c.l2 == AccumulateData {
      DataStep(c, payload, b);
      TrailerMovesUp(q, b);
    } else {
      TrailerAgain(q, q);
      NonDataStep(c, payload, b);
      TrailerAgain(q, Accept(c, b).pkt);
    }
  }

  lemma {:induction false} ParserFollows(p: Reception, c: Reception, s: seq<byte>)
    requires Sound(c) && !c.done && Mirrors(p, c)
    ensures Sound(p) && ParseAll(p, s) == Receptions(c, s)
    decreases |s|
  {
    if s != [] {
      ParserStep(p, c, s[0]);
      hide Accept, ParseByte;
      if Accept(c, s[0]).done {
        FreshMirrors();
        ParserFollows(Fresh(), Fresh(), s[1..]);
      } else {
        ParserFollows(ParseByte(p, s[0]), Accept(c, s[0]), s[1..]);
      }
    } else {
      ParserStep(p, c, 0);
    }
  }

  lemma FreshMirrors()
    ensures Mirrors(Fresh(), Fresh())
  {
    assert Put(ZeroPayload(), 0, [0, 0, 0]) == ZeroPayload();
  }

  /** On every byte stream, parser and receiver deliver the same packets with the same status. */
  lemma ParserRefinesReceiver(s: seq<byte>)
    ensures ParseAll(Fresh(), s) == Receptions(Fresh(), s)
  {
    FreshMirrors();
    ParserFollows(Fresh(), Fresh(), s);
  }
}
