/** Whole frames on the line: what the receiver delivers for sent, noisy and damaged frames. */
module Frames {
  import opened Crc
  import opened Packets
  import opened Framing

  lemma {:induction false} FeedApart(c: Reception, s: seq<byte>, t: seq<byte>)
    requires Sound(c) && !Feed(c, s).done
    ensures !c.done
    ensures Feed(c, s + t) == Feed(Feed(c, s), t)
    ensures Receptions(c, s + t) == Receptions(Feed(c, s), t)
    decreases |s|
  {
    hide Accept;
    if s == [] {
      assert s + t == t;
    } else if !c.done {
      assert (s + t)[1..] == s[1..] + t;
      FeedApart(Accept(c, s[0]), s[1..], t);
    }
  }

  lemma OneByte(c: Reception, b: byte, t: seq<byte>)
    requires Sound(c) && !c.done
    ensures var r := Accept(c, b);
      Receptions(c, [b] + t) ==
        if r.done then [(r.pkt.CopyTrailer(), r.status)] + Receptions(Fresh(), t) else Receptions(r, t)
    ensures Feed(c, [b] + t) == Feed(Accept(c, b), t)
  {
    hide Accept, Sound, Packet.CopyTrailer;
    assert ([b] + t)[1..] == t;
  }

  lemma FeedNothing(c: Reception)
    requires Sound(c)
    ensures Feed(c, []) == c
  {
  }

  lemma AcceptData(c: Reception, b: byte)
    requires c.l2 == AccumulateData && !c.done && Sound(c)
    ensures var n := c.pkt.payloadLen;
      Accept(c, b) == c.(l2 := if n + 1 == DataLength(c.pkt.pktlen) then GetCrc0 else AccumulateData,
                         pkt := c.pkt.(payload := c.pkt.payload[n := b], payloadLen := n + 1))
  {
    hide DataLength;
  }

  lemma {:induction false} FeedData(c: Reception, data: seq<byte>)
    requires c.l2 == AccumulateData && !c.done && data != []
    requires c.pkt.payloadLen + |data| == DataLength(c.pkt.pktlen)
    ensures Feed(c, data) ==
      c.(l2 := GetCrc0,
         pkt := c.pkt.(payload := Put(c.pkt.payload, c.pkt.payloadLen, data), payloadLen := c.pkt.payloadLen + |data|))
    decreases |data|
  {
    var p, n := c.pkt.payload, c.pkt.payloadLen;
    assert n + |data| <= BUFFER_SIZE;
    hide *;
    StoringIsSound(c);
    AcceptData(c, data[0]);
    OneByte(c, data[0], data[1..]);
    PutOneMore(p, n, data);
    assert data == [data[0]] + data[1..];
    if |data| == 1 {
      assert data[1..] == [];
      FeedNothing(Accept(c, data[0]));
    } else {
      FeedData(Accept(c, data[0]), data[1..]);
    }
  }

  lemma StoringIsSound(c: Reception)
    requires c.l2 == AccumulateData
    ensures Sound(c) <==> c.pkt.payloadLen < DataLength(c.pkt.pktlen)
  {
  }

  lemma PutOneMore(p: Payload, n: nat, data: seq<byte>)
    requires data != [] && n + |data| <= BUFFER_SIZE
    ensures Put(p, n, data) == Put(p[n := data[0]], n + 1, data[1..])
    ensures |data| == 1 ==> Put(p, n, data) == p[n := data[0]]
  {
  }

  /** The packet and status the receiver delivers for these bytes. */
  function Delivered(flags: byte, pktlen: byte, data: seq<byte>, lo: byte, hi: byte, end: byte): (Packet, Status)
    requires |data| == DataLength(pktlen)
  {
    var calculated := Crc16(0, [START_BYTE, flags, pktlen] + data);
    var p := Packet(START_BYTE, flags, pktlen, Put(ZeroPayload(), 0, data), Word16(lo, hi), end, |data|, calculated);
    (p.CopyTrailer(),
     Flag(Flag(SUCCESS, Word16(lo, hi) != calculated, ERROR_CRC), end != STOP_BYTE, ERROR_FRAMING))
  }

  lemma FeedHeader(flags: byte, pktlen: byte)
    ensures Feed(Fresh(), [START_BYTE, flags, pktlen]) ==
      Reception(if pktlen > 5 then AccumulateData else GetCrc0,
                ZeroPacket().(start := START_BYTE, flags := flags, pktlen := pktlen), SUCCESS, false)
  {
    hide DataLength, ZeroPayload, Feed;
    var a := Accept(Fresh(), START_BYTE);
    var b := Accept(a, flags);
    OneByte(Fresh(), START_BYTE, [flags] + ([pktlen] + []));
    OneByte(a, flags, [pktlen] + []);
    OneByte(b, pktlen, []);
    FeedNothing(Accept(b, pktlen));
    assert [START_BYTE, flags, pktlen] == [START_BYTE] + ([flags] + ([pktlen] + []));
  }

  lemma FeedFrameBody(flags: byte, pktlen: byte, data: seq<byte>)
    requires |data| == DataLength(pktlen)
    ensures Feed(Fresh(), [START_BYTE, flags, pktlen] + data) ==
      Reception(GetCrc0,
                Packet(START_BYTE, flags, pktlen, Put(ZeroPayload(), 0, data), 0, 0, |data|, 0), SUCCESS, false)
  {
    hide Accept, DataLength, ZeroPayload;
    var h := [START_BYTE, flags, pktlen];
    FeedHeader(flags, pktlen);
    FeedApart(Fresh(), h, data);
    var c := Feed(Fresh(), h);
    if data == [] {
      assert h + data == h;
      assert Put(ZeroPayload(), 0, data) == ZeroPayload();
    } else {
      FeedData(c, data);
    }
  }

  /** The packet completed by two check bytes and an end byte. */
  function Completed(c: Reception, lo: byte, hi: byte, end: byte): (Packet, Status)
    requires c.pkt.payloadLen <= PAYLOAD_MAX
  {
    var calculated := Crc16(Crc16(0, c.pkt.Header()), c.pkt.payload[..c.pkt.payloadLen]);
    (c.pkt.(crc := Word16(lo, hi), calculated := calculated, end := end).CopyTrailer(),
     Flag(Flag(c.status, Word16(lo, hi) != calculated, ERROR_CRC), end != STOP_BYTE, ERROR_FRAMING))
  }

  lemma JoinIsWord(lo: byte, hi: byte)
    ensures Join(lo as bv16, hi) == Word16(lo, hi)
  {
  }

  lemma ThreeAccepts(c: Reception, lo: byte, hi: byte, end: byte)
    requires c.l2 == GetCrc0 && Sound(c) && !c.done
    ensures var c0 := Accept(c, lo);
      !c0.done && var c1 := Accept(c0, hi);
      !c1.done && var c2 := Accept(c1, end);
      c2.done && (c2.pkt.CopyTrailer(), c2.status) == Completed(c, lo, hi, end)
  {
    hide Crc16, Flag, DataLength, Word16, Join, Packet.CopyTrailer;
    JoinIsWord(lo, hi);
  }

  lemma TrailerCompletes(c: Reception, lo: byte, hi: byte, end: byte, rest: seq<byte>)
    requires c.l2 == GetCrc0 && Sound(c) && !c.done
    ensures Receptions(c, [lo, hi, end] + rest) == [Completed(c, lo, hi, end)] + Receptions(Fresh(), rest)
  {
    hide *;
    ThreeAccepts(c, lo, hi, end);
    var c0 := Accept(c, lo);
    var c1 := Accept(c0, hi);
    OneByte(c, lo, [hi, end] + rest);
    OneByte(c0, hi, [end] + rest);
    OneByte(c1, end, rest);
    assert [lo, hi, end] + rest == [lo] + ([hi, end] + rest) && [hi, end] + rest == [hi] + ([end] + rest);
  }

  /** Any bytes with a start byte and a length byte that fits are consumed exactly, as one packet. */
  lemma OneFrame(flags: byte, pktlen: byte, data: seq<byte>, lo: byte, hi: byte, end: byte, rest: seq<byte>)
    requires |data| == DataLength(pktlen)
    ensures Receptions(Fresh(), [START_BYTE, flags, pktlen] + data + [lo, hi, end] + rest)
         == [Delivered(flags, pktlen, data, lo, hi, end)] + Receptions(Fresh(), rest)
  {
    hide Crc16, Flag, DataLength, ZeroPayload, Accept, Receptions, Feed, Word16, Lo, Hi;
    var body := [START_BYTE, flags, pktlen] + data;
    FeedFrameBody(flags, pktlen, data);
    var tail := [lo, hi, end] + rest;
    assert body + [lo, hi, end] + rest == body + tail;
    FeedApart(Fresh(), body, tail);
    TrailerCompletes(Feed(Fresh(), body), lo, hi, end, rest);
    assert Put(ZeroPayload(), 0, data)[..|data|] == data;
    Chaining(0, [START_BYTE, flags, pktlen], data);
  }

  // ------------------------------------------------------------ framing round trip

  datatype Sent = Sent(noise: seq<byte>, flags: byte, data: seq<byte>)

  /** Line noise is anything free of start bytes; data is anything that fits. */
  predicate Sendable(sent: seq<Sent>) {
    forall i :: 0 <= i < |sent| ==> START_BYTE !in sent[i].noise && |sent[i].data| <= PAYLOAD_MAX
  }

  function Line(sent: seq<Sent>): seq<byte>
    requires Sendable(sent)
  {
    if sent == [] then [] else
    sent[0].noise + Frame(sent[0].flags, sent[0].data) + Line(sent[1..])
  }

  predicate Intact(r: (Packet, Status), s: Sent) {
    && r.1 == SUCCESS
    && r.0.start == START_BYTE && r.0.flags == s.flags && r.0.end == STOP_BYTE
    && r.0.payloadLen == |s.data| <= PAYLOAD_MAX && r.0.payload[..r.0.payloadLen] == s.data
    && r.0.crc == r.0.calculated
    && r.0.pktlen == LengthByte(|s.data|)
  }

  lemma {:induction false} NoiseIgnored(noise: seq<byte>, s: seq<byte>)
    requires START_BYTE !in noise
    ensures Receptions(Fresh(), noise + s) == Receptions(Fresh(), s)
    decreases |noise|
  {
    if noise == [] {
      assert noise + s == s;
    } else {
      assert (noise + s)[1..] == noise[1..] + s;
      NoiseIgnored(noise[1..], s);
    }
  }

  lemma FrameLength(dataLen: nat)
    requires dataLen <= PAYLOAD_MAX
    ensures DataLength(LengthByte(dataLen)) == dataLen
  {
    LengthByteExact(dataLen);
    ByteFive(LengthByte(dataLen));
  }

  lemma ByteFive(b: byte)
    ensures b > 5 <==> b as int > 5
  {
  }

  /** What the receiver delivers for an undamaged frame. */
  function SentDelivery(flags: byte, data: seq<byte>): (Packet, Status)
    requires |data| <= PAYLOAD_MAX
  {
    hide Crc16, DataLength, LengthByte;
    FrameLength(|data|);
    var crc := Crc16(0, FrameBody(flags, data));
    Delivered(flags, LengthByte(|data|), data, Lo(crc), Hi(crc), STOP_BYTE)
  }

  /** A sent frame is consumed exactly, whatever its data contains. */
  lemma SentFrame(flags: byte, data: seq<byte>, rest: seq<byte>)
    requires |data| <= PAYLOAD_MAX
    ensures Receptions(Fresh(), Frame(flags, data) + rest) == [SentDelivery(flags, data)] + Receptions(Fresh(), rest)
  {
    hide Crc16, DataLength, LengthByte, Lo, Hi, Delivered, Receptions;
    var crc := Crc16(0, FrameBody(flags, data));
    FrameLength(|data|);
    OneFrame(flags, LengthByte(|data|), data, Lo(crc), Hi(crc), STOP_BYTE, rest);
    assert Frame(flags, data) + rest == FrameBody(flags, data) + [Lo(crc), Hi(crc), STOP_BYTE] + rest;
  }

  lemma DeliveredIntact(flags: byte, data: seq<byte>, noise: seq<byte>)
    requires |data| <= PAYLOAD_MAX
    ensures Intact(SentDelivery(flags, data), Sent(noise, flags, data))
  {
    hide Crc16, DataLength, LengthByte;
    FrameLength(|data|);
    WordSplit(Crc16(0, FrameBody(flags, data)));
  }

  /** The receiver returns exactly the packets sent, in order, none with an error. */
  lemma {:induction false} FramingRoundTrip(sent: seq<Sent>, trailing: seq<byte>)
    requires Sendable(sent) && START_BYTE !in trailing
    ensures var got := Receptions(Fresh(), Line(sent) + trailing);
      && |got| == |sent|
      && forall i :: 0 <= i < |sent| ==> Intact(got[i], sent[i])
    decreases |sent|
  {
    hide SentDelivery, Frame, Intact, Accept;
    if sent == [] {
      assert Line(sent) + trailing == trailing + [];
      NoiseIgnored(trailing, []);
    } else {
      var s := sent[0];
      var rest := Line(sent[1..]) + trailing;
      assert Line(sent) + trailing == s.noise + (Frame(s.flags, s.data) + rest);
      NoiseIgnored(s.noise, Frame(s.flags, s.data) + rest);
      SentFrame(s.flags, s.data, rest);
      DeliveredIntact(s.flags, s.data, s.noise);
      FramingRoundTrip(sent[1..], trailing);
    }
  }

  // ------------------------------------------------------------ damaged frames

  /** Flips in flags, data and check bytes; start, length and stop arrive as sent. */
  datatype Flips = Flips(flags: byte, data: seq<byte>, lo: byte, hi: byte) {
    /** The flips over everything the checksum covers and over the checksum. */
    function Pattern(): (e: seq<byte>)
      ensures |e| == |data| + 5
    {
      [0, flags, 0] + data + [lo, hi]
    }
  }

  lemma FlipNothing(b: byte)
    ensures Flip(b, 0) == b
  {
  }

  lemma XorConcat(a: seq<byte>, b: seq<byte>, c: seq<byte>, d: seq<byte>)
    requires |a| == |c| && |b| == |d|
    ensures Xor(a + b, c + d) == Xor(a, c) + Xor(b, d)
  {
    hide Flip;
  }

  lemma XorThree(x: byte, y: byte, z: byte, f: byte)
    ensures Xor([x, y, z], [0, f, 0]) == [x, Flip(y, f), z]
    ensures Xor([x], [0]) == [x]
  {
    FlipNothing(x);
    FlipNothing(z);
    hide Flip;
  }

  lemma XorTwo(x: byte, y: byte, f: byte, g: byte)
    ensures Xor([x, y], [f, g]) == [Flip(x, f), Flip(y, g)]
  {
    hide Flip;
  }

  lemma FrameShape(flags: byte, data: seq<byte>)
    requires |data| <= PAYLOAD_MAX
    ensures var body := FrameBody(flags, data);
      && body == [START_BYTE, flags, LengthByte(|data|)] + data
      && Protected(body) == body + [Lo(Crc16(0, body)), Hi(Crc16(0, body))]
      && Frame(flags, data) == Protected(body) + [STOP_BYTE]
  {
    hide Crc16, LengthByte, Lo, Hi;
  }

  /** The bytes of a damaged frame. */
  lemma DamagedBytes(flags: byte, data: seq<byte>, f: Flips)
    requires |data| <= PAYLOAD_MAX && |f.data| == |data|
    ensures var body := FrameBody(flags, data);
      var crc := Crc16(0, body);
      && |Protected(body)| == |body| + 2 == |data| + 5
      && Xor(Protected(body), f.Pattern())
        == [START_BYTE, Flip(flags, f.flags), LengthByte(|data|)] + Xor(data, f.data) + [Flip(Lo(crc), f.lo), Flip(Hi(crc), f.hi)]
      && Xor(Frame(flags, data), f.Pattern() + [0]) == Xor(Protected(body), f.Pattern()) + [STOP_BYTE]
  {
    assert f.Pattern() == [0, f.flags, 0] + f.data + [f.lo, f.hi];
    FrameShape(flags, data);
    hide *;
    var body := FrameBody(flags, data);
    var crc := Crc16(0, body);
    var h, eh := [START_BYTE, flags, LengthByte(|data|)], [0, f.flags, 0];
    XorThree(START_BYTE, flags, LengthByte(|data|), f.flags);
    XorThree(STOP_BYTE, 0, 0, 0);
    XorTwo(Lo(crc), Hi(crc), f.lo, f.hi);
    XorConcat(h, data, eh, f.data);
    XorConcat(body, [Lo(crc), Hi(crc)], eh + f.data, [f.lo, f.hi]);
    XorConcat(Protected(body), [STOP_BYTE], f.Pattern(), [0]);
  }

  lemma FlagFacts()
    ensures SUCCESS | ERROR_CRC == ERROR_CRC
  {
  }

  lemma DeliveredOutcome(flags: byte, pktlen: byte, data: seq<byte>, lo: byte, hi: byte) returns (p: Packet)
    requires |data| == DataLength(pktlen)
    ensures var head := [START_BYTE, flags, pktlen] + data;
      Delivered(flags, pktlen, data, lo, hi, STOP_BYTE) == (p, if Passes(head + [lo, hi]) then SUCCESS else ERROR_CRC)
    ensures p.flags == flags && p.payloadLen == |data| && p.payload[..|data|] == data
    ensures p.crc == p.calculated <==> Passes([START_BYTE, flags, pktlen] + data + [lo, hi])
  {
    hide Crc16, DataLength, Lo, Hi, Word16;
    FlagFacts();
    var head := [START_BYTE, flags, pktlen] + data;
    assert (head + [lo, hi])[..|head|] == head;
    p := Delivered(flags, pktlen, data, lo, hi, STOP_BYTE).0;
  }

  /** A damaged frame is still consumed exactly; it passes if and only if the damage is a code word. */
  lemma DamagedFrame(flags: byte, data: seq<byte>, f: Flips, rest: seq<byte>) returns (p: Packet)
    requires |data| <= PAYLOAD_MAX && |f.data| == |data|
    ensures Receptions(Fresh(), Xor(Frame(flags, data), f.Pattern() + [0]) + rest)
         == [(p, if Crc16(0, f.Pattern()) == 0 then SUCCESS else ERROR_CRC)] + Receptions(Fresh(), rest)
    ensures p.flags == Flip(flags, f.flags) && p.payloadLen == |data| && p.payload[..|data|] == Xor(data, f.data)
    ensures p.crc == p.calculated <==> Crc16(0, f.Pattern()) == 0
  {
    hide *;
    FrameLength(|data|);
    DamagedBytes(flags, data, f);
    var body := FrameBody(flags, data);
    var crc := Crc16(0, body);
    var pktlen, bad, lo, hi := LengthByte(|data|), Xor(data, f.data), Flip(Lo(crc), f.lo), Flip(Hi(crc), f.hi);
    var head := [START_BYTE, Flip(flags, f.flags), pktlen] + bad;
    p := DeliveredOutcome(Flip(flags, f.flags), pktlen, bad, lo, hi);
    UndetectedErrors(body, f.Pattern());
    OneFrame(Flip(flags, f.flags), pktlen, bad, lo, hi, STOP_BYTE, rest);
    assert head + [lo, hi] + [STOP_BYTE] == head + [lo, hi, STOP_BYTE];
  }

  /** Bursts of up to sixteen bits and odd numbers of flips never pass as good packets. */
  lemma DamageReported(flags: byte, data: seq<byte>, f: Flips, rest: seq<byte>) returns (p: Packet)
    requires |data| <= PAYLOAD_MAX && |f.data| == |data|
    requires IsBurst(Bits(f.Pattern())) || Count(Bits(f.Pattern())) % 2 == 1
    ensures Receptions(Fresh(), Xor(Frame(flags, data), f.Pattern() + [0]) + rest) == [(p, ERROR_CRC)] + Receptions(Fresh(), rest)
  {
    hide *;
    DamagedBytes(flags, data, f);
    p := DamagedFrame(flags, data, f, rest);
    ErrorsDetected(FrameBody(flags, data), f.Pattern());
    UndetectedErrors(FrameBody(flags, data), f.Pattern());
  }
}
