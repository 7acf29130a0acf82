/** The link's receive operation on real byte streams: same packets as the framing level, bounded waiting, acknowledgements. */
module ReceptionOverLink {
  import opened Crc
  import opened Packets
  import opened Framing
  import opened Frames
  import opened Link

  // ------------------------------------------------------------ the blocking receiver sees what framing delivers

  function BytesRead(script: seq<Read>): seq<byte> {
    if script == [] then [] else (if script[0].Data? then [script[0].b] else []) + BytesRead(script[1..])
  }

  /** No read error, and never more than ten empty reads in a row; the first of them follow `silent` others. */
  predicate Steady(script: seq<Read>, silent: nat)
    decreases |script|
  {
    script == [] ||
    match script[0]
    case Data(_) => Steady(script[1..], 0)
    case Silence => silent < TIMEOUT_MAX && Steady(script[1..], silent + 1)
    case Broken => false
  }

  /** The carrier, if monitored, is there for at least n more polls. */
  predicate CarrierHolds(l: State, n: nat) {
    l.monitorCarrier ==> n <= |l.carrier| && forall i :: 0 <= i < |l.carrier| ==> l.carrier[i]
  }

  /** The status a packet is returned with: framing and checksum, plus what its flags add. */
  function WithFlags(p: (Packet, Status)): (Packet, Status) {
    var s := Flag(p.1, Has(p.0.flags, FLAG_RETRY), ERROR_RETRY);
    (p.0, if Has(p.0.flags, FLAG_DISCONNECT) then Flag(s, true, ERROR_DISCONNECT) else s)
  }

  lemma CompleteIs(l: State, p: Packet, status: Status)
    ensures var r := Complete(l, p, status);
      && r.outcome == Returned(WithFlags((p, status)).1) && r.pkt == p
      && r.link == if Has(p.flags, FLAG_DISCONNECT) then Disconnect(l) else l
  {
    hide Flag, Has;
  }

  lemma SteadyStep(script: seq<Read>, silent: nat)
    requires script != [] && Steady(script, silent)
    ensures script[0].Data? ==> Steady(script[1..], 0) && BytesRead(script) == [script[0].b] + BytesRead(script[1..])
    ensures script[0].Silence? ==> silent < TIMEOUT_MAX && Steady(script[1..], silent + 1) && BytesRead(script) == BytesRead(script[1..])
    ensures !script[0].Broken?
  {
  }

  lemma CarrierStep(l: State, n: nat)
    requires CarrierHolds(l, n + 1)
    ensures !CarrierLost(l) && CarrierHolds(Polled(l), n) && CarrierHolds(l, n)
    ensures Polled(l).script == l.script && Polled(l).connected == l.connected
  {
  }

  lemma CarrierSame(l: State, m: State, n: nat)
    requires CarrierHolds(l, n) && m.monitorCarrier == l.monitorCarrier && m.carrier == l.carrier
    ensures CarrierHolds(m, n)
  {
  }

  /** What one reception from mid-packet yields, compared with the framing of all bytes to come. */
  predicate Yields(r: Received, expected: seq<(Packet, Status)>) {
    if expected == [] then r.outcome == Exit else
    && (r.pkt, expected[0].1) == expected[0]
    && r.outcome == Returned(WithFlags(expected[0]).1)
    && r.link.connected == !Has(r.pkt.flags, FLAG_DISCONNECT)
    && Steady(r.link.script, 0) && CarrierHolds(r.link, |r.link.script| + 1)
    && Receptions(Fresh(), BytesRead(r.link.script)) == expected[1..]
  }

  lemma YieldsNothing(l: State, p: Packet)
    ensures Yields(Received(l, p, Exit), [])
  {
  }

  lemma YieldsPacket(l: State, p: Packet, status: Status, rest: seq<(Packet, Status)>)
    requires l.connected && Steady(l.script, 0) && CarrierHolds(l, |l.script| + 1)
    requires Receptions(Fresh(), BytesRead(l.script)) == rest
    ensures Yields(Complete(l, p, status), [(p, status)] + rest)
  {
    CompleteIs(l, p, status);
    hide Complete, Flag, Has, Receptions, WithFlags, Steady, Fresh;
    assert ([(p, status)] + rest)[1..] == rest;
  }

  lemma NoBytes(c: Reception)
    requires Sound(c) && !c.done
    ensures Receptions(c, BytesRead([])) == []
  {
  }

  lemma {:induction false} LoopYields(l: State, c: Reception, timeout: nat)
    requires Sound(c) && !c.done && l.connected
    requires Steady(l.script, timeout) && CarrierHolds(l, |l.script|)
    ensures Yields(ReceiveLoop(l, c, timeout), Receptions(c, BytesRead(l.script)))
    decreases |l.script|
  {
    assert TIMEOUT_MAX == 10;
    hide *;
    ReceiveLoopStep(l, c, timeout);
    if l.script == [] {
      NoBytes(c);
      YieldsNothing(l, c.pkt);
    } else {
      var next := l.(script := l.script[1..]);
      SteadyStep(l.script, timeout);
      CarrierSame(l, next, |next.script| + 1);
      match l.script[0] {
        case Silence =>
          CarrierStep(next, |next.script|);
          LoopYields(Polled(next), c, timeout + 1);
        case Data(b) =>
          OneByte(c, b, BytesRead(next.script));
          var d := Accept(c, b);
          if d.done {
            YieldsPacket(next, d.pkt.CopyTrailer(), d.status, Receptions(Fresh(), BytesRead(next.script)));
          } else {
            CarrierStep(next, |next.script|);
            LoopYields(next, d, 0);
          }
        case Broken =>
      }
    }
  }

  /** A link that is up, on a line without read errors, long silences or carrier loss. */
  predicate Up(l: State) {
    l.connected && Steady(l.script, 0) && CarrierHolds(l, |l.script| + 1)
  }

  lemma ReceiveYields(l: State)
    requires Up(l)
    ensures Yields(Receive(l), Receptions(Fresh(), BytesRead(l.script)))
  {
    assert l.connected && Steady(l.script, 0) && CarrierHolds(l, |l.script| + 1);
    hide *;
    ReceiveStep(l);
    CarrierStep(l, |l.script|);
    LoopYields(Polled(l), Fresh(), 0);
  }

  /** Receiving for as long as the connection lasts. */
  function Deliveries(l: State): seq<(Packet, Status)>
    decreases |l.script|
  {
    var r := Receive(l);
    match r.outcome
    case Exit => []
    case Returned(status) => [(r.pkt, status)] + (if r.link.connected then Deliveries(r.link) else [])
  }

  /** Everything up to and including the first packet that asks to disconnect. */
  function UntilDisconnect(ps: seq<(Packet, Status)>): seq<(Packet, Status)> {
    if ps == [] then [] else
    [WithFlags(ps[0])] + (if Has(ps[0].0.flags, FLAG_DISCONNECT) then [] else UntilDisconnect(ps[1..]))
  }

  /**
   * On every byte stream the blocking receiver and the transcript parser deliver the same packets, byte for byte,
   * with the same checksum and framing status, for as long as the terminal does not disconnect.
   */
  lemma {:induction false} DeliveriesMatchParser(l: State)
    requires Up(l)
    ensures Deliveries(l) == UntilDisconnect(ParseAll(Fresh(), BytesRead(l.script)))
    decreases |l.script|
  {
    hide Receive, Receptions, ParseAll, Has, WithFlags, Fresh, Steady, CarrierHolds;
    ParserRefinesReceiver(BytesRead(l.script));
    ReceiveYields(l);
    var r := Receive(l);
    var expected := Receptions(Fresh(), BytesRead(l.script));
    if expected != [] {
      assert r.pkt == expected[0].0;
      assert WithFlags(expected[0]) == (r.pkt, r.outcome.status) by { WithFlagsKeepsPacket(expected[0]); }
      if r.link.connected {
        ParserRefinesReceiver(BytesRead(r.link.script));
        DeliveriesMatchParser(r.link);
      }
    }
  }

  lemma WithFlagsKeepsPacket(p: (Packet, Status))
    ensures WithFlags(p).0 == p.0
  {
  }

  // ------------------------------------------------------------ and on any line

  predicate Failure(outcome: Outcome) {
    outcome in {Exit, Returned(ERROR_DISCONNECT), Returned(ERROR_NO_CARRIER), Returned(ERROR_TIMEOUT), Returned(ERROR_FAILURE)}
  }

  /** A reception against the packets in the reads it consumed: one, which it returns, or none and a failure. */
  predicate Matches(r: Received, packets: seq<(Packet, Status)>) {
    if packets == [] then Failure(r.outcome)
    else packets == [(r.pkt, packets[0].1)] && r.outcome == Returned(WithFlags(packets[0]).1)
  }

  lemma Failures()
    ensures Failure(Exit) && Failure(Returned(ERROR_DISCONNECT)) && Failure(Returned(ERROR_NO_CARRIER))
    ensures Failure(Returned(ERROR_TIMEOUT)) && Failure(Returned(ERROR_FAILURE))
  {
  }

  lemma OneRead(first: Read, rest: seq<Read>)
    ensures BytesRead([first] + rest) == if first.Data? then [first.b] + BytesRead(rest) else BytesRead(rest)
  {
    assert ([first] + rest)[1..] == rest;
  }

  lemma LastRead(read: Read)
    ensures BytesRead([read]) == if read.Data? then [read.b] else []
  {
    assert [read][1..] == [];
  }

  lemma FailureMatches(r: Received, c: Reception, read: seq<Read>)
    requires Sound(c) && !c.done && Failure(r.outcome) && BytesRead(read) == []
    ensures Matches(r, Receptions(c, BytesRead(read)))
  {
    hide Failure, BytesRead;
  }

  lemma PacketMatches(l: State, c: Reception, b: byte)
    requires Sound(c) && !c.done && Accept(c, b).done
    ensures var d := Accept(c, b);
      Matches(Complete(l, d.pkt.CopyTrailer(), d.status), Receptions(c, BytesRead([Data(b)])))
  {
    hide Accept, Complete, WithFlags, Fresh, Sound;
    var d := Accept(c, b);
    CompleteIs(l, d.pkt.CopyTrailer(), d.status);
    LastRead(Data(b));
    OneByte(c, b, []);
    NoBytes(Fresh());
  }

  lemma {:induction false} LoopMatches(l: State, c: Reception, timeout: nat) returns (read: seq<Read>)
    requires Sound(c) && !c.done
    ensures l.script == read + ReceiveLoop(l, c, timeout).link.script
    ensures Matches(ReceiveLoop(l, c, timeout), Receptions(c, BytesRead(read)))
    decreases |l.script|
  {
    hide *;
    Failures();
    var r := ReceiveLoop(l, c, timeout);
    if l.script == [] {
      read := [];
      NothingRead();
      LoopExits(l, c, timeout);
      FailureMatches(r, c, read);
    } else {
      var first, next := l.script[0], l.(script := l.script[1..]);
      read := [first];
      assert l.script == [first] + next.script;
      PolledReads(next);
      LastRead(first);
      match first {
        case Silence =>
          LoopWaits(l, c, timeout);
          if next.connected && !CarrierLost(next) && timeout < TIMEOUT_MAX {
            read := LoopMatches(Polled(next), c, timeout + 1);
            OneRead(first, read);
            read := [first] + read;
          } else {
            FailureMatches(r, c, read);
          }
        case Broken =>
          LoopBreaks(l, c, timeout);
          FailureMatches(r, c, read);
        case Data(b) =>
          LoopAccepts(l, c, timeout, b);
          var d := Accept(c, b);
          if d.done {
            PacketMatches(next, c, b);
          } else {
            read := LoopMatches(next, d, 0);
            OneRead(first, read);
            OneByte(c, b, BytesRead(read));
            read := [first] + read;
          }
      }
    }
  }

  lemma NothingRead()
    ensures BytesRead([]) == []
  {
  }

  lemma PolledReads(l: State)
    ensures Polled(l).script == Disconnect(l).script == Disconnect(Polled(l)).script == l.script
  {
  }

  /**
   * On any line, whatever fails: a reception returns exactly the packet that the transcript parser finds in the reads
   * it consumed, or fails if there is none in them.
   */
  lemma EveryReception(l: State) returns (read: seq<Read>)
    ensures l.script == read + Receive(l).link.script
    ensures Matches(Receive(l), ParseAll(Fresh(), BytesRead(read)))
  {
    hide *;
    Failures();
    ReceiveStep(l);
    PolledReads(l);
    NothingRead();
    read := [];
    if CarrierLost(l) || !Polled(l).connected {
      FailureMatches(Receive(l), Fresh(), read);
    } else {
      read := LoopMatches(Polled(l), Fresh(), 0);
    }
    ParserRefinesReceiver(BytesRead(read));
  }
}
