/** What one operation of the transfer does: segmentation, acknowledgement, and reception of byte streams. */
module Transfer {
  import opened Basics
  import opened Crc
  import opened Packets
  import opened Framing
  import opened Phone
  import opened Link
  import opened Runs

  // ------------------------------------------------------------ segmentation

  function Repeat(e: Event, n: nat): seq<Event> { seq(n, _ => e) }

  /** The i-th piece of a table: 245 bytes, or what is left. */
  function Piece(table: seq<byte>, i: nat): (r: seq<byte>)
    requires DATA_MAX * i <= |table|
    ensures |r| <= DATA_MAX
  {
    table[DATA_MAX * i..Min(|table|, DATA_MAX * i + DATA_MAX)]
  }

  /** Pieces i, i+1, ... each announced once and written tries[0], tries[1], ... times under rising sequence numbers. */
  function Transcript(table: seq<byte>, i: nat, tries: seq<nat>, seqNo: byte, id: seq<byte>): seq<Event>
    requires |id| == ID_LENGTH
    requires tries != [] ==> DATA_MAX * (i + |tries| - 1) < |table|
    decreases |tries|
  {
    if tries == [] then [] else
    [Call(Piece(table, i))] + Repeat(DataSent(DataFrame(seqNo, id, Piece(table, i))), tries[0])
      + Transcript(table, i + 1, tries[1..], seqNo + 1, id)
  }

  predicate HasFailed(status: Status) { status & 0x200 != 0 }

  lemma FailureIsNoSuccess(status: Status)
    ensures Flag(status, true, ERROR_FAILURE) != SUCCESS && ERROR_DISCONNECT != SUCCESS
    ensures HasFailed(Flag(status, true, ERROR_FAILURE))
  {
  }

  /** The packet of a send: sequence number and terminal id of the moment, and the data. */
  function Packaged(l: State, chunk: seq<byte>): Event
    requires |chunk| <= DATA_MAX
  {
    DataSent(DataFrame(l.txSeq, EncodeId(l.terminalId), chunk))
  }

  /**
   * Packet written n times; while the connection lasts the sequence number moves once, even on giving up, and that
   * only after the last attempt.
   */
  predicate Wrote(l: State, chunk: seq<byte>, retries: nat, s: Link.Sent, n: nat)
    requires |chunk| <= DATA_MAX
  {
    && s.link.log == l.log + Repeat(Packaged(l, chunk), n)
    && s.link.terminalId == l.terminalId
    && n + retries <= MAX_RETRIES
    && (l.connected && retries < MAX_RETRIES <==> n > 0)
    && (s.outcome == Returned(SUCCESS) ==> l.connected)
    && (s.outcome.Returned? && s.link.connected ==> l.connected && s.link.txSeq == l.txSeq + 1)
    && (s.outcome.Returned? && s.outcome != Returned(SUCCESS) && s.link.connected ==> n + retries == MAX_RETRIES)
    && (s.outcome.Returned? && s.outcome != Returned(SUCCESS) ==>
      HasFailed(s.outcome.status) || (s.outcome.status == ERROR_DISCONNECT && !s.link.connected))
  }

  lemma WroteNothing(l: State, chunk: seq<byte>, retries: nat, status: Status)
    requires |chunk| <= DATA_MAX && retries <= MAX_RETRIES
    ensures retries == MAX_RETRIES ==>
      Wrote(l, chunk, retries, Link.Sent.Sent(l.(txSeq := l.txSeq + 1), Returned(Flag(status, true, ERROR_FAILURE))), 0)
    ensures !l.connected ==> Wrote(l, chunk, retries, Link.Sent.Sent(l, Returned(ERROR_DISCONNECT)), 0)
  {
    FailureIsNoSuccess(status);
    hide DataFrame, EncodeId, Flag, Frame, HasFailed;
    assert l.log + [] == l.log;
  }

  lemma WrittenIs(l: State, chunk: seq<byte>)
    requires |chunk| <= DATA_MAX
    ensures Written(l, chunk) == l.(log := l.log + Repeat(Packaged(l, chunk), 1))
  {
    hide DataFrame, EncodeId;
  }

  lemma WroteOnce(l: State, chunk: seq<byte>, retries: nat, w: State)
    requires |chunk| <= DATA_MAX && retries < MAX_RETRIES && l.connected
    requires OnlyListened(Written(l, chunk), w)
    ensures Wrote(l, chunk, retries, Link.Sent.Sent(w, Exit), 1)
    ensures Wrote(l, chunk, retries, Link.Sent.Sent(w.(txSeq := w.txSeq + 1), Returned(SUCCESS)), 1)
  {
    hide DataFrame, EncodeId, Packaged, Written, Repeat, HasFailed;
    WrittenIs(l, chunk);
  }

  lemma WroteAgain(l: State, chunk: seq<byte>, retries: nat, w: State, s: Link.Sent, m: nat)
    requires |chunk| <= DATA_MAX && retries < MAX_RETRIES && l.connected
    requires OnlyListened(Written(l, chunk), w) && Wrote(w, chunk, retries + 1, s, m)
    ensures Wrote(l, chunk, retries, s, m + 1)
  {
    hide DataFrame, EncodeId, Written, HasFailed;
    WrittenIs(l, chunk);
    if w.connected {
      assert Packaged(w, chunk) == Packaged(l, chunk);
    }
    assert l.log + Repeat(Packaged(l, chunk), 1) + Repeat(Packaged(w, chunk), m) == l.log + Repeat(Packaged(l, chunk), m + 1);
  }

  lemma {:induction false} SendLoopWrites(l: State, chunk: seq<byte>, retries: nat, status: Status) returns (n: nat)
    requires |chunk| <= DATA_MAX && retries <= MAX_RETRIES
    ensures Wrote(l, chunk, retries, SendLoop(l, chunk, retries, status), n)
    decreases MAX_RETRIES - retries
  {
    hide *;
    SendLoopStep(l, chunk, retries, status);
    WroteNothing(l, chunk, retries, status);
    n := 0;
    if retries < MAX_RETRIES && l.connected {
      var w := WaitForAck(Written(l, chunk));
      WaitListens(Written(l, chunk));
      WroteOnce(l, chunk, retries, w.link);
      n := 1;
      if w.outcome.Returned? && w.outcome.status != SUCCESS {
        var m := SendLoopWrites(w.link, chunk, retries + 1, w.outcome.status);
        WroteAgain(l, chunk, retries, w.link, SendLoop(w.link, chunk, retries + 1, w.outcome.status), m);
        n := m + 1;
      }
    }
  }

  /**
   * One send, whatever the line does: announced once, written one to five times, never when disconnected, and given
   * up on a live connection only after five times.
   */
  lemma SendDataWrites(l: State, chunk: seq<byte>) returns (n: nat)
    requires |chunk| <= DATA_MAX
    ensures var s := SendData(l, chunk);
      && s.link.log == l.log + (if l.connected then [Call(chunk)] + Repeat(Packaged(l, chunk), n) else [])
      && s.link.terminalId == l.terminalId
      && (l.connected ==> 1 <= n <= 5)
      && (s.outcome == Returned(SUCCESS) ==> l.connected)
      && (s.outcome.Returned? && s.link.connected ==> s.link.txSeq == l.txSeq + 1)
      && (s.outcome.Returned? && s.outcome != Returned(SUCCESS) && s.link.connected ==> n == 5)
      && (s.outcome.Returned? && s.outcome != Returned(SUCCESS) ==>
        HasFailed(s.outcome.status) || (s.outcome.status == ERROR_DISCONNECT && !s.link.connected))
  {
    hide SendLoop, DataFrame, EncodeId, Repeat, HasFailed;
    if l.connected {
      n := SendLoopWrites(l.(log := l.log + [Call(chunk)]), chunk, 0, SUCCESS);
    } else {
      n := SendLoopWrites(l, chunk, 0, SUCCESS);
      SendLoopStep(l, chunk, 0, SUCCESS);
    }
  }

  lemma SendTableStep(l: State, table: seq<byte>, i: nat)
    requires DATA_MAX * i < |table|
    ensures var s := SendData(l, Piece(table, i));
      SendTable(l, table[DATA_MAX * i..]) ==
        if s.outcome == Returned(SUCCESS) then SendTable(s.link, table[Min(|table|, DATA_MAX * i + DATA_MAX)..]) else s
  {
    hide SendData;
    var rest := table[DATA_MAX * i..];
    var n := Min(|rest|, DATA_MAX);
    assert rest[..n] == Piece(table, i);
    assert rest[n..] == table[Min(|table|, DATA_MAX * i + DATA_MAX)..];
  }

  /** One transcript piece more in front. */
  lemma TranscriptCons(table: seq<byte>, i: nat, n: nat, more: seq<nat>, seqNo: byte, id: seq<byte>)
    requires |id| == ID_LENGTH && DATA_MAX * i < |table|
    requires more != [] ==> DATA_MAX * (i + |more|) < |table|
    ensures Transcript(table, i, [n] + more, seqNo, id) ==
      [Call(Piece(table, i))] + Repeat(DataSent(DataFrame(seqNo, id, Piece(table, i))), n) + Transcript(table, i + 1, more, seqNo + 1, id)
  {
    hide DataFrame, Repeat;
    assert ([n] + more)[1..] == more;
  }

  lemma TranscriptEnd(table: seq<byte>, i: nat, seqNo: byte, id: seq<byte>)
    requires |id| == ID_LENGTH
    ensures Transcript(table, i, [], seqNo, id) == []
  {
  }

  /** The next n pieces from the i-th on, sent one after the other, are all answered with success. */
  predicate Confirmed(l: State, table: seq<byte>, i: nat, n: nat)
    requires n > 0 ==> DATA_MAX * (i + n - 1) < |table|
    decreases n
  {
    n == 0 ||
    var s := SendData(l, Piece(table, i));
    s.outcome == Returned(SUCCESS) && Confirmed(s.link, table, i + 1, n - 1)
  }

  lemma ConfirmedStep(l: State, table: seq<byte>, i: nat, n: nat)
    requires DATA_MAX * (i + n) < |table|
    ensures var s := SendData(l, Piece(table, i));
      Confirmed(l, table, i, n + 1) <==> s.outcome == Returned(SUCCESS) && Confirmed(s.link, table, i + 1, n)
    ensures Confirmed(l, table, i, 0)
  {
    hide SendData, Piece;
  }

  /** What a transfer from the i-th piece on wrote. */
  predicate Logged(l: State, table: seq<byte>, i: nat, tries: seq<nat>, log: seq<Event>) {
    && (tries != [] ==> DATA_MAX * (i + |tries| - 1) < |table|)
    && (forall k :: 0 <= k < |tries| ==> 1 <= tries[k] <= MAX_RETRIES)
    && log == l.log + Transcript(table, i, tries, l.txSeq, EncodeId(l.terminalId))
  }

  /** All pieces but the last of n were confirmed; success means that nothing is left and the last was confirmed, too. */
  predicate ConfirmedUpTo(l: State, table: seq<byte>, i: nat, n: nat, outcome: Outcome)
    requires n > 0 ==> DATA_MAX * (i + n - 1) < |table|
  {
    && (n > 0 ==> Confirmed(l, table, i, n - 1))
    && (outcome == Returned(SUCCESS) <==> DATA_MAX * (i + n) >= |table| && Confirmed(l, table, i, n))
  }

  /** What a transfer from the i-th piece on wrote, and what of it was confirmed. */
  predicate Covers(l: State, table: seq<byte>, i: nat, tries: seq<nat>, s: Link.Sent) {
    Logged(l, table, i, tries, s.link.log) && ConfirmedUpTo(l, table, i, |tries|, s.outcome)
  }

  lemma CoversNothing(l: State, table: seq<byte>, i: nat, s: Link.Sent)
    requires s.link.log == l.log && (s.outcome == Returned(SUCCESS) <==> DATA_MAX * i >= |table|)
    ensures Covers(l, table, i, [], s)
  {
    assert l.log + [] == l.log;
  }

  lemma LogsJoin(a: seq<Event>, first: seq<Event>, later: seq<Event>)
    ensures a + first + later == a + (first + later)
  {
  }

  lemma LoggedOne(l: State, table: seq<byte>, i: nat, n: nat, m: State, more: seq<nat>, log: seq<Event>)
    requires DATA_MAX * i < |table| && 1 <= n <= MAX_RETRIES
    requires m.log == l.log + ([Call(Piece(table, i))] + Repeat(Packaged(l, Piece(table, i)), n)) && m.terminalId == l.terminalId
    requires Logged(m, table, i + 1, more, log) && (more == [] || m.txSeq == l.txSeq + 1)
    ensures Logged(l, table, i, [n] + more, log)
  {
    hide DataFrame, EncodeId, Repeat, Transcript, Piece, Frame;
    var id := EncodeId(l.terminalId);
    var first := [Call(Piece(table, i))] + Repeat(Packaged(l, Piece(table, i)), n);
    var later := Transcript(table, i + 1, more, l.txSeq + 1, id);
    TranscriptCons(table, i, n, more, l.txSeq, id);
    if more == [] {
      TranscriptEnd(table, i + 1, l.txSeq + 1, id);
      TranscriptEnd(table, i + 1, m.txSeq, id);
    }
    assert log == l.log + first + later;
    LogsJoin(l.log, first, later);
    assert log == l.log + Transcript(table, i, [n] + more, l.txSeq, id);
    TriesBounded(n, more);
  }

  lemma ConfirmedOne(l: State, table: seq<byte>, i: nat, n: nat, outcome: Outcome)
    requires DATA_MAX * i < |table| && (n > 0 ==> DATA_MAX * (i + n) < |table|)
    requires var s := SendData(l, Piece(table, i));
      if s.outcome == Returned(SUCCESS) then ConfirmedUpTo(s.link, table, i + 1, n, outcome)
      else n == 0 && outcome != Returned(SUCCESS)
    ensures ConfirmedUpTo(l, table, i, n + 1, outcome)
  {
    ConfirmedStep(l, table, i, n);
    if n > 0 {
      ConfirmedStep(l, table, i, n - 1);
    }
    hide SendData, Piece, Confirmed;
  }

  lemma CoversOne(l: State, table: seq<byte>, i: nat, n: nat, m: State, more: seq<nat>, s: Link.Sent)
    requires DATA_MAX * i < |table| && 1 <= n <= MAX_RETRIES
    requires m.log == l.log + ([Call(Piece(table, i))] + Repeat(Packaged(l, Piece(table, i)), n)) && m.terminalId == l.terminalId
    requires m == SendData(l, Piece(table, i)).link
    requires if SendData(l, Piece(table, i)).outcome == Returned(SUCCESS) then Covers(m, table, i + 1, more, s)
      else more == [] && s.link == m && s.outcome != Returned(SUCCESS)
    requires more == [] || m.txSeq == l.txSeq + 1
    ensures Covers(l, table, i, [n] + more, s)
  {
    hide Transcript, SendData, Piece, Repeat, Packaged, EncodeId, ConfirmedUpTo, Confirmed;
    if more == [] {
      LoggedNothing(m, table, i + 1);
    }
    MoreLeft(m, table, i, more, s.link.log);
    ConfirmedOne(l, table, i, |more|, s.outcome);
    LoggedOne(l, table, i, n, m, more, s.link.log);
  }

  lemma LoggedNothing(m: State, table: seq<byte>, i: nat)
    ensures Logged(m, table, i, [], m.log)
  {
    assert m.log + [] == m.log;
  }

  lemma MoreLeft(m: State, table: seq<byte>, i: nat, more: seq<nat>, log: seq<Event>)
    requires Logged(m, table, i + 1, more, log)
    ensures more != [] ==> DATA_MAX * (i + |more|) < |table|
  {
  }

  lemma TriesBounded(n: nat, more: seq<nat>)
    requires 1 <= n <= MAX_RETRIES && forall k :: 0 <= k < |more| ==> 1 <= more[k] <= MAX_RETRIES
    ensures forall k :: 0 <= k < |[n] + more| ==> 1 <= ([n] + more)[k] <= MAX_RETRIES
  {
  }

  /** Every run of a table transfer, from its i-th piece on. */
  lemma {:induction false} SendTableWrites(l: State, table: seq<byte>, i: nat) returns (tries: seq<nat>)
    requires DATA_MAX * i <= |table|
    ensures Covers(l, table, i, tries, SendTable(l, table[DATA_MAX * i..]))
    ensures !l.connected ==> tries == []
    decreases |table| - DATA_MAX * i
  {
    hide SendData, SendTable, Transcript, Covers, Packaged, Repeat, Piece, DataFrame, EncodeId;
    var all := SendTable(l, table[DATA_MAX * i..]);
    tries := [];
    if DATA_MAX * i == |table| {
      NothingToSend(l);
      assert table[DATA_MAX * i..] == [];
      CoversNothing(l, table, i, all);
    } else {
      var s := SendData(l, Piece(table, i));
      SendTableStep(l, table, i);
      var n := SendDataWrites(l, Piece(table, i));
      if !l.connected {
        assert l.log + [] == l.log;
        CoversNothing(l, table, i, all);
      } else {
        if s.outcome != Returned(SUCCESS) {
          CoversOne(l, table, i, n, s.link, [], s);
          tries := [n] + [];
        } else if DATA_MAX * i + DATA_MAX >= |table| {
          NothingToSend(s.link);
          assert table[|table|..] == [];
          CoversNothing(s.link, table, i + 1, all);
          CoversOne(l, table, i, n, s.link, [], all);
          tries := [n] + [];
        } else {
          var more := SendTableWrites(s.link, table, i + 1);
          CoversOne(l, table, i, n, s.link, more, all);
          tries := [n] + more;
        }
      }
    }
  }

  lemma NothingToSend(l: State)
    ensures SendTable(l, []) == Link.Sent.Sent(l, Returned(SUCCESS))
  {
  }

  /** The data announced in a history. */
  function Announced(log: seq<Event>): seq<byte> {
    if log == [] then [] else (if log[0].Call? then log[0].chunk else []) + Announced(log[1..])
  }

  lemma {:induction false} AnnouncedApart(a: seq<Event>, b: seq<Event>)
    ensures Announced(a + b) == Announced(a) + Announced(b)
  {
    if a == [] {
      assert a + b == b;
    } else {
      assert (a + b)[1..] == a[1..] + b;
      AnnouncedApart(a[1..], b);
    }
  }

  lemma {:induction false} RepeatsAnnounceNothing(wire: seq<byte>, n: nat)
    ensures Announced(Repeat(DataSent(wire), n)) == []
  {
    if n > 0 {
      assert Repeat(DataSent(wire), n)[1..] == Repeat(DataSent(wire), n - 1);
      RepeatsAnnounceNothing(wire, n - 1);
    }
  }

  /** The pieces of a transcript join up to the table from the first piece on. */
  lemma {:induction false} PiecesJoinUp(table: seq<byte>, i: nat, tries: seq<nat>, seqNo: byte, id: seq<byte>)
    requires |id| == ID_LENGTH && DATA_MAX * i <= |table|
    requires tries != [] ==> DATA_MAX * (i + |tries| - 1) < |table|
    ensures Announced(Transcript(table, i, tries, seqNo, id)) == table[DATA_MAX * i..Min(|table|, DATA_MAX * (i + |tries|))]
    decreases |tries|
  {
    hide DataFrame, Repeat, Announced, Frame, Crc16, LengthByte;
    if tries == [] {
      AnnouncedNothing();
      assert table[DATA_MAX * i..DATA_MAX * i] == [];
    } else {
      var piece := Piece(table, i);
      var head := [Call(piece)] + Repeat(DataSent(DataFrame(seqNo, id, piece)), tries[0]);
      var rest := Transcript(table, i + 1, tries[1..], seqNo + 1, id);
      OnePieceAnnounced(piece, DataFrame(seqNo, id, piece), tries[0]);
      AnnouncedApart(head, rest);
      if |tries| > 1 {
        PiecesJoinUp(table, i + 1, tries[1..], seqNo + 1, id);
        SlicesJoin(table, DATA_MAX * i, DATA_MAX * (i + 1), Min(|table|, DATA_MAX * (i + |tries|)));
      } else {
        AnnouncedNothing();
        assert tries[1..] == [];
      }
    }
  }

  lemma SlicesJoin(s: seq<byte>, a: nat, b: nat, c: nat)
    requires a <= b <= c <= |s|
    ensures s[a..b] + s[b..c] == s[a..c]
  {
  }

  lemma AnnouncedNothing()
    ensures Announced([]) == []
  {
  }

  lemma OnePieceAnnounced(piece: seq<byte>, wire: seq<byte>, n: nat)
    ensures Announced([Call(piece)] + Repeat(DataSent(wire), n)) == piece
  {
    hide Repeat;
    RepeatsAnnounceNothing(wire, n);
    assert ([Call(piece)] + Repeat(DataSent(wire), n))[1..] == Repeat(DataSent(wire), n);
  }

  /**
   * A transfer announces a prefix of the table piece by piece; all pieces but the last are confirmed, so that the
   * confirmed ones are a prefix, too; and it reports success exactly if the whole table is confirmed.
   */
  lemma TableSegmented(l: State, table: seq<byte>) returns (tries: seq<nat>)
    ensures tries != [] ==> DATA_MAX * (|tries| - 1) < |table|
    ensures forall k :: 0 <= k < |tries| ==> 1 <= tries[k] <= MAX_RETRIES
    ensures var s := SendTable(l, table);
      var events := Transcript(table, 0, tries, l.txSeq, EncodeId(l.terminalId));
      && s.link.log == l.log + events
      && Announced(events) == table[..Min(|table|, DATA_MAX * |tries|)]
      && (tries != [] ==> Confirmed(l, table, 0, |tries| - 1))
      && (s.outcome == Returned(SUCCESS) <==> Announced(events) == table && Confirmed(l, table, 0, |tries|))
  {
    hide SendTable, Transcript, EncodeId, Announced, Confirmed;
    assert table[DATA_MAX * 0..] == table;
    tries := SendTableWrites(l, table, 0);
    PiecesJoinUp(table, 0, tries, l.txSeq, EncodeId(l.terminalId));
  }
}
