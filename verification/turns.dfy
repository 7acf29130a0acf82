/** What the history shows of downloads, of the turns of a connection, and of calls, step by step. */
module Turns {
  import opened Crc
  import opened Packets
  import opened Link
  import opened Transfer
  import opened Acks
  import opened TableLoop
  import Runs
  import Session

  // ------------------------------------------------------------ one downloaded table

  /**
   * The end of a wait for a table acknowledgement, from its last round on: an accepted packet is heard, and confirmed
   * if it names the table; after a refused one the retry request is the last thing written.
   */
  predicate WaitShows(last: State, tableId: byte, log: seq<Event>) {
    var r := Receive(last);
    log == last.log +
      if r.outcome == Exit then []
      else if Accepted(r.outcome.status) then
        [Heard(r.pkt.payload[..ID_LENGTH])] + if NamingReception(r, tableId) then [Confirmation(r.pkt.flags)] else []
      else if r.link.connected then [RetryRequest(r.link.rxSeq)] else []
  }

  /** The process is still there after the wait. */
  predicate WaitEnds(last: State) {
    var r := Receive(last);
    r.outcome.Returned? && (Accepted(r.outcome.status) || !r.link.connected)
  }

  lemma Waited(l: State, tableId: byte)
    ensures var last := LastRound(l);
      var (m, a) := WaitForTableAck(l, tableId);
      Later(l, last) && WaitShows(last, tableId, m.log) && (a != Exited <==> WaitEnds(last))
  {
    var last := LastRound(l);
    var r := Receive(last);
    AckedByNamingPacket(l, tableId);
    LastRoundLater(l);
    WaitForTableAckStep(last, tableId);
    SameLog(last);
    WaitListensLog(SendAck(r.link, FLAG_RETRY));
    AckLogged(r.link);
    AckLogged(r.link.(rxSeq := r.pkt.flags));
    hide LastRound, Later, Receive, WaitForTableAck, WaitForAck, SendAck, Accepted, NamingReception, Names, AckFrame,
      RetryRequest, Confirmation;
  }

  lemma WaitListensLog(l: State)
    ensures WaitForAck(l).link.log == l.log
  {
    Runs.WaitListens(l);
    hide WaitForAck;
  }

  lemma AckLogged(l: State)
    ensures l.connected ==> SendAck(l, FLAG_RETRY).log == l.log + [RetryRequest(l.rxSeq)]
    ensures AckFrame(FLAG_ACK | Sequence(l.rxSeq)) == Confirmation(l.rxSeq)
  {
    Kinds(l.rxSeq);
    Runs.AckSends(l, FLAG_RETRY);
    hide AckFrame, SendAck;
  }

  /**
   * One table of a download: sent, and then, if it was confirmed and is not the end of data, waited for under its own
   * id and nothing else. Behind the end of data nothing is heard and nothing acknowledged.
   */
  predicate OneTable(l: State, table: seq<byte>, m: State, alive: bool) {
    var s := SendTable(l, table);
    if s.outcome == Returned(SUCCESS) && table != [] && table[0] != 0x0d then
      var last := LastRound(s.link);
      && m == WaitForTableAck(s.link, table[0]).0
      && Later(s.link, last) && WaitShows(last, table[0], m.log) && (alive <==> WaitEnds(last))
    else m == s.link && (alive <==> s.outcome != Exit)
  }

  lemma TableDownloaded(l: State, table: seq<byte>)
    ensures OneTable(l, table, DownloadOne(l, table).0, DownloadOne(l, table).1)
  {
    hide SendTable, LastRound, Later, WaitForTableAck, WaitShows, WaitEnds;
    var s := SendTable(l, table);
    if table != [] {
      Waited(s.link, table[0]);
    }
  }

  /** The first thing of a transfer is the announcement of the first piece, and nothing is taken back. */
  lemma TableCalled(l: State, table: seq<byte>, m: State, alive: bool)
    requires OneTable(l, table, m, alive)
    ensures l.log <= m.log
    ensures table != [] && l.connected ==> |m.log| > |l.log| && m.log[|l.log|] == Call(Piece(table, 0))
    ensures table == [] ==> m == l && alive
  {
    var s := SendTable(l, table).link;
    SentFirst(l, table);
    if table != [] {
      WaitGrows(s, table[0]);
    } else {
      NothingToSend(l);
    }
    hide SendTable, LastRound, Later, WaitForTableAck, WaitShows, WaitEnds, Piece;
    assert s.log <= m.log;
    if table != [] && l.connected {
      assert m.log[|l.log|] == s.log[|l.log|];
    }
  }

  lemma PieceCalled(l: State, chunk: seq<byte>)
    requires |chunk| <= DATA_MAX && l.connected
    ensures var log := SendData(l, chunk).link.log;
      |log| > |l.log| && log[|l.log|] == Call(chunk) && l.log <= log
  {
    hide SendData, Packaged, Repeat, HasFailed;
    var n := SendDataWrites(l, chunk);
  }

  lemma SentFirst(l: State, table: seq<byte>)
    ensures var log := SendTable(l, table).link.log;
      && l.log <= log
      && (table != [] && l.connected ==> |log| > |l.log| && log[|l.log|] == Call(Piece(table, 0)))
  {
    hide SendTable, SendData;
    HistoryGrows(l, Runs.DoSendTable(table));
    if table != [] && l.connected {
      assert table[DATA_MAX * 0..] == table;
      SendTableStep(l, table, 0);
      PieceCalled(l, Piece(table, 0));
      var s := SendData(l, Piece(table, 0));
      HistoryGrows(s.link, Runs.DoSendTable(table[(if |table| < DATA_MAX then |table| else DATA_MAX)..]));
    }
  }

  // ------------------------------------------------------------ a download, table by table

  /**
   * The states between the tables of a download: the tables in their order, each on a live link; it ends with the
   * last table, on a dead link, or with the process.
   */
  predicate InTurn(ls: seq<State>, tables: seq<seq<byte>>, alive: bool) {
    && 0 < |ls| <= |tables| + 1
    && (forall i :: 0 <= i < |ls| - 1 ==>
      ls[i].connected && OneTable(ls[i], tables[i], ls[i + 1], alive || i < |ls| - 2))
    && (if alive then |ls| == |tables| + 1 || !ls[|ls| - 1].connected else |ls| > 1)
  }

  lemma FirstInTurn(l: State, tables: seq<seq<byte>>, rest: seq<State>, alive: bool)
    requires tables != [] && l.connected && rest != [] && OneTable(l, tables[0], rest[0], true)
    requires InTurn(rest, tables[1..], alive)
    ensures InTurn([l] + rest, tables, alive)
  {
    hide OneTable;
    var ls := [l] + rest;
    forall i | 0 <= i < |ls| - 1
      ensures ls[i].connected && OneTable(ls[i], tables[i], ls[i + 1], alive || i < |ls| - 2)
    {
      if i > 0 {
        var j := i - 1;
        assert ls[i] == rest[j] && ls[i + 1] == rest[j + 1] && tables[i] == tables[1..][j];
      }
    }
  }

  lemma {:induction false} DownloadInTurn(l: State, tables: seq<seq<byte>>) returns (ls: seq<State>)
    ensures InTurn(ls, tables, Download(l, tables).1)
    ensures ls[0] == l && ls[|ls| - 1] == Download(l, tables).0
    decreases |tables|
  {
    hide DownloadOne, OneTable, InTurn;
    ls := [l];
    if tables == [] || !l.connected {
      NoTable(l, tables);
    } else {
      var (m, alive) := DownloadOne(l, tables[0]);
      TableDownloaded(l, tables[0]);
      if alive {
        var rest := DownloadInTurn(m, tables[1..]);
        InTurnLength(rest, tables[1..], Download(m, tables[1..]).1);
        FirstInTurn(l, tables, rest, Download(m, tables[1..]).1);
        ls := [l] + rest;
      } else {
        LastTable(l, tables, m);
        ls := [l, m];
      }
    }
  }

  lemma InTurnLength(ls: seq<State>, tables: seq<seq<byte>>, alive: bool)
    requires InTurn(ls, tables, alive)
    ensures ls != []
  {
    hide OneTable;
  }

  lemma NoTable(l: State, tables: seq<seq<byte>>)
    requires tables == [] || !l.connected
    ensures InTurn([l], tables, true)
  {
    hide OneTable;
  }

  lemma LastTable(l: State, tables: seq<seq<byte>>, m: State)
    requires tables != [] && l.connected && OneTable(l, tables[0], m, false)
    ensures InTurn([l, m], tables, false)
  {
    hide OneTable;
  }

  /** The first thing of a download is the announcement of the first piece of the first table that is not empty. */
  lemma {:induction false} FirstCalled(l: State, tables: seq<seq<byte>>, k: nat)
    requires l.connected && k < |tables| && tables[k] != [] && forall j :: 0 <= j < k ==> tables[j] == []
    ensures var log := Download(l, tables).0.log;
      && l.log <= log && |log| > |l.log| && log[|l.log|] == Call(Piece(tables[k], 0))
    decreases k
  {
    hide DownloadOne, OneTable, Piece;
    var (m, alive) := DownloadOne(l, tables[0]);
    TableDownloaded(l, tables[0]);
    TableCalled(l, tables[0], m, alive);
    if k > 0 {
      FirstCalled(m, tables[1..], k - 1);
    } else {
      DownloadGrows(m, tables[1..]);
    }
  }

  lemma DownloadGrows(l: State, tables: seq<seq<byte>>)
    ensures l.log <= Download(l, tables).0.log
  {
    hide *;
    var ops := DownloadRuns(l, tables);
    RunGrows(l, ops);
  }

  // ------------------------------------------------------------ one turn of the loop

  /** The reply that is due to a processed packet. */
  function ReplyTo(s: Session.Session, d: Session.Delivery): seq<byte> { Session.Serve(s, Session.MessagesOf(d)).1 }

  predicate Asks(d: Session.Delivery) { Session.AsksDownload(Session.MessagesOf(d)) }

  /**
   * What follows the reply to a processed packet: nothing if no message asked for a download, and otherwise the
   * tables in their turn.
   */
  predicate TurnEnds(sent: Link.Sent, asks: bool, tables: seq<seq<byte>>, m: State, result: Result, ls: seq<State>) {
    if sent.outcome == Exit then m == sent.link && result == Quit
    else if !asks then m == sent.link && result == Processed
    else
      && (result == Processed || result == Quit)
      && InTurn(ls, tables, result == Processed) && ls[0] == sent.link && ls[|ls| - 1] == m
  }

  /** A packet that fits is finished with its reply and the download that it asks for. */
  lemma TurnFinishes(l: State, s: Session.Session, input: Input)
    requires PacketsProcessed(l, input) != []
    requires Session.Good(s) && Session.FitsPacket(Session.LoadOf(s), PacketsProcessed(l, input)[0])
    ensures var d := PacketsProcessed(l, input)[0];
      var (t, reply) := Session.Serve(s, Session.MessagesOf(d));
      ProcessTable(l, s, input) == Finish(ReceiveTable(l).link, s, Session.Done(t, reply, Asks(d)), input.tables)
  {
    hide Link.ReceiveTable, Session.Process, Session.Serve, Session.MessagesOf, Session.AsksDownload, Session.Good,
      Session.FitsPacket, Session.LoadOf, Finish, Narrow;
    var d := PacketsProcessed(l, input)[0];
    Session.PacketFits(s, d);
    AskedExactly(s, d);
  }

  lemma Finishing(l: State, s: Session.Session, t: Session.Session, reply: seq<byte>, asks: bool, tables: seq<seq<byte>>)
    returns (ls: seq<State>)
    ensures var (m, next, result) := Finish(l, s, Session.Done(t, reply, asks), tables);
      next == t && TurnEnds(Answer(l, reply), asks, tables, m, result, ls)
  {
    hide Answer, Download, InTurn;
    ls := DownloadInTurn(Answer(l, reply).link, tables);
  }

  /** A packet that fits is answered, and the tables are downloaded exactly if one of its messages asks for it. */
  lemma TurnDownloads(l: State, s: Session.Session, input: Input) returns (ls: seq<State>)
    requires PacketsProcessed(l, input) != []
    requires Session.Good(s) && Session.FitsPacket(Session.LoadOf(s), PacketsProcessed(l, input)[0])
    ensures var d := PacketsProcessed(l, input)[0];
      var (m, t, result) := ProcessTable(l, s, input);
      && t == Session.Serve(s, Session.MessagesOf(d)).0
      && TurnEnds(Answer(ReceiveTable(l).link, ReplyTo(s, d)), Asks(d), input.tables, m, result, ls)
  {
    hide Link.ReceiveTable, ProcessTable, Finish, PacketsProcessed, TurnEnds, Session.Serve, Session.MessagesOf,
      Session.Good, Session.FitsPacket, Session.LoadOf, Asks, Answer;
    var d := PacketsProcessed(l, input)[0];
    TurnFinishes(l, s, input);
    ls := Finishing(ReceiveTable(l).link, s, Session.Serve(s, Session.MessagesOf(d)).0, ReplyTo(s, d), Asks(d), input.tables);
  }

  lemma AskedExactly(s: Session.Session, d: Session.Delivery)
    ensures var t := Session.Process(s, d.p, d.len, d.env); t.Done? ==> (t.download <==> Asks(d))
  {
    Session.LoopServes(s, [], false, d.p, ID_LENGTH, d.len, d.env);
    hide Session.Messages, Session.Serve, Session.Split, Session.WithinBuffer, Session.AsksDownload;
  }

  /** If a download is asked for and the link is up after the reply, its first table is the next thing announced. */
  lemma FirstBehindReply(l: State, s: Session.Session, input: Input, k: nat)
    requires PacketsProcessed(l, input) != []
    requires Session.Good(s) && Session.FitsPacket(Session.LoadOf(s), PacketsProcessed(l, input)[0])
    requires k < |input.tables| && input.tables[k] != [] && forall j :: 0 <= j < k ==> input.tables[j] == []
    ensures var d := PacketsProcessed(l, input)[0];
      var sent := Answer(ReceiveTable(l).link, ReplyTo(s, d));
      var log := ProcessTable(l, s, input).0.log;
      Asks(d) && sent.outcome != Exit && sent.link.connected ==>
        && sent.link.log <= log && |log| > |sent.link.log|
        && log[|sent.link.log|] == Call(Piece(input.tables[k], 0))
  {
    var d := PacketsProcessed(l, input)[0];
    Session.PacketFits(s, d);
    AskedExactly(s, d);
    hide Link.ReceiveTable, Session.Process, Session.Serve, Session.MessagesOf, Session.AsksDownload, Session.Good,
      Session.FitsPacket, Session.LoadOf, Answer, Download, Narrow, Piece;
    var sent := Answer(ReceiveTable(l).link, ReplyTo(s, d));
    if sent.link.connected {
      FirstCalled(sent.link, input.tables, k);
    }
  }

  /** Without a packet to process the turn ends after reception, and the session stays as it was. */
  lemma TurnRefused(l: State, s: Session.Session, input: Input)
    requires PacketsProcessed(l, input) == []
    ensures var (m, t, result) := ProcessTable(l, s, input);
      && m == ReceiveTable(l).link && t == s
      && (result == Quit || (result.Refused? && result.status != 0))
      && (result == Quit <==> ReceiveTable(l).outcome == Exit)
  {
    hide Link.ReceiveTable, Session.Process, Finish, Narrow;
  }

  // ------------------------------------------------------------ the turns of a connection

  /** What one connection leaves behind: the link and session between its turns, and how each turn ended. */
  datatype Course = Course(links: seq<State>, sessions: seq<Session.Session>, results: seq<Result>)

  /** Three turns in a row were refused just before the i-th. */
  predicate ThreeRefused(results: seq<Result>, i: nat) {
    3 <= i <= |results| && results[i - 1].Refused? && results[i - 2].Refused? && results[i - 3].Refused?
  }

  predicate Proceeds(c: Course) {
    |c.links| == |c.sessions| == |c.results| + 1
  }

  /** Every turn is one processed table on a live link; none follows three refusals, or the end of the process. */
  predicate Turning(c: Course, inputs: seq<Input>)
    requires Proceeds(c)
  {
    && |c.results| <= |inputs|
    && forall i :: 0 <= i < |c.results| ==>
      && c.links[i].connected && !ThreeRefused(c.results, i)
      && ProcessTable(c.links[i], c.sessions[i], inputs[i]) == (c.links[i + 1], c.sessions[i + 1], c.results[i])
      && (i < |c.results| - 1 ==> c.results[i].Processed? || c.results[i].Refused?)
  }

  /**
   * A connection ends with the last input, with the link, or after three refusals in a row, and then the link is hung
   * up; or it ends with the process.
   */
  predicate Ending(c: Course, inputs: seq<Input>, m: State, t: Session.Session, alive: bool)
    requires Proceeds(c)
  {
    var n := |c.results|;
    var last := c.links[n];
    && t == c.sessions[n]
    && if alive then
      && (n > 0 ==> c.results[n - 1].Processed? || c.results[n - 1].Refused?)
      && (n == |inputs| || !last.connected || ThreeRefused(c.results, n))
      && !m.connected && m == if last.connected then last.(connected := false, txSeq := 0) else last
    else n > 0 && (c.results[n - 1] == Quit || c.results[n - 1] == Outside) && m == last
  }

  /** Refusals at the end of these results. */
  function Refusals(results: seq<Result>): nat {
    if results == [] || !results[|results| - 1].Refused? then 0 else 1 + Refusals(results[..|results| - 1])
  }

  lemma RefusalsStep(results: seq<Result>, r: Result)
    ensures Refusals(results + [r]) == if r.Refused? then 1 + Refusals(results) else 0
  {
    assert (results + [r])[..|results|] == results;
  }

  lemma RefusedThrice(results: seq<Result>)
    ensures Refusals(results) >= 3 <==> ThreeRefused(results, |results|)
  {
    var n := |results|;
    if n >= 1 {
      assert results[..n - 1][..n - 1] == results[..n - 1];
    }
    if n >= 3 {
      assert Refusals(results[..n - 1]) == if !results[n - 2].Refused? then 0 else 1 + Refusals(results[..n - 1][..n - 2]);
      assert results[..n - 1][..n - 2] == results[..n - 2] && results[..n - 2][..n - 3] == results[..n - 3];
    }
  }

  function More(c: Course, m: State, t: Session.Session, result: Result): Course {
    Course(c.links + [m], c.sessions + [t], c.results + [result])
  }

  /** A course so far, on which the connection can go on. */
  predicate Underway(c: Course, inputs: seq<Input>) {
    && Proceeds(c) && Turning(c, inputs)
    && (c.results != [] ==> c.results[|c.results| - 1].Processed? || c.results[|c.results| - 1].Refused?)
  }

  lemma OneMoreTurn(c: Course, inputs: seq<Input>)
    requires Underway(c, inputs) && |c.results| < |inputs|
    requires c.links[|c.results|].connected && !ThreeRefused(c.results, |c.results|)
    ensures var n := |c.results|;
      var (m, t, result) := ProcessTable(c.links[n], c.sessions[n], inputs[n]);
      var d := More(c, m, t, result);
      Proceeds(d) && Turning(d, inputs) && d.links[0] == c.links[0] && d.sessions[0] == c.sessions[0]
  {
    hide ProcessTable;
    var n := |c.results|;
    var (m, t, result) := ProcessTable(c.links[n], c.sessions[n], inputs[n]);
    var d := More(c, m, t, result);
    forall i | 0 <= i < |d.results|
      ensures d.links[i].connected && !ThreeRefused(d.results, i)
      ensures ProcessTable(d.links[i], d.sessions[i], inputs[i]) == (d.links[i + 1], d.sessions[i + 1], d.results[i])
      ensures i < |d.results| - 1 ==> d.results[i].Processed? || d.results[i].Refused?
    {
      if i < n {
        assert d.links[i] == c.links[i] && d.links[i + 1] == c.links[i + 1] && d.results[i] == c.results[i];
        assert d.sessions[i] == c.sessions[i] && d.sessions[i + 1] == c.sessions[i + 1];
        assert !ThreeRefused(c.results, i);
      }
    }
  }

  /** Where the connection is after the results so far. */
  function Onward(c: Course, inputs: seq<Input>): (State, Session.Session, bool)
    requires Underway(c, inputs)
  {
    hide ProcessTable, Connection;
    Connection(c.links[|c.results|], c.sessions[|c.results|], inputs[|c.results|..], Refusals(c.results))
  }

  /** No more turns: the inputs are used up, the link is down, or three turns in a row were refused. */
  predicate Over(c: Course, inputs: seq<Input>)
    requires Underway(c, inputs)
  {
    |c.results| == |inputs| || !c.links[|c.results|].connected || Refusals(c.results) >= 3
  }

  lemma OverEnds(c: Course, inputs: seq<Input>)
    requires Underway(c, inputs) && Over(c, inputs)
    ensures var end := Onward(c, inputs); Ending(c, inputs, end.0, end.1, end.2)
  {
    hide ProcessTable, Turning;
    RefusedThrice(c.results);
    NotBeyond(c, inputs);
  }

  lemma TurnOn(c: Course, inputs: seq<Input>) returns (d: Course)
    requires Underway(c, inputs) && !Over(c, inputs)
    ensures |d.results| == |c.results| + 1 && Proceeds(d) && Turning(d, inputs)
    ensures d.links[0] == c.links[0] && d.sessions[0] == c.sessions[0]
    ensures var result := d.results[|c.results|];
      if result.Processed? || result.Refused? then Underway(d, inputs) && Onward(d, inputs) == Onward(c, inputs)
      else var end := Onward(c, inputs); Ending(d, inputs, end.0, end.1, end.2)
  {
    hide ProcessTable, Turning;
    var n := |c.results|;
    NotBeyond(c, inputs);
    var (m, t, result) := ProcessTable(c.links[n], c.sessions[n], inputs[n]);
    RefusedThrice(c.results);
    assert inputs[n..][0] == inputs[n] && inputs[n..][1..] == inputs[n + 1..];
    OneMoreTurn(c, inputs);
    RefusalsStep(c.results, result);
    d := More(c, m, t, result);
  }

  lemma {:induction false} ConnectionGoesOn(c: Course, inputs: seq<Input>) returns (e: Course)
    requires Underway(c, inputs)
    ensures Proceeds(e) && Turning(e, inputs) && e.links[0] == c.links[0] && e.sessions[0] == c.sessions[0]
    ensures var end := Onward(c, inputs); Ending(e, inputs, end.0, end.1, end.2)
    decreases |inputs| - |c.results|
  {
    UnderwayIs(c, inputs);
    hide Underway, Over, Onward, Turning, Ending;
    if Over(c, inputs) {
      OverEnds(c, inputs);
      e := c;
    } else {
      e := TurnOn(c, inputs);
      NotBeyond(e, inputs);
      var result := e.results[|c.results|];
      if result.Processed? || result.Refused? {
        e := ConnectionGoesOn(e, inputs);
      }
    }
  }

  lemma UnderwayIs(c: Course, inputs: seq<Input>)
    requires Underway(c, inputs)
    ensures Proceeds(c) && Turning(c, inputs) && |c.results| <= |inputs|
  {
    hide ProcessTable;
  }

  lemma NotBeyond(c: Course, inputs: seq<Input>)
    requires Proceeds(c) && Turning(c, inputs)
    ensures |c.results| <= |inputs|
  {
    hide ProcessTable;
  }

  /** The course of a connection: how its turns follow each other, why it ends, and that it hangs up. */
  lemma ConnectionTurns(l: State, s: Session.Session, inputs: seq<Input>) returns (c: Course)
    ensures Proceeds(c) && Turning(c, inputs) && c.links[0] == l && c.sessions[0] == s
    ensures var (m, t, alive) := Connection(l, s, inputs, 0); Ending(c, inputs, m, t, alive)
  {
    hide ProcessTable, Connection, Ending;
    assert inputs[0..] == inputs;
    c := ConnectionGoesOn(Course([l], [s], []), inputs);
  }

  // ------------------------------------------------------------ the calls

  /** A call is opened anew on the link as the one before left it. */
  predicate OneCall(l: State, s: Session.Session, inputs: seq<Input>, m: State, t: Session.Session, alive: bool) {
    var up := l.(connected := true, txSeq := 0, log := l.log + [Opened]);
    Connection(up, s, inputs, 0) == (m, t, alive)
  }

  /** Every call begins with the link and session of the one before it; none follows the end of the process. */
  predicate Calling(ls: seq<State>, ss: seq<Session.Session>, calls: seq<seq<Input>>, alive: bool) {
    && 0 < |ls| == |ss| <= |calls| + 1
    && (forall i :: 0 <= i < |ls| - 1 ==>
      OneCall(ls[i], ss[i], calls[i], ls[i + 1], ss[i + 1], alive || i < |ls| - 2))
    && (if alive then |ls| == |calls| + 1 else |ls| > 1)
  }

  lemma FirstCalling(l: State, s: Session.Session, calls: seq<seq<Input>>, ls: seq<State>, ss: seq<Session.Session>,
      alive: bool)
    requires calls != [] && Calling(ls, ss, calls[1..], alive) && OneCall(l, s, calls[0], ls[0], ss[0], true)
    ensures Calling([l] + ls, [s] + ss, calls, alive)
  {
    hide OneCall;
    var ms, ts := [l] + ls, [s] + ss;
    forall i | 0 <= i < |ms| - 1
      ensures OneCall(ms[i], ts[i], calls[i], ms[i + 1], ts[i + 1], alive || i < |ms| - 2)
    {
      if i > 0 {
        var j := i - 1;
        assert ms[i] == ls[j] && ms[i + 1] == ls[j + 1] && calls[i] == calls[1..][j];
        assert ts[i] == ss[j] && ts[i + 1] == ss[j + 1];
      }
    }
  }

  lemma CallsStep(l: State, s: Session.Session, calls: seq<seq<Input>>)
    ensures calls == [] ==> Calls(l, s, calls) == (l, s) && Calling([l], [s], calls, true)
    ensures calls != [] ==>
      var (m, t, alive) := Connection(Connect(l), s, calls[0], 0);
      && OneCall(l, s, calls[0], m, t, alive)
      && Calls(l, s, calls) == if alive then Calls(m, t, calls[1..]) else (m, t)
  {
    hide Connection;
  }

  lemma {:induction false} CallsInTurn(l: State, s: Session.Session, calls: seq<seq<Input>>)
    returns (ls: seq<State>, ss: seq<Session.Session>, alive: bool)
    ensures Calling(ls, ss, calls, alive)
    ensures ls[0] == l && ss[0] == s && (ls[|ls| - 1], ss[|ss| - 1]) == Calls(l, s, calls)
    decreases |calls|
  {
    hide Connection, OneCall, Calls;
    CallsStep(l, s, calls);
    ls, ss, alive := [l], [s], true;
    if calls != [] {
      var (m, t, up) := Connection(Connect(l), s, calls[0], 0);
      if up {
        ls, ss, alive := CallsInTurn(m, t, calls[1..]);
        FirstCalling(l, s, calls, ls, ss, alive);
        ls, ss := [l] + ls, [s] + ss;
      } else {
        ls, ss, alive := [l, m], [s, t], false;
      }
    }
  }
}
