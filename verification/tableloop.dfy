/** The manager above link and session: one table at a time, whole connections, any number of calls. */
module TableLoop {
  import opened Crc
  import opened Packets
  import opened Framing
  import opened Frames
  import opened Phone
  import opened Link
  import opened Runs
  import opened Transfer
  import opened Acks
  import Session

  // ------------------------------------------------------------ one table

  datatype Result = Quit | Outside | Refused(status: byte) | Processed

  /** The status of a reception is kept in eight bits. */
  function Narrow(status: Status): byte { (status & 0xFF) as byte }

  function Answer(l: State, reply: seq<byte>): Link.Sent {
    if reply == [] then Link.Sent.Sent(l, Returned(SUCCESS)) else SendTable(l, reply)
  }

  /** One table of a download; all but the end of data are to be acknowledged by the terminal. */
  function DownloadOne(l: State, table: seq<byte>): (State, bool) {
    var s := SendTable(l, table);
    if s.outcome == Returned(SUCCESS) && table != [] && table[0] != Session.END_DATA then
      var (m, a) := WaitForTableAck(s.link, table[0]);
      (m, a != Exited)
    else (s.link, s.outcome != Exit)
  }

  /** Tables are sent one after the other while the connection lasts. */
  function Download(l: State, tables: seq<seq<byte>>): (State, bool)
    decreases |tables|
  {
    if tables == [] || !l.connected then (l, true) else
    var (m, alive) := DownloadOne(l, tables[0]);
    if alive then Download(m, tables[1..]) else (m, false)
  }

  /** What a table is processed with: clock and data base, and the tables to download if the terminal asks. */
  datatype Input = Input(env: Session.Env, tables: seq<seq<byte>>)

  function ProcessTable(l: State, s: Session.Session, input: Input): (State, Session.Session, Result) {
    var t := ReceiveTable(l);
    match t.outcome
    case Exit => (t.link, s, Quit)
    case Returned(status) =>
      if Narrow(status) != 0 then (t.link, s, Refused(Narrow(status)))
      else Finish(t.link, s, Session.Process(s, t.pkt.payload, t.pkt.payloadLen, input.env), input.tables)
  }

  function Finish(l: State, s: Session.Session, turn: Session.Turn, tables: seq<seq<byte>>): (State, Session.Session, Result) {
    match turn
    case Overrun => (l, s, Outside)
    case Done(next, reply, download) =>
      var sent := Answer(l, reply);
      if sent.outcome == Exit then (sent.link, next, Quit)
      else if !download then (sent.link, next, Processed)
      else
        var (m, alive) := Download(sent.link, tables);
        (m, next, if alive then Processed else Quit)
  }

  // ------------------------------------------------------------ connections

  /** Tables are processed while the connection lasts; three refusals in a row end it. */
  function Connection(l: State, s: Session.Session, inputs: seq<Input>, retries: nat): (State, Session.Session, bool)
    decreases |inputs|
  {
    if inputs == [] || !l.connected || retries >= 3 then (if l.connected then Disconnect(l) else l, s, true) else
    var (m, t, result) := ProcessTable(l, s, inputs[0]);
    match result
    case Quit => (m, t, false)
    case Outside => (m, t, false)
    case Processed => Connection(m, t, inputs[1..], 0)
    case Refused(_) => Connection(m, t, inputs[1..], retries + 1)
  }

  function Calls(l: State, s: Session.Session, calls: seq<seq<Input>>): (State, Session.Session)
    decreases |calls|
  {
    if calls == [] then (l, s) else
    var (m, t, alive) := Connection(Connect(l), s, calls[0], 0);
    if alive then Calls(m, t, calls[1..]) else (m, t)
  }

  // ------------------------------------------------------------ everything the manager does is a run of the link

  lemma {:induction false} RunOnApart(l: State, a: seq<Op>, b: seq<Op>)
    requires RunOn(l, a).1
    ensures RunOn(l, a + b) == RunOn(RunOn(l, a).0, b)
    decreases |a|
  {
    hide Step;
    if a == [] {
      assert a + b == b;
    } else {
      var (m, alive) := Step(l, a[0]);
      assert (a + b)[1..] == a[1..] + b;
      RunOnApart(m, a[1..], b);
    }
  }

  lemma OneOp(l: State, op: Op)
    ensures RunOn(l, [op]) == Step(l, op)
  {
    hide Step;
    assert [op][1..] == [];
  }

  lemma DownloadOneRuns(l: State, table: seq<byte>) returns (ops: seq<Op>)
    ensures RunOn(l, ops) == DownloadOne(l, table)
  {
    hide SendTable, WaitForTableAck, RunOn;
    var s := SendTable(l, table);
    ops := [DoSendTable(table)];
    OneOp(l, DoSendTable(table));
    if s.outcome == Returned(SUCCESS) && table != [] && table[0] != Session.END_DATA {
      OneOp(s.link, DoWaitForTableAck(table[0]));
      RunOnApart(l, ops, [DoWaitForTableAck(table[0])]);
      ops := ops + [DoWaitForTableAck(table[0])];
    }
  }

  lemma {:induction false} DownloadRuns(l: State, tables: seq<seq<byte>>) returns (ops: seq<Op>)
    ensures RunOn(l, ops) == Download(l, tables)
    decreases |tables|
  {
    hide DownloadOne, RunOn;
    if tables == [] || !l.connected {
      ops := [];
      NoOps(l);
    } else {
      var (m, alive) := DownloadOne(l, tables[0]);
      ops := DownloadOneRuns(l, tables[0]);
      if alive {
        var more := DownloadRuns(m, tables[1..]);
        RunOnApart(l, ops, more);
        ops := ops + more;
      }
    }
  }

  lemma NoOps(l: State)
    ensures RunOn(l, []) == (l, true)
  {
  }

  lemma FinishRuns(l: State, s: Session.Session, turn: Session.Turn, tables: seq<seq<byte>>) returns (ops: seq<Op>)
    ensures RunOn(l, ops) == (Finish(l, s, turn, tables).0, Finish(l, s, turn, tables).2 != Quit)
  {
    hide SendTable, Download, RunOn;
    ops := [];
    NoOps(l);
    if turn.Done? {
      if turn.reply != [] {
        OneOp(l, DoSendTable(turn.reply));
        ops := [DoSendTable(turn.reply)];
      }
      var sent := Answer(l, turn.reply);
      if sent.outcome != Exit && turn.download {
        var more := DownloadRuns(sent.link, tables);
        RunOnApart(l, ops, more);
        ops := ops + more;
      }
    }
  }

  lemma ProcessRuns(l: State, s: Session.Session, input: Input) returns (ops: seq<Op>)
    ensures RunOn(l, ops) == (ProcessTable(l, s, input).0, ProcessTable(l, s, input).2 != Quit)
  {
    hide Link.ReceiveTable, RunOn, Finish, Session.Process, Narrow;
    var t := ReceiveTable(l);
    OneOp(l, DoReceiveTable);
    ops := [DoReceiveTable];
    if t.outcome.Returned? && Narrow(t.outcome.status) == 0 {
      var turn := Session.Process(s, t.pkt.payload, t.pkt.payloadLen, input.env);
      var more := FinishRuns(t.link, s, turn, input.tables);
      RunOnApart(l, ops, more);
      ops := ops + more;
    }
  }

  lemma {:induction false} ConnectionRuns(l: State, s: Session.Session, inputs: seq<Input>, retries: nat)
    returns (ops: seq<Op>, alive: bool)
    ensures RunOn(l, ops) == (Connection(l, s, inputs, retries).0, alive)
    ensures Connection(l, s, inputs, retries).2 ==> alive
    decreases |inputs|
  {
    hide ProcessTable, RunOn;
    NoOps(l);
    ops, alive := [], true;
    if inputs == [] || !l.connected || retries >= 3 {
      if l.connected {
        OneOp(l, DoDisconnect);
        ops := [DoDisconnect];
      }
    } else {
      var (m, t, result) := ProcessTable(l, s, inputs[0]);
      ops := ProcessRuns(l, s, inputs[0]);
      alive := result != Quit;
      if result.Processed? || result.Refused? {
        var more;
        more, alive := ConnectionRuns(m, t, inputs[1..], if result.Processed? then 0 else retries + 1);
        RunOnApart(l, ops, more);
        ops := ops + more;
      }
    }
  }

  lemma {:induction false} CallsRun(l: State, s: Session.Session, calls: seq<seq<Input>>) returns (ops: seq<Op>)
    ensures RunOn(l, ops).0 == Calls(l, s, calls).0
    decreases |calls|
  {
    hide Connection, RunOn, Connect;
    ops := [];
    NoOps(l);
    if calls != [] {
      OneOp(l, DoConnect);
      var (m, t, alive) := Connection(Connect(l), s, calls[0], 0);
      var first, _ := ConnectionRuns(Connect(l), s, calls[0], 0);
      RunOnApart(l, [DoConnect], first);
      ops := [DoConnect] + first;
      if alive {
        var more := CallsRun(m, t, calls[1..]);
        RunOnApart(l, ops, more);
        ops := ops + more;
      }
    }
  }

  /** So whatever terminal and line do over any number of calls, every event of the link is as its history demands. */
  lemma EveryCall(l: State, s: Session.Session, calls: seq<seq<Input>>, i: nat)
    requires Idle(l) && i < |Calls(l, s, calls).0.log|
    ensures EventOk(Calls(l, s, calls).0.log[..i], Calls(l, s, calls).0.log[i])
  {
    hide EventOk, Calls, RunOn, Idle;
    var ops := CallsRun(l, s, calls);
    EveryRun(l, ops, i);
  }

  // ------------------------------------------------------------ the history only grows

  lemma HistoryGrows(l: State, op: Op)
    ensures l.log <= Step(l, op).0.log
  {
    match op {
      case DoConnect =>
      case DoDisconnect =>
      case DoSendTable(table) =>
        var _ := TableSegmented(l, table);
        hide SendTable, Transfer.Transcript, EncodeId;
      case DoReceiveTable =>
        AcceptedIsAcknowledged(l);
        ReceiveListens(l);
        hide Link.ReceiveTable, Receive, AckFrame, Genuine;
      case DoWaitForTableAck(tableId) =>
        WaitGrows(l, tableId);
        hide WaitForTableAck;
    }
  }

  lemma WaitGrows(l: State, tableId: byte)
    ensures l.log <= WaitForTableAck(l, tableId).0.log
  {
    LastRoundLater(l);
    var m := LastRound(l);
    var r := Receive(m);
    WaitForTableAckStep(m, tableId);
    ReceiveListens(m);
    WaitListens(SendAck(r.link, FLAG_RETRY));
    hide LastRound, Receive, WaitForAck, WaitForTableAck, Frame, AckFlags, DecodeId;
  }

  lemma {:induction false} RunGrows(l: State, ops: seq<Op>)
    ensures l.log <= RunOn(l, ops).0.log
    decreases |ops|
  {
    hide Step;
    if ops != [] {
      HistoryGrows(l, ops[0]);
      var (m, alive) := Step(l, ops[0]);
      if alive {
        RunGrows(m, ops[1..]);
      }
    }
  }

  // ------------------------------------------------------------ and everything the session does is a conversation

  /** The packet processed on a turn of the loop, as the session layer sees it: none if the reception is refused. */
  function PacketsProcessed(l: State, input: Input): seq<Session.Delivery> {
    var t := ReceiveTable(l);
    if t.outcome.Returned? && Narrow(t.outcome.status) == 0
    then [Session.Delivery(t.pkt.payload, t.pkt.payloadLen, input.env)] else []
  }

  /** A processed packet, and the link at the moment of the answer. */
  datatype Handled = Handled(packet: Session.Delivery, link: State)

  function HandledNow(l: State, input: Input): seq<Handled> {
    if PacketsProcessed(l, input) == [] then [] else [Handled(PacketsProcessed(l, input)[0], ReceiveTable(l).link)]
  }

  /** Everything processed on a connection, in order. */
  function AllHandled(l: State, s: Session.Session, inputs: seq<Input>, retries: nat): seq<Handled>
    decreases |inputs|
  {
    if inputs == [] || !l.connected || retries >= 3 then [] else
    var (m, t, result) := ProcessTable(l, s, inputs[0]);
    HandledNow(l, inputs[0]) +
      match result
      case Quit => []
      case Outside => []
      case Processed => AllHandled(m, t, inputs[1..], 0)
      case Refused(_) => AllHandled(m, t, inputs[1..], retries + 1)
  }

  /** And over any number of calls. */
  function HandledOnCalls(l: State, s: Session.Session, calls: seq<seq<Input>>): seq<Handled>
    decreases |calls|
  {
    if calls == [] then [] else
    var (m, t, alive) := Connection(Connect(l), s, calls[0], 0);
    AllHandled(Connect(l), s, calls[0], 0) + if alive then HandledOnCalls(m, t, calls[1..]) else []
  }

  function PacketsOf(hs: seq<Handled>): (ds: seq<Session.Delivery>)
    ensures |ds| == |hs| && forall k :: 0 <= k < |hs| ==> ds[k] == hs[k].packet
  {
    seq(|hs|, k requires 0 <= k < |hs| => hs[k].packet)
  }

  /**
   * This reply to this packet went out: behind the history of that moment the log announces it and shows its packet,
   * unless there was nothing to say or nobody there.
   */
  predicate WentOut(h: Handled, reply: seq<byte>, log: seq<Event>) {
    && h.link.log <= log && |reply| <= DATA_MAX
    && (reply != [] && h.link.connected ==>
      && |log| >= |h.link.log| + 2
      && log[|h.link.log|] == Call(reply)
      && log[|h.link.log| + 1] == DataSent(DataFrame(h.link.txSeq, EncodeId(h.link.terminalId), reply)))
  }

  /** All replies went out, each before the next packet was answered. */
  predicate AllWentOut(hs: seq<Handled>, replies: seq<seq<byte>>, log: seq<Event>) {
    && |replies| == |hs|
    && (forall k :: 0 <= k < |hs| ==> WentOut(hs[k], replies[k], log))
    && (forall j, k :: 0 <= j < k < |hs| ==> WentOut(hs[j], replies[j], hs[k].link.log))
  }

  /** Everything here was answered after this history. */
  predicate Since(log: seq<Event>, hs: seq<Handled>) { forall k :: 0 <= k < |hs| ==> log <= hs[k].link.log }

  lemma WentOutLater(h: Handled, reply: seq<byte>, log: seq<Event>, later: seq<Event>)
    requires WentOut(h, reply, log) && log <= later
    ensures WentOut(h, reply, later)
  {
    hide DataFrame, EncodeId;
  }

  lemma AllLater(hs: seq<Handled>, replies: seq<seq<byte>>, log: seq<Event>, later: seq<Event>)
    requires AllWentOut(hs, replies, log) && log <= later
    ensures AllWentOut(hs, replies, later)
  {
    forall k | 0 <= k < |hs|
      ensures WentOut(hs[k], replies[k], later)
    {
      WentOutLater(hs[k], replies[k], log, later);
    }
  }

  lemma AllJoined(hs: seq<Handled>, rs: seq<seq<byte>>, log: seq<Event>,
                  hs2: seq<Handled>, rs2: seq<seq<byte>>, later: seq<Event>)
    requires AllWentOut(hs, rs, log) && Since(log, hs2) && log <= later && AllWentOut(hs2, rs2, later)
    ensures AllWentOut(hs + hs2, rs + rs2, later)
  {
    hide WentOut;
    AllLater(hs, rs, log, later);
    forall j, k | 0 <= j < |hs| && 0 <= k < |hs2|
      ensures WentOut(hs[j], rs[j], hs2[k].link.log)
    {
      WentOutLater(hs[j], rs[j], log, hs2[k].link.log);
    }
  }

  /** Answering announces the reply. */
  lemma AnswerAnnounces(h: Handled, reply: seq<byte>)
    requires |reply| <= DATA_MAX
    ensures WentOut(h, reply, Answer(h.link, reply).link.log)
  {
    var l := h.link;
    if reply != [] {
      var n := SendDataWrites(l, reply);
      OnePiece(l, reply);
      hide SendData, SendTable, DataFrame, EncodeId;
    }
  }

  /** A table of one piece is one send. */
  lemma OnePiece(l: State, table: seq<byte>)
    requires 0 < |table| <= DATA_MAX
    ensures SendTable(l, table) == SendData(l, table)
  {
    hide SendData;
    assert table[..|table|] == table && table[|table|..] == [];
    assert SendTable(SendData(l, table).link, []) == Link.Sent.Sent(SendData(l, table).link, Returned(SUCCESS));
  }

  /** One turn of the loop: the session goes where the conversation goes, and the reply goes out. */
  lemma TurnConverses(l: State, s: Session.Session, input: Input)
    ensures var hs := HandledNow(l, input);
      var c := Session.Converse(s, PacketsOf(hs));
      var (m, t, result) := ProcessTable(l, s, input);
      && PacketsOf(hs) == PacketsProcessed(l, input)
      && (c.Broken? <==> result == Outside)
      && (c.Finished? ==> c.session == t && (Session.Good(s) ==> AllWentOut(hs, c.replies, m.log)))
  {
    hide Link.ReceiveTable, Session.Process, Session.Good, Narrow, Answer, Download, WentOut;
    var (m, t, result) := ProcessTable(l, s, input);
    var ds := PacketsProcessed(l, input);
    assert PacketsOf(HandledNow(l, input)) == ds;
    NothingSaid(s);
    if ds != [] {
      var d := ds[0];
      Session.ConverseStep(s, ds);
      assert ds[1..] == [];
      var turn := Session.Process(s, d.p, d.len, d.env);
      if turn.Done? {
        NothingSaid(turn.session);
        if Session.Good(s) {
          Session.PacketFits(s, d);
          var h := HandledNow(l, input)[0];
          AnswerAnnounces(h, turn.reply);
          FinishGrows(h.link, s, turn, input.tables);
          WentOutLater(h, turn.reply, Answer(h.link, turn.reply).link.log, m.log);
        }
      }
    }
  }

  /** After the answer only more is written. */
  lemma FinishGrows(l: State, s: Session.Session, turn: Session.Turn, tables: seq<seq<byte>>)
    requires turn.Done?
    ensures Answer(l, turn.reply).link.log <= Finish(l, s, turn, tables).0.log
  {
    hide Answer, Download;
    var sent := Answer(l, turn.reply).link;
    var ops := DownloadRuns(sent, tables);
    RunGrows(sent, ops);
  }

  lemma NothingSaid(s: Session.Session)
    ensures Session.Converse(s, []) == Session.Finished(s, [])
  {
  }

  lemma {:induction false} ConverseApart(s: Session.Session, a: seq<Session.Delivery>, b: seq<Session.Delivery>)
    ensures var first := Session.Converse(s, a);
      Session.Converse(s, a + b) == if first.Broken? then first else
        var second := Session.Converse(first.session, b);
        if second.Broken? then second else Session.Finished(second.session, first.replies + second.replies)
    decreases |a|
  {
    hide *;
    NothingSaid(s);
    if a == [] {
      assert a + b == b;
      var second := Session.Converse(s, b);
      if second.Finished? {
        assert [] + second.replies == second.replies;
      }
    } else {
      Session.ConverseStep(s, a);
      Session.ConverseStep(s, a + b);
      assert (a + b)[0] == a[0] && (a + b)[1..] == a[1..] + b;
      var t := Session.Process(s, a[0].p, a[0].len, a[0].env);
      if t.Done? {
        ConverseApart(t.session, a[1..], b);
        var rest := Session.Converse(t.session, a[1..]);
        if rest.Finished? {
          var second := Session.Converse(rest.session, b);
          if second.Finished? {
            RepliesJoin(t.reply, rest.replies, second.replies);
          }
        }
      }
    }
  }

  lemma RepliesJoin(a: seq<byte>, b: seq<seq<byte>>, c: seq<seq<byte>>)
    ensures [a] + (b + c) == ([a] + b) + c
  {
  }

  /** What was handled, against the conversation, the session and the history at the end. */
  predicate Conversed(s: Session.Session, hs: seq<Handled>, t: Session.Session, log: seq<Event>, alive: bool) {
    var c := Session.Converse(s, PacketsOf(hs));
    && (c.Broken? ==> !alive)
    && (c.Finished? ==> c.session == t && Session.Good(t) && AllWentOut(hs, c.replies, log))
  }

  lemma NothingHandled(s: Session.Session, log: seq<Event>, alive: bool)
    requires Session.Good(s)
    ensures Conversed(s, [], s, log, alive)
  {
    hide Session.Good;
    NothingSaid(s);
    assert PacketsOf([]) == [];
  }

  lemma ConversedOn(s: Session.Session, a: seq<Handled>, m: Session.Session, log: seq<Event>,
                    b: seq<Handled>, t: Session.Session, later: seq<Event>, alive: bool)
    requires Conversed(s, a, m, log, true) && log <= later
    requires Conversed(m, b, t, later, alive) && Since(log, b)
    ensures Conversed(s, a + b, t, later, alive)
  {
    hide Session.Good, AllWentOut, Session.Converse, Since;
    var c := Session.Converse(s, PacketsOf(a));
    ConverseApart(s, PacketsOf(a), PacketsOf(b));
    PacketsJoin(a, b);
    var d := Session.Converse(m, PacketsOf(b));
    if d.Finished? {
      AllJoined(a, c.replies, log, b, d.replies, later);
    }
  }

  lemma PacketsJoin(a: seq<Handled>, b: seq<Handled>)
    ensures PacketsOf(a + b) == PacketsOf(a) + PacketsOf(b)
  {
  }

  lemma GoodAfter(s: Session.Session, ds: seq<Session.Delivery>)
    requires Session.Good(s) && Session.Converse(s, ds).Finished?
    ensures Session.Good(Session.Converse(s, ds).session)
  {
    hide *;
    Session.ConversationServes(s, ds);
    Session.ConversationConserves(s, ds);
  }

  lemma TurnConversed(l: State, s: Session.Session, input: Input)
    requires Session.Good(s)
    ensures var (m, t, result) := ProcessTable(l, s, input);
      Conversed(s, HandledNow(l, input), t, m.log, result != Outside)
  {
    hide ProcessTable, HandledNow, AllWentOut, Session.Converse, Session.Good;
    TurnConverses(l, s, input);
    if Session.Converse(s, PacketsOf(HandledNow(l, input))).Finished? {
      GoodAfter(s, PacketsOf(HandledNow(l, input)));
    }
  }

  lemma NowSince(l: State, input: Input)
    ensures Since(l.log, HandledNow(l, input))
  {
    HistoryGrows(l, DoReceiveTable);
    hide Link.ReceiveTable, PacketsProcessed;
  }

  lemma SinceBoth(log: seq<Event>, a: seq<Handled>, mid: seq<Event>, b: seq<Handled>)
    requires Since(log, a) && log <= mid && Since(mid, b)
    ensures Since(log, a + b)
  {
    forall k | 0 <= k < |a + b|
      ensures log <= (a + b)[k].link.log
    {
      if k >= |a| {
        assert mid <= b[k - |a|].link.log;
      }
    }
  }

  lemma TurnGrows(l: State, s: Session.Session, input: Input)
    ensures l.log <= ProcessTable(l, s, input).0.log
  {
    hide *;
    var ops := ProcessRuns(l, s, input);
    RunGrows(l, ops);
  }

  lemma {:induction false} HandledSince(l: State, s: Session.Session, inputs: seq<Input>, retries: nat)
    ensures Since(l.log, AllHandled(l, s, inputs, retries))
    decreases |inputs|
  {
    hide ProcessTable, HandledNow;
    if inputs != [] && l.connected && retries < 3 {
      var (m, t, result) := ProcessTable(l, s, inputs[0]);
      NowSince(l, inputs[0]);
      TurnGrows(l, s, inputs[0]);
      var more := match result
        case Processed => AllHandled(m, t, inputs[1..], 0)
        case Refused(_) => AllHandled(m, t, inputs[1..], retries + 1)
        case _ => [];
      if result.Processed? || result.Refused? {
        HandledSince(m, t, inputs[1..], if result.Processed? then 0 else retries + 1);
      }
      SinceBoth(l.log, HandledNow(l, inputs[0]), m.log, more);
    }
  }

  lemma {:induction false} CallsSince(l: State, s: Session.Session, calls: seq<seq<Input>>)
    ensures Since(l.log, HandledOnCalls(l, s, calls))
    decreases |calls|
  {
    hide Connection, AllHandled;
    if calls != [] {
      var up := Connect(l);
      var (m, t, alive) := Connection(up, s, calls[0], 0);
      HandledSince(up, s, calls[0], 0);
      ConnectionGrows(up, s, calls[0], 0);
      var more := if alive then HandledOnCalls(m, t, calls[1..]) else [];
      if alive {
        CallsSince(m, t, calls[1..]);
      }
      SinceBoth(up.log, AllHandled(up, s, calls[0], 0), m.log, more);
      EarlierSince(l.log, up.log, HandledOnCalls(l, s, calls));
    }
  }

  lemma EarlierSince(log: seq<Event>, mid: seq<Event>, hs: seq<Handled>)
    requires log <= mid && Since(mid, hs)
    ensures Since(log, hs)
  {
  }

  /** A connection leaves session and history where the conversation of the packets it processed leaves them. */
  lemma {:induction false} ConnectionConverses(l: State, s: Session.Session, inputs: seq<Input>, retries: nat)
    requires Session.Good(s)
    ensures var (m, t, alive) := Connection(l, s, inputs, retries);
      Conversed(s, AllHandled(l, s, inputs, retries), t, m.log, alive)
    decreases |inputs|
  {
    hide ProcessTable, Conversed, HandledNow, Session.Good, Since;
    if inputs == [] || !l.connected || retries >= 3 {
      NothingHandled(s, l.log, true);
    } else {
      var (m, t, result) := ProcessTable(l, s, inputs[0]);
      var now := HandledNow(l, inputs[0]);
      TurnConversed(l, s, inputs[0]);
      if result.Processed? || result.Refused? {
        var again := if result.Processed? then 0 else retries + 1;
        GoodAfterTurn(s, now, t, m.log);
        ConnectionConverses(m, t, inputs[1..], again);
        var end := Connection(m, t, inputs[1..], again);
        ConnectionGrows(m, t, inputs[1..], again);
        HandledSince(m, t, inputs[1..], again);
        ConversedOn(s, now, t, m.log, AllHandled(m, t, inputs[1..], again), end.1, end.0.log, end.2);
      } else {
        assert now + [] == now;
        ConversedDead(s, now, t, m.log, result != Outside);
      }
    }
  }

  lemma GoodAfterTurn(s: Session.Session, hs: seq<Handled>, t: Session.Session, log: seq<Event>)
    requires Conversed(s, hs, t, log, true)
    ensures Session.Good(t)
  {
    hide Session.Good, Session.Converse;
  }

  lemma ConversedDead(s: Session.Session, hs: seq<Handled>, t: Session.Session, log: seq<Event>, alive: bool)
    requires Conversed(s, hs, t, log, alive)
    ensures Conversed(s, hs, t, log, false)
  {
  }

  lemma ConnectionGrows(l: State, s: Session.Session, inputs: seq<Input>, retries: nat)
    ensures l.log <= Connection(l, s, inputs, retries).0.log
  {
    hide *;
    var ops, _ := ConnectionRuns(l, s, inputs, retries);
    RunGrows(l, ops);
  }

  lemma CallsGrow(l: State, s: Session.Session, calls: seq<seq<Input>>)
    ensures l.log <= Calls(l, s, calls).0.log
  {
    hide *;
    var ops := CallsRun(l, s, calls);
    RunGrows(l, ops);
  }

  lemma {:induction false} CallsConverse(l: State, s: Session.Session, calls: seq<seq<Input>>)
    requires Session.Good(s)
    ensures var (m, t) := Calls(l, s, calls);
      Conversed(s, HandledOnCalls(l, s, calls), t, m.log, false)
    decreases |calls|
  {
    hide Connection, Conversed, AllHandled, Session.Good, Connect, Since;
    if calls == [] {
      NothingHandled(s, l.log, false);
    } else {
      var (m, t, alive) := Connection(Connect(l), s, calls[0], 0);
      var now := AllHandled(Connect(l), s, calls[0], 0);
      ConnectionConverses(Connect(l), s, calls[0], 0);
      if alive {
        GoodAfterTurn(s, now, t, m.log);
        CallsConverse(m, t, calls[1..]);
        var end := Calls(m, t, calls[1..]);
        CallsGrow(m, t, calls[1..]);
        CallsSince(m, t, calls[1..]);
        ConversedOn(s, now, t, m.log, HandledOnCalls(m, t, calls[1..]), end.1, end.0.log, false);
      } else {
        assert now + [] == now;
        ConversedDead(s, now, t, m.log, alive);
      }
    }
  }

  /** The terminal confirmed this reply; one that is empty needs no confirmation. */
  predicate Taken(h: Handled, reply: seq<byte>) { Answer(h.link, reply).outcome == Returned(SUCCESS) }

  /** The call records acknowledged in replies that the terminal confirmed. */
  function AcksTaken(hs: seq<Handled>, replies: seq<seq<byte>>): seq<Session.Number>
    requires |hs| == |replies|
  {
    if hs == [] then [] else
    (if Taken(hs[0], replies[0]) then Session.AcksIn(replies[0]) else []) + AcksTaken(hs[1..], replies[1..])
  }

  /** Every reply with an acknowledgement was confirmed. */
  predicate AcksAllTaken(hs: seq<Handled>, replies: seq<seq<byte>>)
    requires |hs| == |replies|
  {
    forall k :: 0 <= k < |hs| ==> Session.AcksIn(replies[k]) == [] || Taken(hs[k], replies[k])
  }

  lemma TakenStep(hs: seq<Handled>, replies: seq<seq<byte>>)
    requires hs != [] && |hs| == |replies|
    ensures AcksAllTaken(hs, replies) <==>
      (Session.AcksIn(replies[0]) == [] || Taken(hs[0], replies[0])) && AcksAllTaken(hs[1..], replies[1..])
  {
    hide Session.AcksIn, Taken;
    assert forall k :: 0 < k < |hs| ==> hs[k] == hs[1..][k - 1] && replies[k] == replies[1..][k - 1];
  }

  /** The confirmed acknowledgements are fewer than those in the replies, or the same. */
  lemma {:induction false} TakenOrFewer(hs: seq<Handled>, replies: seq<seq<byte>>)
    requires |hs| == |replies|
    ensures if AcksAllTaken(hs, replies) then AcksTaken(hs, replies) == Session.AcksOf(replies)
      else |AcksTaken(hs, replies)| < |Session.AcksOf(replies)|
  {
    hide Session.AcksIn, Taken, AcksAllTaken;
    if hs == [] {
      NothingToTake();
    } else {
      TakenStep(hs, replies);
      TakenOrFewer(hs[1..], replies[1..]);
    }
  }

  lemma NothingToTake()
    ensures AcksAllTaken([], [])
  {
  }

  /**
   * What was handled, against what was acknowledged: the acknowledgements in the replies, followed by those still
   * queued, are those of all call records processed, in order, exactly as long as at most 81 wait at a time; and those
   * that the terminal confirmed are exactly if, besides, every reply with an acknowledgement was confirmed. Each reply
   * is announced on the link in its place, if the link is still up by then.
   */
  predicate Conserved(s: Session.Session, hs: seq<Handled>, t: Session.Session, log: seq<Event>) {
    var messages := Session.AllMessages(PacketsOf(hs));
    var c := Session.Converse(s, PacketsOf(hs));
    var due, within := Session.AcksIn(s.queue) + Session.Records(messages), Session.WithinQueue(Session.LoadOf(s), messages);
    && c.Finished? && c.session == t && Session.Good(t)
    && AllWentOut(hs, c.replies, log)
    && (Session.AcksOf(c.replies) + Session.AcksIn(t.queue) == due <==> within)
    && (AcksTaken(hs, c.replies) + Session.AcksIn(t.queue) == due <==> within && AcksAllTaken(hs, c.replies))
  }

  lemma ConversedConserves(s: Session.Session, hs: seq<Handled>, t: Session.Session, log: seq<Event>, alive: bool)
    requires Session.Good(s) && Session.FitsAll(Session.LoadOf(s), PacketsOf(hs)) && Conversed(s, hs, t, log, alive)
    ensures Conserved(s, hs, t, log)
  {
    Session.ConversationConserves(s, PacketsOf(hs));
    TakenOrFewer(hs, Session.Converse(s, PacketsOf(hs)).replies);
    hide AllWentOut, Session.Converse, Session.Good, Session.FitsAll, Session.LoadOf, Session.AcksIn, Session.AcksOf,
      Session.Records, Session.AllMessages, Session.WithinQueue, Session.Lost, PacketsOf, AcksTaken, AcksAllTaken;
    var c := Session.Converse(s, PacketsOf(hs));
    var due := Session.AcksIn(s.queue) + Session.Records(Session.AllMessages(PacketsOf(hs)));
    if AcksTaken(hs, c.replies) + Session.AcksIn(t.queue) == due {
      assert |AcksTaken(hs, c.replies)| + |Session.AcksIn(t.queue)| == |due|;
    }
  }

  /** Over any number of calls whose packets fit. */
  lemma CallsConserve(l: State, s: Session.Session, calls: seq<seq<Input>>)
    requires Session.Good(s)
    requires Session.FitsAll(Session.LoadOf(s), PacketsOf(HandledOnCalls(l, s, calls)))
    ensures var (m, t) := Calls(l, s, calls); Conserved(s, HandledOnCalls(l, s, calls), t, m.log)
  {
    hide *;
    CallsConverse(l, s, calls);
    var (m, t) := Calls(l, s, calls);
    ConversedConserves(s, HandledOnCalls(l, s, calls), t, m.log, false);
  }

  /** The same for one connection. */
  lemma ConnectionConserves(l: State, s: Session.Session, inputs: seq<Input>, retries: nat)
    requires Session.Good(s)
    requires Session.FitsAll(Session.LoadOf(s), PacketsOf(AllHandled(l, s, inputs, retries)))
    ensures var (m, t, _) := Connection(l, s, inputs, retries); Conserved(s, AllHandled(l, s, inputs, retries), t, m.log)
  {
    hide *;
    ConnectionConverses(l, s, inputs, retries);
    var (m, t, alive) := Connection(l, s, inputs, retries);
    ConversedConserves(s, AllHandled(l, s, inputs, retries), t, m.log, alive);
  }

  /** A connection that comes to its end leaves the queue of deferred acknowledgements as it should be. */
  lemma QueueKept(l: State, s: Session.Session, inputs: seq<Input>, retries: nat)
    requires Session.Good(s) && Connection(l, s, inputs, retries).2
    ensures Session.Good(Connection(l, s, inputs, retries).1)
  {
    hide Session.Good, Connection, AllHandled, Session.Converse;
    ConnectionConverses(l, s, inputs, retries);
  }

  // ------------------------------------------------------------ which receptions are processed

  predicate Small(status: Status) { status < 0x80 }

  /** Statuses a reception can end with: small error bits, or one of the two large ones alone. */
  predicate Usual(status: Status) { Small(status) || status == ERROR_NO_CARRIER || status == ERROR_FAILURE }

  lemma SmallErrors()
    ensures Small(SUCCESS) && Small(ERROR_CRC) && Small(ERROR_FRAMING) && Small(ERROR_RETRY) && Small(ERROR_DISCONNECT)
  {
  }

  lemma FlagsStaySmall(status: Status, error: Status)
    requires Small(status) && Small(error)
    ensures Small(Flag(status, true, error)) && Small(Flag(status, false, error))
  {
  }

  lemma AcceptUsual(c: Reception, b: byte)
    requires Sound(c) && !c.done && Small(c.status)
    ensures Small(Accept(c, b).status)
  {
    SmallErrors();
    hide Flag, Crc16, Join, DataLength, Small;
    FlagsStaySmall(c.status, ERROR_CRC);
    FlagsStaySmall(c.status, ERROR_FRAMING);
  }

  lemma CompleteUsual(l: State, pkt: Packet, status: Status)
    requires Small(status)
    ensures Usual(Complete(l, pkt, status).outcome.status)
  {
    SmallErrors();
    var s := Flag(status, Has(pkt.flags, FLAG_RETRY), ERROR_RETRY);
    FlagsStaySmall(status, ERROR_RETRY);
    FlagsStaySmall(s, ERROR_DISCONNECT);
    hide Flag, Has, Small;
  }

  lemma UsualErrors()
    ensures Usual(ERROR_NO_CARRIER) && Usual(ERROR_FAILURE) && Usual(ERROR_DISCONNECT) && Usual(ERROR_TIMEOUT)
    ensures Usual(SUCCESS) && Usual(ERROR_NACK) && Usual(ERROR_RETRY)
  {
  }

  lemma {:induction false} LoopUsual(l: State, c: Reception, timeout: nat)
    requires Sound(c) && !c.done && Small(c.status)
    ensures var r := ReceiveLoop(l, c, timeout); r.outcome.Returned? ==> Usual(r.outcome.status)
    decreases |l.script|
  {
    UsualErrors();
    hide Accept, ReceiveLoop, Packet.CopyTrailer, Complete, Polled, Disconnect, CarrierLost, Sound, Usual, Small;
    ReceiveLoopStep(l, c, timeout);
    if l.script != [] {
      var next := l.(script := l.script[1..]);
      PolledScript(next);
      match l.script[0] {
        case Silence =>
          if next.connected && !CarrierLost(next) && timeout < TIMEOUT_MAX {
            LoopUsual(Polled(next), c, timeout + 1);
          }
        case Data(b) =>
          AcceptUsual(c, b);
          var d := Accept(c, b);
          if d.done {
            CompleteUsual(next, d.pkt.CopyTrailer(), d.status);
          } else {
            LoopUsual(next, d, 0);
          }
        case Broken =>
      }
    }
  }

  lemma ReceiveUsual(l: State)
    ensures Receive(l).outcome.Returned? ==> Usual(Receive(l).outcome.status)
  {
    SmallErrors();
    UsualErrors();
    ReceiveStep(l);
    hide Receive, ReceiveLoop, Usual, Sound, Small;
    assert Fresh().status == SUCCESS;
    LoopUsual(Polled(l), Fresh(), 0);
  }

  lemma TableUsual(l: State)
    ensures ReceiveTable(l).outcome.Returned? ==> Usual(ReceiveTable(l).outcome.status)
  {
    UsualErrors();
    hide Receive, Usual, Hear, NoteSequence, Has;
    ReceiveUsual(l);
    ReceiveUsual(SendAck(Receive(l).link, FLAG_NACK));
  }

  lemma NarrowedAway(status: Status)
    requires Usual(status)
    ensures Narrow(status) == 0 <==> status == SUCCESS || status == ERROR_NO_CARRIER || status == ERROR_FAILURE
  {
  }

  /** A packet is processed exactly if its status is success, or one of the two errors that eight bits do not hold. */
  lemma ProcessedExactly(l: State, input: Input)
    ensures var t := ReceiveTable(l);
      PacketsProcessed(l, input) != [] <==>
        t.outcome == Returned(SUCCESS) || t.outcome == Returned(ERROR_NO_CARRIER) || t.outcome == Returned(ERROR_FAILURE)
  {
    TableUsual(l);
    hide Link.ReceiveTable, Usual, Narrow;
    var t := ReceiveTable(l);
    if t.outcome.Returned? {
      NarrowedAway(t.outcome.status);
    }
  }

  /** A processed packet is genuine exactly if the first reception of the turn was accepted. */
  lemma ProcessedGenuine(l: State, input: Input)
    requires PacketsProcessed(l, input) != []
    ensures Genuine(ReceiveTable(l).pkt) <==> Accepted(Receive(l).outcome.status)
  {
    ProcessedExactly(l, input);
    AcceptedExactly(l);
    AcceptedIsGenuine(l);
    AcceptedIsAcknowledged(l);
    ProcessedStatuses(Receive(l).outcome);
    hide Link.ReceiveTable, Receive, Genuine, Accepted, Has, Err, WaitForAck, AckFrame, Sequence, PacketsProcessed;
  }

  lemma ProcessedStatuses(outcome: Outcome)
    ensures outcome == Returned(SUCCESS) ==> Accepted(SUCCESS)
    ensures outcome == Returned(ERROR_NO_CARRIER) || outcome == Returned(ERROR_FAILURE) ==>
      !Err(outcome.status, ERROR_DISCONNECT)
  {
  }

  // ------------------------------------------------------------ consequences

  /**
   * An accepted packet with an id is acknowledged, and processed exactly if its retry flag is clear; with the flag its
   * call records are lost to session and data base.
   */
  lemma RetriedNotProcessed(l: State, s: Session.Session, input: Input)
    requires Receive(l).outcome.Returned? && Accepted(Receive(l).outcome.status) && Receive(l).pkt.payloadLen >= ID_LENGTH
    ensures var pkt := Receive(l).pkt;
      && ReceiveTable(l).link.log == l.log + [Heard(pkt.payload[..ID_LENGTH]), AckFrame(FLAG_ACK | Sequence(pkt.flags))]
      && (PacketsProcessed(l, input) != [] <==> !Has(pkt.flags, FLAG_RETRY))
      && (PacketsProcessed(l, input) != [] ==>
        PacketsProcessed(l, input) == [Session.Delivery(pkt.payload, pkt.payloadLen, input.env)])
      && (Has(pkt.flags, FLAG_RETRY) ==> ProcessTable(l, s, input) == (ReceiveTable(l).link, s, Refused(1)))
  {
    AcceptedIsAcknowledged(l);
    AcceptedExactly(l);
    RetryNarrow();
    hide Receive, Link.ReceiveTable, Finish, Session.Process, Narrow, Sequence, AckFrame, Genuine, Accepted, Has, Err;
  }

  lemma RetryNarrow()
    ensures Narrow(ERROR_RETRY) == 1 && Narrow(SUCCESS) == 0 && Narrow(ERROR_FAILURE) == 0 && Narrow(ERROR_NO_CARRIER) == 0
    ensures !Accepted(ERROR_FAILURE) && !Accepted(ERROR_NO_CARRIER)
  {
  }

  function Reads(bytes: seq<byte>): seq<Read> { seq(|bytes|, i requires 0 <= i < |bytes| => Data(bytes[i])) }

  lemma {:induction false} LoopFeeds(l: State, c: Reception, timeout: nat, bytes: seq<byte>, rest: seq<Read>)
    requires Sound(c) && !c.done && !Feed(c, bytes).done && l.script == Reads(bytes) + rest
    ensures ReceiveLoop(l, c, timeout)
      == ReceiveLoop(l.(script := rest), Feed(c, bytes), if bytes == [] then timeout else 0)
    decreases |bytes|
  {
    hide Accept, ReceiveLoop, Sound;
    if bytes == [] {
      assert l.script == rest;
    } else {
      var next := l.(script := l.script[1..]);
      assert next.script == Reads(bytes[1..]) + rest;
      ReceiveLoopStep(l, c, timeout);
      assert l.script[0] == Data(bytes[0]);
      LoopFeeds(next, Accept(c, bytes[0]), 0, bytes[1..], rest);
    }
  }

  lemma {:induction false} FeedPartly(c: Reception, data: seq<byte>)
    requires c.l2 == AccumulateData && !c.done
    requires c.pkt.payloadLen + |data| < DataLength(c.pkt.pktlen)
    ensures Feed(c, data) == c.(
      pkt := c.pkt.(payload := Put(c.pkt.payload, c.pkt.payloadLen, data), payloadLen := c.pkt.payloadLen + |data|))
    decreases |data|
  {
    var p, n := c.pkt.payload, c.pkt.payloadLen;
    hide DataLength, Accept;
    if data == [] {
      assert Put(p, n, []) == p;
    } else {
      AcceptData(c, data[0]);
      PutOneMore(p, n, data);
      FeedPartly(Accept(c, data[0]), data[1..]);
    }
  }

  lemma FeedStart(flags: byte, pktlen: byte, data: seq<byte>)
    requires |data| < DataLength(pktlen)
    ensures Feed(Fresh(), [START_BYTE, flags, pktlen] + data) == Reception(AccumulateData,
      ZeroPacket().(start := START_BYTE, flags := flags, pktlen := pktlen, payload := Put(ZeroPayload(), 0, data), payloadLen := |data|),
      SUCCESS, false)
  {
    FeedHeader(flags, pktlen);
    hide DataLength, Accept, ZeroPayload, Put, Feed;
    var h := [START_BYTE, flags, pktlen];
    FeedApart(Fresh(), h, data);
    FeedPartly(Feed(Fresh(), h), data);
  }

  /**
   * The line breaks, or the carrier is lost, within a packet: what has arrived of it, never checked, is processed like
   * a packet, since neither error fits the eight bits of the status.
   */
  lemma PartialPacketProcessed(
    l: State, s: Session.Session, input: Input, flags: byte, pktlen: byte, data: seq<byte>, last: Read, rest: seq<Read>)
    requires l.connected && !CarrierLost(l) && |data| < DataLength(pktlen)
    requires l.script == Reads([START_BYTE, flags, pktlen] + data) + ([last] + rest)
    requires last == Broken || (last == Silence && CarrierLost(Polled(l)))
    ensures var t := ReceiveTable(l);
      && t.outcome == Returned(if last == Broken then ERROR_FAILURE else ERROR_NO_CARRIER)
      && !t.link.connected && t.link.log == l.log
      && PacketsProcessed(l, input) == [Session.Delivery(Put(ZeroPayload(), 0, data), |data|, input.env)]
  {
    RetryNarrow();
    PolledKeeps(l, [last] + rest);
    PolledKeeps(l, rest);
    FeedStart(flags, pktlen, data);
    hide Feed, ReceiveLoop, Put, Narrow, Accepted, DataLength, ZeroPayload, Sound, CarrierLost, Polled;
    var bytes := [START_BYTE, flags, pktlen] + data;
    var c := Feed(Fresh(), bytes);
    var ended := Polled(l).(script := [last] + rest);
    LoopFeeds(Polled(l), Fresh(), 0, bytes, [last] + rest);
    ReceiveLoopStep(ended, c, 0);
    assert ended.script[0] == last && ended.script[1..] == rest;
  }

  lemma PolledKeeps(l: State, script: seq<Read>)
    ensures Polled(l).script == l.script && Polled(l).connected == l.connected && Polled(l).log == l.log
    ensures CarrierLost(Polled(l)) <==> CarrierLost(Polled(l).(script := script))
    ensures Polled(Polled(l).(script := script)).log == l.log
  {
  }

  /** Nothing is written, and nothing confirmed, when nobody is there. */
  lemma NobodyThere(l: State, reply: seq<byte>)
    requires !l.connected && reply != []
    ensures Answer(l, reply) == Link.Sent.Sent(l, Returned(ERROR_DISCONNECT)) && ERROR_DISCONNECT != SUCCESS
  {
    var chunk := reply[..if |reply| < DATA_MAX then |reply| else DATA_MAX];
    SendLoopStep(l, chunk, 0, SUCCESS);
    hide SendLoop;
  }

  lemma EndOfDataServed(s: Session.Session, p: Payload, env: Session.Env)
    requires Session.Good(s) && p[ID_LENGTH] == Session.END_DATA
    ensures Session.Process(s, p, 6, env)
      == Session.Done(s.(inProgress := false, queue := []), [Session.END_DATA] + s.queue, false)
  {
    Session.Sizes();
    hide Session.Size, Session.IsAcks;
    var m: Session.Message := p[5..6];
    assert [] + ([Session.END_DATA] + s.queue) == [Session.END_DATA] + s.queue;
  }

  /**
   * The end of data arrives, but not the rest of its packet, because the line breaks or the carrier is lost: all
   * deferred acknowledgements leave the queue, and none of them is written.
   */
  lemma FlushLost(l: State, s: Session.Session, input: Input, flags: byte, pktlen: byte, id: seq<byte>, last: Read, rest: seq<Read>)
    requires Session.Good(s) && l.connected && !CarrierLost(l) && |id| == ID_LENGTH && 6 < DataLength(pktlen)
    requires l.script == Reads([START_BYTE, flags, pktlen] + (id + [Session.END_DATA])) + ([last] + rest)
    requires last == Broken || (last == Silence && CarrierLost(Polled(l)))
    ensures var (m, t, result) := ProcessTable(l, s, input);
      && result == Processed && t == s.(inProgress := false, queue := []) && m.log == l.log
      && !Taken(Handled(PacketsProcessed(l, input)[0], m), [Session.END_DATA] + s.queue)
  {
    var data := id + [Session.END_DATA];
    PartialPacketProcessed(l, s, input, flags, pktlen, data, last, rest);
    EndOfDataServed(s, Put(ZeroPayload(), 0, data), input.env);
    NobodyThere(ReceiveTable(l).link, [Session.END_DATA] + s.queue);
    hide Link.ReceiveTable, Session.Process, Answer, Narrow, DataLength, CarrierLost, Reads, Session.Good, ZeroPayload;
  }
}
