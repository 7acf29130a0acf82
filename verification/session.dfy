/** The session layer: messages of one packet are answered in one reply, call record acknowledgements may be deferred. */
module Session {
  import opened Basics
  import opened Crc
  import opened Packets

  const FUNF_CARD_AUTH: byte := 0x02
  const CDR_DETAILS_ACK: byte := 0x05
  const MAINT_REQ: byte := 0x06
  const ALARM: byte := 0x07
  const CALL_IN: byte := 0x08
  const CALL_BACK: byte := 0x09
  const TERM_STATUS: byte := 0x0a
  const END_DATA: byte := 0x0d
  const MAINT_ACK: byte := 0x0f
  const ALARM_ACK: byte := 0x10
  const TRANS_DATA: byte := 0x11
  const TABLE_UPD: byte := 0x12
  const TIME_SYNC: byte := 0x14
  const TIME_SYNC_REQ: byte := 0x24
  const PERF_STATS_MSG: byte := 0x25
  const CASH_BOX_STATUS: byte := 0x26
  const ATN_REQ_CDR_UPL: byte := 0x2a
  const ATN_REQ_TAB_UPD: byte := 0x2c
  const CASH_BOX_COLLECTION: byte := 0x33
  const CALL_DETAILS: byte := 0x35
  const SUMMARY_CALL_STATS: byte := 0x38
  const CARRIER_CALL_STATS: byte := 0x39
  const SW_VERSION: byte := 0x3c
  const RATE_REQUEST: byte := 0x3f
  const RATE_RESPONSE: byte := 0x40
  const AUTH_RESP_CODE: byte := 0x41
  const CARRIER_STATS_EXP: byte := 0x47
  const TERM_ERR_REP: byte := 0x53

  /** Most bytes of a reply, and of the queue of deferred acknowledgements. */
  const REPLY_MAX: nat := 245
  /** Deferred acknowledgements that fit. */
  const QUEUE_MAX: nat := 81

  /** How far the message loop advances over a message. */
  function Size(id: byte): (n: nat)
    ensures 1 <= n <= 244
  {
    if id == ATN_REQ_TAB_UPD || id == ATN_REQ_CDR_UPL || id == TABLE_UPD_ACK then 2
    else if id == ALARM then 8
    else if id == MAINT_REQ then 6
    else if id == CALL_DETAILS then 54
    else if id == CASH_BOX_COLLECTION then 71
    else if id == TERM_STATUS then 11
    else if id == TERM_ERR_REP then 97
    else if id == SW_VERSION then 28
    else if id == CASH_BOX_STATUS then 57
    else if id == PERF_STATS_MSG then 99
    else if id == CARRIER_CALL_STATS then 190
    else if id == CARRIER_STATS_EXP then 244
    else if id == SUMMARY_CALL_STATS then 81
    else if id == RATE_REQUEST then 25
    else if id == FUNF_CARD_AUTH then 39
    else 1
  }

  lemma Sizes()
    ensures Size(ALARM) == 8 && Size(MAINT_REQ) == 6 && Size(CALL_DETAILS) == 54 && Size(ATN_REQ_TAB_UPD) == 2
    ensures Size(END_DATA) == 1
  {
  }

  predicate IsMessage(m: seq<byte>) { m != [] && |m| == Size(m[0]) }

  type Message = m: seq<byte> | IsMessage(m) witness [END_DATA]

  type Clock = s: seq<byte> | |s| == 7 witness [0, 0, 0, 0, 0, 0, 0]
  type AuthCode = s: seq<byte> | |s| == 8 witness [0, 0, 0, 0, 0, 0, 0, 0]
  type Balance = s: seq<byte> | |s| == 56 witness seq(56, _ => 0)

  /** What a reply takes from the clock and the data base. */
  datatype Env = Env(clock: Clock, balance: Balance, authCode: AuthCode)

  datatype Session = Session(inProgress: bool, queue: seq<byte>, updReason: byte)

  predicate WantsCashBox(reason: byte) { reason & 0x80 != 0 }

  function AckOf(m: Message): seq<byte>
    requires m[0] == CALL_DETAILS
  {
    Sizes();
    [CDR_DETAILS_ACK, m[31], m[32]]
  }

  /** Type 7 (inter-LATA), 240 s for 100, then 60 s for 25, and no further rates. */
  function RateResponse(): (r: seq<byte>)
    ensures |r| == 26 && r[0] == RATE_RESPONSE
  {
    [RATE_RESPONSE, 7, 240, 0, 100, 0, 60, 0, 25, 0] + seq(16, _ => 0)
  }

  function AuthResponse(code: AuthCode): (r: seq<byte>)
    ensures |r| == 22 && r[0] == AUTH_RESP_CODE
  {
    [AUTH_RESP_CODE, 0] + code + [0x30, 0x31, 0x32, 0x33, 0x34, 0x35, 0x36, 0x37, 0x38, 0x39, 0x41, 0x42]
  }

  predicate StartsTransfer(id: byte) { id == ATN_REQ_CDR_UPL || id == CALL_IN || id == CALL_BACK }

  /** What one message adds to the reply. */
  function Reply(s: Session, m: Message, env: Env): seq<byte> {
    hide Size, WantsCashBox;
    Sizes();
    var id := m[0];
    if id == TIME_SYNC_REQ then [TIME_SYNC] + env.clock + [END_DATA]
    else if id == ATN_REQ_TAB_UPD then
      [TABLE_UPD] + if WantsCashBox(m[1]) then [CASH_BOX_STATUS] + env.balance else []
    else if id == ALARM then [ALARM_ACK, m[7]]
    else if id == MAINT_REQ then [MAINT_ACK, m[1], m[2]]
    else if id == CALL_DETAILS then if s.inProgress then [] else AckOf(m)
    else if StartsTransfer(id) || id == TABLE_UPD_ACK then [TRANS_DATA]
    else if id == CASH_BOX_COLLECTION then [END_DATA]
    else if id == RATE_REQUEST then RateResponse()
    else if id == FUNF_CARD_AUTH then AuthResponse(env.authCode)
    else if id == END_DATA then [END_DATA] + s.queue
    else []
  }

  /** An acknowledgement that no longer fits the queue is dropped. */
  function Deferred(queue: seq<byte>, ack: seq<byte>): seq<byte> {
    if |queue| + |ack| > REPLY_MAX then queue else queue + ack
  }

  function After(s: Session, m: Message): Session {
    hide Size;
    Sizes();
    var id := m[0];
    if id == CALL_DETAILS then if s.inProgress then s.(queue := Deferred(s.queue, AckOf(m))) else s
    else if StartsTransfer(id) then s.(inProgress := true)
    else if id == END_DATA then s.(inProgress := false, queue := [])
    else if id == ATN_REQ_TAB_UPD then s.(updReason := m[1])
    else s
  }

  // ------------------------------------------------------------ one packet

  /** Overrun: a message or a reply does not fit its buffer, and what the program then does is not defined. */
  datatype Turn = Overrun | Done(session: Session, reply: seq<byte>, download: bool)

  /** The message loop over a payload of this length, from position at. */
  function Messages(s: Session, reply: seq<byte>, download: bool, p: Payload, at: nat, len: nat, env: Env): Turn
    requires len <= PAYLOAD_MAX
    decreases len - at
  {
    hide Size, Reply, After;
    if at >= len then Done(s, reply, download) else
    var n := Size(p[at]);
    if at + n > BUFFER_SIZE then Overrun else
    var m: Message := p[at..at + n];
    var r := reply + Reply(s, m, env);
    if |r| > REPLY_MAX then Overrun
    else Messages(After(s, m), r, download || m[0] == ATN_REQ_TAB_UPD, p, at + n, len, env)
  }

  function Process(s: Session, p: Payload, len: nat, env: Env): Turn
    requires len <= PAYLOAD_MAX
  {
    Messages(s, [], false, p, ID_LENGTH, len, env)
  }

  // ------------------------------------------------------------ the acknowledgements in a reply

  /** Length of a message to the terminal. */
  function ReplySize(id: byte): (n: nat)
    ensures n >= 1
  {
    if id == TIME_SYNC then 8
    else if id == CASH_BOX_STATUS then 57
    else if id == ALARM_ACK then 2
    else if id == MAINT_ACK || id == CDR_DETAILS_ACK then 3
    else if id == RATE_RESPONSE then 26
    else if id == AUTH_RESP_CODE then 22
    else 1
  }

  /** A call record's sequence number, low byte first. */
  datatype Number = Number(lo: byte, hi: byte)

  function FirstAck(r: seq<byte>): seq<Number>
    requires r != [] && ReplySize(r[0]) <= |r|
  {
    if r[0] == CDR_DETAILS_ACK then [Number(r[1], r[2])] else []
  }

  /** The call records acknowledged in a reply, read message by message as the terminal reads it. */
  function AcksIn(r: seq<byte>): seq<Number>
    decreases |r|
  {
    if r == [] || ReplySize(r[0]) > |r| then [] else
    FirstAck(r) + AcksIn(r[ReplySize(r[0])..])
  }

  /** The messages fill the reply exactly. */
  predicate Complete(r: seq<byte>)
    decreases |r|
  {
    r == [] || (ReplySize(r[0]) <= |r| && Complete(r[ReplySize(r[0])..]))
  }

  lemma FirstAckOnly(a: seq<byte>, b: seq<byte>)
    requires a != [] && ReplySize(a[0]) <= |a|
    ensures (a + b)[0] == a[0] && FirstAck(a + b) == FirstAck(a)
    ensures (a + b)[ReplySize(a[0])..] == a[ReplySize(a[0])..] + b
  {
  }

  lemma AcksStep(r: seq<byte>)
    requires r != [] && ReplySize(r[0]) <= |r|
    ensures AcksIn(r) == FirstAck(r) + AcksIn(r[ReplySize(r[0])..])
    ensures Complete(r) == Complete(r[ReplySize(r[0])..])
  {
    hide ReplySize, FirstAck;
  }

  lemma CompleteFirst(r: seq<byte>)
    ensures r != [] && Complete(r) ==> ReplySize(r[0]) <= |r|
    ensures AcksIn([]) == [] && Complete([])
  {
    hide ReplySize, FirstAck;
  }

  lemma {:induction false} RepliesApart(a: seq<byte>, b: seq<byte>)
    requires Complete(a)
    ensures AcksIn(a + b) == AcksIn(a) + AcksIn(b)
    ensures Complete(a + b) == Complete(b)
    decreases |a|
  {
    hide *;
    CompleteFirst(a);
    if a == [] {
      assert a + b == b;
    } else {
      var rest := a[ReplySize(a[0])..];
      FirstAckOnly(a, b);
      AcksStep(a);
      AcksStep(a + b);
      RepliesApart(rest, b);
    }
  }

  /** One reply message other than a call record acknowledgement. */
  lemma OneReply(r: seq<byte>)
    requires r != [] && |r| == ReplySize(r[0]) && r[0] != CDR_DETAILS_ACK
    ensures Complete(r) && AcksIn(r) == []
  {
    hide ReplySize;
    assert r[|r|..] == [];
  }

  lemma OneAck(lo: byte, hi: byte)
    ensures Complete([CDR_DETAILS_ACK, lo, hi]) && AcksIn([CDR_DETAILS_ACK, lo, hi]) == [Number(lo, hi)]
  {
    var r := [CDR_DETAILS_ACK, lo, hi];
    assert r[3..] == [];
  }

  // ------------------------------------------------------------ the invariant

  /** A queue holds whole call record acknowledgements. */
  predicate IsAcks(q: seq<byte>)
    decreases |q|
  {
    q == [] || (|q| >= 3 && q[0] == CDR_DETAILS_ACK && IsAcks(q[3..]))
  }

  /** Outside a transfer nothing is queued; in one, at most 81 acknowledgements. */
  predicate Good(s: Session) {
    IsAcks(s.queue) && |s.queue| <= 3 * QUEUE_MAX && (!s.inProgress ==> s.queue == [])
  }

  lemma {:induction false} AcksParse(q: seq<byte>)
    requires IsAcks(q)
    ensures |q| % 3 == 0 && Complete(q) && 3 * |AcksIn(q)| == |q|
    decreases |q|
  {
    if q == [] {
      CompleteFirst([]);
    } else {
      AckSize();
      hide Complete, AcksIn, ReplySize;
      AcksParse(q[3..]);
      AcksStep(q);
    }
  }

  lemma AckSize()
    ensures ReplySize(CDR_DETAILS_ACK) == 3
    ensures ReplySize(END_DATA) == ReplySize(TRANS_DATA) == ReplySize(TABLE_UPD) == 1
    ensures ReplySize(TIME_SYNC) == 8 && ReplySize(CASH_BOX_STATUS) == 57
    ensures ReplySize(ALARM_ACK) == 2 && ReplySize(MAINT_ACK) == 3
    ensures ReplySize(RATE_RESPONSE) == 26 && ReplySize(AUTH_RESP_CODE) == 22
  {
  }

  lemma {:induction false} OneMoreAck(q: seq<byte>, lo: byte, hi: byte)
    requires IsAcks(q)
    ensures IsAcks(q + [CDR_DETAILS_ACK, lo, hi])
    decreases |q|
  {
    if q != [] {
      OneMoreAck(q[3..], lo, hi);
      assert (q + [CDR_DETAILS_ACK, lo, hi])[3..] == q[3..] + [CDR_DETAILS_ACK, lo, hi];
    } else {
      assert [CDR_DETAILS_ACK, lo, hi][3..] == [];
    }
  }

  function NumberOf(m: Message): Number
    requires m[0] == CALL_DETAILS
  {
    Sizes();
    Number(m[31], m[32])
  }

  /** Replies and queue together, as the call records they acknowledge. */
  function Owed(reply: seq<byte>, s: Session): seq<Number> { AcksIn(reply) + AcksIn(s.queue) }

  /** A call record that arrives in a transfer when 81 acknowledgements wait. */
  predicate Crowded(s: Session, m: Message) {
    m[0] == CALL_DETAILS && s.inProgress && |s.queue| == 3 * QUEUE_MAX
  }

  function Record(m: Message): seq<Number> {
    if m[0] == CALL_DETAILS then [NumberOf(m)] else []
  }

  lemma RecordServed(s: Session, m: Message, env: Env)
    requires Good(s) && m[0] == CALL_DETAILS
    ensures Good(After(s, m)) && Complete(Reply(s, m, env))
    ensures Owed(Reply(s, m, env), After(s, m)) == AcksIn(s.queue) + if Crowded(s, m) then [] else Record(m)
  {
    hide Size, Complete, AcksIn, IsAcks, AuthResponse, RateResponse;
    Sizes();
    var n, ack := NumberOf(m), AckOf(m);
    CompleteFirst([]);
    AcksParse(s.queue);
    OneAck(n.lo, n.hi);
    if s.inProgress {
      OneMoreAck(s.queue, n.lo, n.hi);
      RepliesApart(s.queue, ack);
    }
  }

  lemma EndOfData(s: Session)
    requires Good(s)
    ensures Complete([END_DATA] + s.queue) && AcksIn([END_DATA] + s.queue) == AcksIn(s.queue)
  {
    AckSize();
    hide Complete, AcksIn, IsAcks, ReplySize;
    AcksParse(s.queue);
    OneReply([END_DATA]);
    RepliesApart([END_DATA], s.queue);
  }

  lemma TwoReplies(a: seq<byte>, b: seq<byte>)
    requires a != [] && |a| == ReplySize(a[0]) && a[0] != CDR_DETAILS_ACK
    requires b == [] || (|b| == ReplySize(b[0]) && b[0] != CDR_DETAILS_ACK)
    ensures Complete(a + b) && AcksIn(a + b) == []
  {
    hide Complete, AcksIn, ReplySize;
    CompleteFirst([]);
    OneReply(a);
    if b != [] {
      OneReply(b);
    }
    RepliesApart(a, b);
  }

  lemma OtherServed(s: Session, m: Message, env: Env)
    requires Good(s) && m[0] != CALL_DETAILS && m[0] != END_DATA
    ensures Good(After(s, m)) && After(s, m).queue == s.queue
    ensures Complete(Reply(s, m, env)) && AcksIn(Reply(s, m, env)) == []
  {
    AckSize();
    Sizes();
    hide Size, Complete, AcksIn, IsAcks, ReplySize, WantsCashBox;
    CompleteFirst([]);
    var r := Reply(s, m, env);
    if m[0] == TIME_SYNC_REQ {
      TwoReplies([TIME_SYNC] + env.clock, [END_DATA]);
    } else if m[0] == ATN_REQ_TAB_UPD && WantsCashBox(m[1]) {
      TwoReplies([TABLE_UPD], [CASH_BOX_STATUS] + env.balance);
    } else if r != [] {
      OneReply(r);
    }
  }

  /** One message keeps the invariant, and what it acknowledges or queues is exactly its own call record. */
  lemma Served(s: Session, m: Message, env: Env)
    requires Good(s)
    ensures Good(After(s, m)) && Complete(Reply(s, m, env))
    ensures Owed(Reply(s, m, env), After(s, m)) == AcksIn(s.queue) + if Crowded(s, m) then [] else Record(m)
  {
    hide Size, Complete, AcksIn, IsAcks;
    if m[0] == CALL_DETAILS {
      RecordServed(s, m, env);
    } else if m[0] == END_DATA {
      EndOfData(s);
      EmptyQueue();
    } else {
      OtherServed(s, m, env);
    }
  }

  lemma EmptyQueue()
    ensures IsAcks([]) && AcksIn([]) == []
  {
  }

  /** The end of a transfer and all that was deferred fit one packet. */
  lemma FlushFits(s: Session, m: Message, env: Env)
    requires Good(s) && m[0] == END_DATA
    ensures |Reply(s, m, env)| == 1 + |s.queue| < REPLY_MAX
    ensures After(s, m) == s.(inProgress := false, queue := [])
  {
  }

  // ------------------------------------------------------------ any number of messages

  datatype Arrival = Arrival(m: Message, env: Env)

  function Serve(s: Session, ms: seq<Arrival>): (Session, seq<byte>)
    decreases |ms|
  {
    if ms == [] then (s, []) else
    var (t, later) := Serve(After(s, ms[0].m), ms[1..]);
    (t, Reply(s, ms[0].m, ms[0].env) + later)
  }

  /** Sequence numbers of the call records, in the order they arrived. */
  function Records(ms: seq<Arrival>): seq<Number> {
    if ms == [] then [] else Record(ms[0].m) + Records(ms[1..])
  }

  /** Call records whose acknowledgement was dropped. */
  function Lost(s: Session, ms: seq<Arrival>): nat
    decreases |ms|
  {
    if ms == [] then 0 else (if Crowded(s, ms[0].m) then 1 else 0) + Lost(After(s, ms[0].m), ms[1..])
  }

  /** What the queue looks like from outside: whether a transfer is in progress, and how many acknowledgements wait. */
  datatype Load = Load(inProgress: bool, waiting: nat)

  function LoadOf(s: Session): Load { Load(s.inProgress, |s.queue| / 3) }

  /** A call record for which there is no room. */
  predicate TooMany(load: Load, m: Message) {
    m[0] == CALL_DETAILS && load.inProgress && load.waiting >= QUEUE_MAX
  }

  function Loaded(load: Load, m: Message): Load {
    if m[0] == CALL_DETAILS && load.inProgress then if TooMany(load, m) then load else load.(waiting := load.waiting + 1)
    else if StartsTransfer(m[0]) then load.(inProgress := true)
    else if m[0] == END_DATA then Load(false, 0)
    else load
  }

  function LoadAfter(load: Load, ms: seq<Arrival>): Load
    decreases |ms|
  {
    if ms == [] then load else LoadAfter(Loaded(load, ms[0].m), ms[1..])
  }

  /** No call record arrives when 81 acknowledgements wait: a condition on the messages alone. */
  predicate WithinQueue(load: Load, ms: seq<Arrival>)
    decreases |ms|
  {
    ms == [] || (!TooMany(load, ms[0].m) && WithinQueue(Loaded(load, ms[0].m), ms[1..]))
  }

  /** Bytes that a message adds to the reply. */
  function AnswerLength(load: Load, m: Message): nat {
    Sizes();
    var id := m[0];
    if id == TIME_SYNC_REQ then 9
    else if id == ATN_REQ_TAB_UPD then if WantsCashBox(m[1]) then 58 else 1
    else if id == ALARM then 2
    else if id == MAINT_REQ then 3
    else if id == CALL_DETAILS then if load.inProgress then 0 else 3
    else if StartsTransfer(id) || id == TABLE_UPD_ACK || id == CASH_BOX_COLLECTION then 1
    else if id == RATE_REQUEST then 26
    else if id == FUNF_CARD_AUTH then 22
    else if id == END_DATA then 1 + 3 * load.waiting
    else 0
  }

  function ReplyLength(load: Load, ms: seq<Arrival>): nat
    decreases |ms|
  {
    if ms == [] then 0 else AnswerLength(load, ms[0].m) + ReplyLength(Loaded(load, ms[0].m), ms[1..])
  }

  lemma ServeStep(s: Session, ms: seq<Arrival>)
    requires ms != []
    ensures var first := ms[0];
      var rest := Serve(After(s, first.m), ms[1..]);
      Serve(s, ms) == (rest.0, Reply(s, first.m, first.env) + rest.1)
    ensures Records(ms) == Record(ms[0].m) + Records(ms[1..])
    ensures Lost(s, ms) == (if Crowded(s, ms[0].m) then 1 else 0) + Lost(After(s, ms[0].m), ms[1..])
  {
    hide After, Reply, Crowded, Record;
  }

  lemma Joined(first: seq<Number>, queued: seq<Number>, mid: seq<Number>, later: seq<Number>, records: seq<Number>, own: seq<Number>)
    requires first + mid == queued + own && later == mid + records
    ensures first + later == queued + (own + records)
  {
    assert first + later == (first + mid) + records;
  }

  /** Any run of messages keeps the invariant; every record is answered, queued or counted as lost, in order. */
  lemma {:induction false} Accounted(s: Session, ms: seq<Arrival>)
    requires Good(s)
    ensures var (t, reply) := Serve(s, ms);
      && Good(t) && Complete(reply)
      && |Owed(reply, t)| + Lost(s, ms) == |AcksIn(s.queue)| + |Records(ms)|
      && (Lost(s, ms) == 0 ==> Owed(reply, t) == AcksIn(s.queue) + Records(ms))
    decreases |ms|
  {
    hide Good, Complete, AcksIn, After, Reply, Crowded, Record, Serve, Records, Lost;
    if ms == [] {
      NothingServed(s);
    } else {
      var m, env := ms[0].m, ms[0].env;
      var s1, r1 := After(s, m), Reply(s, m, env);
      var (t, later) := Serve(s1, ms[1..]);
      Served(s, m, env);
      ServeStep(s, ms);
      Accounted(s1, ms[1..]);
      RepliesApart(r1, later);
      OneRecord(m);
      CrowdedIsRecord(s, m);
      assert |AcksIn(r1)| + |AcksIn(s1.queue)| == |AcksIn(s.queue)| + if Crowded(s, m) then 0 else |Record(m)|;
      assert Owed(r1 + later, t) == AcksIn(r1) + Owed(later, t);
      if Lost(s, ms) == 0 {
        Joined(AcksIn(r1), AcksIn(s.queue), AcksIn(s1.queue), Owed(later, t), Records(ms[1..]), Record(m));
      }
    }
  }

  lemma NothingServed(s: Session)
    requires Good(s)
    ensures Serve(s, []) == (s, []) && Records([]) == [] && Lost(s, []) == 0
    ensures Complete([]) && AcksIn([]) == []
  {
  }

  lemma OneRecord(m: Message)
    ensures |Record(m)| <= 1
  {
  }

  lemma CrowdedIsRecord(s: Session, m: Message)
    ensures Crowded(s, m) ==> |Record(m)| == 1
  {
  }

  /** The load follows the session, and tells the length of what is answered. */
  lemma LoadFollows(s: Session, m: Message, env: Env)
    requires Good(s)
    ensures LoadOf(After(s, m)) == Loaded(LoadOf(s), m) && |Reply(s, m, env)| == AnswerLength(LoadOf(s), m)
    ensures Crowded(s, m) <==> TooMany(LoadOf(s), m)
  {
    AcksParse(s.queue);
    hide Complete, AcksIn, Size, IsAcks, WantsCashBox;
  }

  /** The condition on the messages says exactly that nothing is lost; load and reply length can be told from them. */
  lemma {:induction false} WithinQueueExact(s: Session, ms: seq<Arrival>)
    requires Good(s)
    ensures WithinQueue(LoadOf(s), ms) <==> Lost(s, ms) == 0
    ensures LoadOf(Serve(s, ms).0) == LoadAfter(LoadOf(s), ms) && |Serve(s, ms).1| == ReplyLength(LoadOf(s), ms)
    decreases |ms|
  {
    hide After, Reply, Good, LoadOf, Loaded, AnswerLength, Crowded, TooMany;
    if ms != [] {
      var m := ms[0].m;
      Served(s, m, ms[0].env);
      LoadFollows(s, m, ms[0].env);
      ServeStep(s, ms);
      WithinQueueExact(After(s, m), ms[1..]);
    }
  }

  /**
   * Acknowledgements already in replies, then those queued, are those of all call records in order, exactly as long
   * as no record arrives when 81 wait.
   */
  lemma AcksConserved(s: Session, ms: seq<Arrival>)
    requires Good(s)
    ensures var (t, reply) := Serve(s, ms);
      && Good(t)
      && (Owed(reply, t) == AcksIn(s.queue) + Records(ms) <==> WithinQueue(LoadOf(s), ms))
  {
    hide *;
    Accounted(s, ms);
    WithinQueueExact(s, ms);
  }

  // ------------------------------------------------------------ any number of packets

  /** The messages of a payload, split as the message loop splits it. */
  function Split(p: Payload, at: nat, len: nat, env: Env): seq<Arrival>
    decreases len - at
  {
    if at >= len || len > PAYLOAD_MAX || at + Size(p[at]) > BUFFER_SIZE then [] else
    var n := Size(p[at]);
    [Arrival(p[at..at + n], env)] + Split(p, at + n, len, env)
  }

  /** Every message, the last one included, ends within the payload buffer. */
  predicate WithinBuffer(p: Payload, at: nat, len: nat)
    requires len <= PAYLOAD_MAX
    decreases len - at
  {
    at >= len || (at + Size(p[at]) <= BUFFER_SIZE && WithinBuffer(p, at + Size(p[at]), len))
  }

  lemma MessagesStep(s: Session, reply: seq<byte>, download: bool, p: Payload, at: nat, len: nat, env: Env) returns (m: Message)
    requires at < len <= PAYLOAD_MAX && at + Size(p[at]) <= BUFFER_SIZE
    ensures var r := reply + Reply(s, m, env);
      Messages(s, reply, download, p, at, len, env) == if |r| > REPLY_MAX then Overrun
        else Messages(After(s, m), r, download || m[0] == ATN_REQ_TAB_UPD, p, at + |m|, len, env)
    ensures Split(p, at, len, env) == [Arrival(m, env)] + Split(p, at + |m|, len, env)
    ensures WithinBuffer(p, at, len) <==> WithinBuffer(p, at + |m|, len)
  {
    hide Size, Reply, After;
    m := p[at..at + Size(p[at])];
  }

  lemma MessagesEnd(s: Session, reply: seq<byte>, download: bool, p: Payload, at: nat, len: nat, env: Env)
    requires at < len <= PAYLOAD_MAX && at + Size(p[at]) > BUFFER_SIZE
    ensures Messages(s, reply, download, p, at, len, env) == Overrun && !WithinBuffer(p, at, len)
  {
    hide Size, Reply, After;
  }

  lemma LoopOver(s: Session, reply: seq<byte>, download: bool, p: Payload, at: nat, len: nat, env: Env)
    requires len <= PAYLOAD_MAX && at >= len
    ensures Messages(s, reply, download, p, at, len, env) == Done(s, reply, download)
    ensures Split(p, at, len, env) == [] && Serve(s, []) == (s, []) && reply + [] == reply && !AsksDownload([])
    ensures WithinBuffer(p, at, len)
  {
  }

  lemma ServeFirst(s: Session, first: Arrival, rest: seq<Arrival>)
    ensures Serve(s, [first] + rest)
      == (Serve(After(s, first.m), rest).0, Reply(s, first.m, first.env) + Serve(After(s, first.m), rest).1)
    ensures AsksDownload([first] + rest) <==> first.m[0] == ATN_REQ_TAB_UPD || AsksDownload(rest)
  {
    hide After, Reply;
    var all := [first] + rest;
    assert all[1..] == rest;
    assert all[0].m[0] == ATN_REQ_TAB_UPD ==> AsksDownload(all);
    if AsksDownload(rest) {
      var k :| 0 <= k < |rest| && rest[k].m[0] == ATN_REQ_TAB_UPD;
      assert all[k + 1] == rest[k];
    }
  }

  lemma Appended3(a: seq<byte>, b: seq<byte>, c: seq<byte>)
    ensures a + b + c == a + (b + c)
  {
  }

  /**
   * The message loop serves the messages its advances cut the payload into; it stays within its buffers exactly if
   * every message does and the whole reply fits 245 bytes.
   */
  lemma {:induction false} LoopServes(s: Session, reply: seq<byte>, download: bool, p: Payload, at: nat, len: nat, env: Env)
    requires len <= PAYLOAD_MAX && |reply| <= REPLY_MAX
    ensures var t := Messages(s, reply, download, p, at, len, env);
      var ms := Split(p, at, len, env);
      && (t.Done? <==> WithinBuffer(p, at, len) && |reply| + |Serve(s, ms).1| <= REPLY_MAX)
      && (t.Done? ==>
        && t.session == Serve(s, ms).0 && t.reply == reply + Serve(s, ms).1
        && (t.download <==> download || AsksDownload(ms)))
    decreases len - at
  {
    assert |reply| <= REPLY_MAX;
    hide *;
    if at >= len {
      LoopOver(s, reply, download, p, at, len, env);
    } else if at + Size(p[at]) > BUFFER_SIZE {
      MessagesEnd(s, reply, download, p, at, len, env);
    } else {
      var m := MessagesStep(s, reply, download, p, at, len, env);
      var r := Reply(s, m, env);
      var rest := Split(p, at + |m|, len, env);
      ServeFirst(s, Arrival(m, env), rest);
      if |reply + r| <= REPLY_MAX {
        LoopServes(After(s, m), reply + r, download || m[0] == ATN_REQ_TAB_UPD, p, at + |m|, len, env);
        Appended3(reply, r, Serve(After(s, m), rest).1);
      }
    }
  }

  predicate AsksDownload(ms: seq<Arrival>) {
    exists k :: 0 <= k < |ms| && ms[k].m[0] == ATN_REQ_TAB_UPD
  }

  type Length = n: nat | n <= PAYLOAD_MAX witness 0

  /** A packet as the session layer sees it. */
  datatype Delivery = Delivery(p: Payload, len: Length, env: Env)

  datatype Conversation = Broken | Finished(session: Session, replies: seq<seq<byte>>)

  /** One packet after the other, each answered with one reply. */
  function Converse(s: Session, ds: seq<Delivery>): Conversation
    decreases |ds|
  {
    if ds == [] then Finished(s, []) else
    match Process(s, ds[0].p, ds[0].len, ds[0].env)
    case Overrun => Broken
    case Done(t, reply, _) =>
      match Converse(t, ds[1..])
      case Broken => Broken
      case Finished(u, replies) => Finished(u, [reply] + replies)
  }

  function AllMessages(ds: seq<Delivery>): seq<Arrival> {
    if ds == [] then [] else Split(ds[0].p, ID_LENGTH, ds[0].len, ds[0].env) + AllMessages(ds[1..])
  }

  function Flat(replies: seq<seq<byte>>): seq<byte> {
    if replies == [] then [] else replies[0] + Flat(replies[1..])
  }

  lemma {:induction false} ServeApart(s: Session, a: seq<Arrival>, b: seq<Arrival>)
    ensures Serve(s, a + b) == (Serve(Serve(s, a).0, b).0, Serve(s, a).1 + Serve(Serve(s, a).0, b).1)
    decreases |a|
  {
    if a == [] {
      assert a + b == b;
      assert [] + Serve(s, b).1 == Serve(s, b).1;
    } else {
      hide *;
      var rest := a[1..];
      assert a == [a[0]] + rest && a + b == [a[0]] + (rest + b);
      ServeApart(After(s, a[0].m), rest, b);
      ServeFirst(s, a[0], rest);
      ServeFirst(s, a[0], rest + b);
      var t := Serve(After(s, a[0].m), rest);
      Appended3(Reply(s, a[0].m, a[0].env), t.1, Serve(t.0, b).1);
    }
  }

  function MessagesOf(d: Delivery): seq<Arrival> { Split(d.p, ID_LENGTH, d.len, d.env) }

  /** A packet that the message loop serves within its buffers. */
  predicate FitsPacket(load: Load, d: Delivery) {
    WithinBuffer(d.p, ID_LENGTH, d.len) && ReplyLength(load, MessagesOf(d)) <= REPLY_MAX
  }

  /** All packets fit, one after the other: a condition on the packets and the load at the start. */
  predicate FitsAll(load: Load, ds: seq<Delivery>)
    decreases |ds|
  {
    ds == [] || (FitsPacket(load, ds[0]) && FitsAll(LoadAfter(load, MessagesOf(ds[0])), ds[1..]))
  }

  /** A packet is served exactly if it fits. */
  lemma PacketFits(s: Session, d: Delivery)
    requires Good(s)
    ensures var t := Process(s, d.p, d.len, d.env);
      && (t.Done? <==> FitsPacket(LoadOf(s), d))
      && (t.Done? ==>
        && (t.session, t.reply) == Serve(s, MessagesOf(d)) && |t.reply| <= REPLY_MAX && Complete(t.reply)
        && Good(t.session) && LoadOf(t.session) == LoadAfter(LoadOf(s), MessagesOf(d)))
  {
    LoopServes(s, [], false, d.p, ID_LENGTH, d.len, d.env);
    WithinQueueExact(s, MessagesOf(d));
    Accounted(s, MessagesOf(d));
    hide Serve, Split, Messages, Good, WithinBuffer, LoadOf, ReplyLength, LoadAfter, Complete;
    var ms := Split(d.p, ID_LENGTH, d.len, d.env);
    assert [] + Serve(s, ms).1 == Serve(s, ms).1;
  }

  lemma ConverseStep(s: Session, ds: seq<Delivery>)
    requires ds != []
    ensures var t := Process(s, ds[0].p, ds[0].len, ds[0].env);
      if t.Overrun? then Converse(s, ds) == Broken else
      var rest := Converse(t.session, ds[1..]);
      Converse(s, ds) == if rest.Broken? then Broken else Finished(rest.session, [t.reply] + rest.replies)
  {
    hide Process;
  }

  /**
   * A conversation stays within the buffers exactly if its packets fit; then it is its messages served in order, cut
   * into replies of whole messages and at most 245 bytes each.
   */
  lemma {:induction false} ConversationServes(s: Session, ds: seq<Delivery>)
    requires Good(s)
    ensures var c := Converse(s, ds);
      && (c.Finished? <==> FitsAll(LoadOf(s), ds))
      && (c.Finished? ==>
        && (c.session, Flat(c.replies)) == Serve(s, AllMessages(ds))
        && |c.replies| == |ds|
        && (forall k :: 0 <= k < |c.replies| ==> |c.replies[k]| <= REPLY_MAX && Complete(c.replies[k])))
    decreases |ds|
  {
    hide Serve, Split, Messages, Process, Good, LoadOf, LoadAfter, FitsPacket, Complete;
    if ds == [] {
      ServeNone(s);
    } else {
      var d := ds[0];
      ConverseStep(s, ds);
      hide Converse;
      var t := Process(s, d.p, d.len, d.env);
      PacketFits(s, d);
      if t.Done? {
        ConversationServes(t.session, ds[1..]);
        ServeApart(s, MessagesOf(d), AllMessages(ds[1..]));
        var rest := Converse(t.session, ds[1..]);
        if rest.Finished? {
          assert ([t.reply] + rest.replies)[1..] == rest.replies;
        }
      }
    }
  }

  lemma ServeNone(s: Session)
    ensures Serve(s, []) == (s, [])
  {
  }

  /** The call records acknowledged in replies, each read for itself. */
  function AcksOf(replies: seq<seq<byte>>): seq<Number> {
    if replies == [] then [] else AcksIn(replies[0]) + AcksOf(replies[1..])
  }

  lemma {:induction false} FlatAcks(replies: seq<seq<byte>>)
    requires forall k :: 0 <= k < |replies| ==> Complete(replies[k])
    ensures AcksIn(Flat(replies)) == AcksOf(replies)
  {
    hide Complete, AcksIn;
    if replies == [] {
      CompleteFirst([]);
    } else {
      FlatAcks(replies[1..]);
      RepliesApart(replies[0], Flat(replies[1..]));
    }
  }

  /**
   * Over any run of packets that fit: the acknowledgements in the replies, followed by those still queued, are those
   * of all call records received, in order, exactly as long as at most 81 wait at a time; what is missing was lost.
   */
  lemma ConversationConserves(s: Session, ds: seq<Delivery>)
    requires Good(s) && FitsAll(LoadOf(s), ds)
    ensures var c := Converse(s, ds);
      && c.Finished? && Good(c.session)
      && (AcksOf(c.replies) + AcksIn(c.session.queue) == AcksIn(s.queue) + Records(AllMessages(ds))
        <==> WithinQueue(LoadOf(s), AllMessages(ds)))
      && |AcksOf(c.replies)| + |AcksIn(c.session.queue)| + Lost(s, AllMessages(ds))
        == |AcksIn(s.queue)| + |Records(AllMessages(ds))|
      && (Lost(s, AllMessages(ds)) == 0 <==> WithinQueue(LoadOf(s), AllMessages(ds)))
  {
    hide *;
    ConversationServes(s, ds);
    FlatAcks(Converse(s, ds).replies);
    OwedIs(Flat(Converse(s, ds).replies), Converse(s, ds).session);
    Accounted(s, AllMessages(ds));
    AcksConserved(s, AllMessages(ds));
    WithinQueueExact(s, AllMessages(ds));
  }

  lemma OwedIs(reply: seq<byte>, s: Session)
    ensures Owed(reply, s) == AcksIn(reply) + AcksIn(s.queue)
  {
  }

  // ------------------------------------------------------------ what does not fit

  lemma RequestsServed(s: Session, p: Payload, at: nat, len: Length, env: Env)
    requires at <= len && forall k :: at <= k < len ==> p[k] == TIME_SYNC_REQ
    ensures WithinBuffer(p, at, len) && |Serve(s, Split(p, at, len, env)).1| == 9 * (len - at)
    decreases len - at
  {
    OneByteMessages();
    if at < len {
      var m: Message := p[at..at + 1];
      ServeFirst(s, Arrival(m, env), Split(p, at + 1, len, env));
      hide Size;
      RequestsServed(After(s, m), p, at + 1, len, env);
    }
  }

  lemma OneByteMessages()
    ensures Size(TIME_SYNC_REQ) == 1 && Size(0) == 1
  {
  }

  /** A packet of nothing but time requests overruns the reply, in every session, exactly from 28 of them on. */
  lemma TimeRequestsOverrun(s: Session, p: Payload, len: Length, env: Env)
    requires len >= ID_LENGTH && forall k :: ID_LENGTH <= k < len ==> p[k] == TIME_SYNC_REQ
    ensures Process(s, p, len, env) == Overrun <==> len - ID_LENGTH >= 28
  {
    LoopServes(s, [], false, p, ID_LENGTH, len, env);
    RequestsServed(s, p, ID_LENGTH, len, env);
    hide Serve, Split, Messages, WithinBuffer;
  }

  lemma {:induction false} ZerosThenAlarm(p: Payload, at: nat)
    requires at <= 249 && p[249] == ALARM && forall k :: at <= k < 249 ==> p[k] == 0
    ensures !WithinBuffer(p, at, PAYLOAD_MAX)
    decreases 249 - at
  {
    OneByteMessages();
    Sizes();
    hide Size;
    if at < 249 {
      ZerosThenAlarm(p, at + 1);
    }
  }

  /** An alarm that begins in the last byte of a full payload is read beyond the payload buffer. */
  lemma AlarmBeyondBuffer(s: Session, p: Payload, env: Env)
    requires p[249] == ALARM && forall k :: ID_LENGTH <= k < 249 ==> p[k] == 0
    ensures Process(s, p, PAYLOAD_MAX, env) == Overrun
  {
    LoopServes(s, [], false, p, ID_LENGTH, PAYLOAD_MAX, env);
    ZerosThenAlarm(p, ID_LENGTH);
    hide Serve, Split, Messages, WithinBuffer;
  }

  lemma {:induction false} RecordsFill(s: Session, records: seq<Arrival>)
    requires Good(s) && s.inProgress && forall k :: 0 <= k < |records| ==> records[k].m[0] == CALL_DETAILS
    ensures LoadAfter(LoadOf(s), records) == Load(true, Min(LoadOf(s).waiting + |records|, QUEUE_MAX))
    ensures Lost(s, records) == LoadOf(s).waiting + |records| - Min(LoadOf(s).waiting + |records|, QUEUE_MAX)
    decreases |records|
  {
    AcksParse(s.queue);
    hide Size, Reply, IsAcks, AcksIn, Complete, AnswerLength;
    if records != [] {
      var m := records[0].m;
      Served(s, m, records[0].env);
      LoadFollows(s, m, records[0].env);
      assert After(s, m).inProgress;
      RecordsFill(After(s, m), records[1..]);
    }
  }

  /** From the start, a call-in and more than 81 call records: 81 acknowledgements wait, and every further one is lost. */
  lemma TransferCrowds(callIn: Arrival, records: seq<Arrival>)
    requires callIn.m[0] == CALL_IN && forall k :: 0 <= k < |records| ==> records[k].m[0] == CALL_DETAILS
    ensures var start := Session(false, [], 0);
      var (t, reply) := Serve(start, [callIn] + records);
      && Good(start) && LoadOf(t) == Load(true, Min(|records|, QUEUE_MAX))
      && Lost(start, [callIn] + records) == |records| - Min(|records|, QUEUE_MAX)
  {
    var start := Session(false, [], 0);
    var all := [callIn] + records;
    assert all[1..] == records;
    Served(start, callIn.m, callIn.env);
    LoadFollows(start, callIn.m, callIn.env);
    ServeStep(start, all);
    RecordsFill(After(start, callIn.m), records);
    WithinQueueExact(start, all);
    hide Size, Reply, Complete, AcksIn, Serve, Lost;
  }

  /** The 82nd record of a transfer is taken without acknowledgement, now or later. */
  lemma CrowdedRecordForgotten(s: Session, m: Message, env: Env)
    requires Crowded(s, m)
    ensures Reply(s, m, env) == [] && After(s, m) == s
  {
    hide Size;
  }

  // ------------------------------------------------------------ the manager's state, updated in place

  class Manager {
    const cdrAckBuffer: array<byte>
    var cdrAckBufferLen: nat
    var transDataInProgress: bool
    var terminalUpdReason: byte

    ghost predicate Valid()
      reads this
    {
      cdrAckBuffer.Length == REPLY_MAX && cdrAckBufferLen <= REPLY_MAX
    }

    ghost function State(): Session
      requires Valid()
      reads this, cdrAckBuffer
    {
      Session(transDataInProgress, cdrAckBuffer[..cdrAckBufferLen], terminalUpdReason)
    }

    constructor ()
      ensures Valid() && State() == Session(false, [], 0) && Good(State())
      ensures fresh(cdrAckBuffer)
    {
      cdrAckBuffer := new byte[REPLY_MAX];
      cdrAckBufferLen, transDataInProgress, terminalUpdReason := 0, false, 0;
    }

    method AppendToCdrAckBuffer(buffer: seq<byte>) returns (ok: bool)
      requires Valid()
      modifies this`cdrAckBufferLen, cdrAckBuffer
      ensures Valid() && State() == old(State()).(queue := Deferred(old(State()).queue, buffer))
      ensures ok <==> |old(State()).queue| + |buffer| <= 245
      ensures State().queue == if ok then old(State()).queue + buffer else old(State()).queue
    {
      if cdrAckBufferLen + |buffer| > REPLY_MAX {
        return false;
      }
      for i := 0 to |buffer|
        invariant cdrAckBufferLen == old(cdrAckBufferLen)
        invariant cdrAckBuffer[..cdrAckBufferLen + i] == old(cdrAckBuffer[..cdrAckBufferLen]) + buffer[..i]
      {
        cdrAckBuffer[cdrAckBufferLen + i] := buffer[i];
      }
      cdrAckBufferLen := cdrAckBufferLen + |buffer|;
      ok := true;
    }

    /** Handles one message; answer is what it adds to the reply. */
    method Handle(m: Message, env: Env) returns (answer: seq<byte>)
      requires Valid()
      modifies this, cdrAckBuffer
      ensures Valid()
      ensures answer == Reply(old(State()), m, env) && State() == After(old(State()), m)
    {
      hide Size, WantsCashBox;
      Sizes();
      answer := [];
      var id := m[0];
      if id == TIME_SYNC_REQ {
        answer := [TIME_SYNC] + env.clock + [END_DATA];
      } else if id == ATN_REQ_TAB_UPD {
        terminalUpdReason := m[1];
        answer := [TABLE_UPD];
        if WantsCashBox(terminalUpdReason) {
          answer := answer + ([CASH_BOX_STATUS] + env.balance);
        }
      } else if id == ALARM {
        answer := [ALARM_ACK, m[7]];
      } else if id == MAINT_REQ {
        answer := [MAINT_ACK, m[1], m[2]];
      } else if id == CALL_DETAILS {
        if transDataInProgress {
          var _ := AppendToCdrAckBuffer(AckOf(m));
        } else {
          answer := AckOf(m);
        }
      } else if StartsTransfer(id) {
        answer := [TRANS_DATA];
        transDataInProgress := true;
      } else if id == CASH_BOX_COLLECTION {
        answer := [END_DATA];
      } else if id == RATE_REQUEST {
        answer := RateResponse();
      } else if id == FUNF_CARD_AUTH {
        answer := AuthResponse(env.authCode);
      } else if id == END_DATA {
        transDataInProgress := false;
        answer := [END_DATA];
        if cdrAckBufferLen > 0 {
          answer := answer + cdrAckBuffer[..cdrAckBufferLen];
          cdrAckBufferLen := 0;
        }
      } else if id == TABLE_UPD_ACK {
        answer := [TRANS_DATA];
      }
    }

    /** The message loop; false if a message or the reply does not fit its buffer. */
    method ProcessMessages(p: Payload, len: nat, env: Env) returns (ok: bool, reply: seq<byte>, download: bool)
      requires Valid() && len <= PAYLOAD_MAX
      modifies this, cdrAckBuffer
      ensures Valid()
      ensures var t := Process(old(State()), p, len, env);
        ok == t.Done? && (ok ==> Done(State(), reply, download) == t)
    {
      hide Size, Reply, After;
      ghost var goal := Process(State(), p, len, env);
      var at := ID_LENGTH;
      reply, download := [], false;
      while at < len
        invariant Valid() && Messages(State(), reply, download, p, at, len, env) == goal
        decreases len - at
      {
        var n := Size(p[at]);
        if at + n > BUFFER_SIZE {
          return false, [], false;
        }
        var m: Message := p[at..at + n];
        var answer := Handle(m, env);
        if |reply + answer| > REPLY_MAX {
          return false, [], false;
        }
        reply, download, at := reply + answer, download || m[0] == ATN_REQ_TAB_UPD, at + n;
      }
      ok := true;
    }
  }
}
