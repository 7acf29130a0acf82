/** What the terminal is told: replies read message by message, against what the messages ask for. */
module Answers {
  import opened Crc
  import opened Packets
  import opened Session

  // ------------------------------------------------------------ a reply as the terminal reads it

  /** A message to the terminal with what it carries. */
  datatype Said =
    | Time(clock: seq<byte>)
    | EndOfData
    | TableUpdate
    | CashBox(balance: seq<byte>)
    | AlarmTaken(alarm: byte)
    | MaintenanceTaken(lo: byte, hi: byte)
    | CallTaken(number: Number)
    | SendData
    | Rate(kind: byte, period: nat, charge: nat, nextPeriod: nat, nextCharge: nat, others: seq<byte>)
    | CardChecked(result: byte, code: seq<byte>, pad: seq<byte>)
    | Other(id: byte)

  /** A word, low byte first. */
  function Word(lo: byte, hi: byte): nat { Uint(lo) + 256 * Uint(hi) }

  /** The first message of a reply, its fields at their places in the message. */
  function FirstSaid(r: seq<byte>): Said
    requires r != [] && ReplySize(r[0]) <= |r|
  {
    hide Uint;
    var id := r[0];
    if id == TIME_SYNC then Time(r[1..8])
    else if id == END_DATA then EndOfData
    else if id == TABLE_UPD then TableUpdate
    else if id == CASH_BOX_STATUS then CashBox(r[1..57])
    else if id == ALARM_ACK then AlarmTaken(r[1])
    else if id == MAINT_ACK then MaintenanceTaken(r[1], r[2])
    else if id == CDR_DETAILS_ACK then CallTaken(Number(r[1], r[2]))
    else if id == TRANS_DATA then SendData
    else if id == RATE_RESPONSE then
      Rate(r[1], Word(r[2], r[3]), Word(r[4], r[5]), Word(r[6], r[7]), Word(r[8], r[9]), r[10..26])
    else if id == AUTH_RESP_CODE then CardChecked(r[1], r[2..10], r[10..22])
    else Other(id)
  }

  /** A whole reply, message by message. */
  function Understood(r: seq<byte>): seq<Said>
    decreases |r|
  {
    if r == [] || ReplySize(r[0]) > |r| then [] else
    [FirstSaid(r)] + Understood(r[ReplySize(r[0])..])
  }

  lemma SliceApart(a: seq<byte>, b: seq<byte>, i: nat, j: nat)
    requires i <= j <= |a|
    ensures (a + b)[i..j] == a[i..j]
  {
  }

  lemma FirstSaidOnly(a: seq<byte>, b: seq<byte>)
    requires a != [] && ReplySize(a[0]) <= |a|
    ensures (a + b)[0] == a[0] && FirstSaid(a + b) == FirstSaid(a)
  {
    hide Word;
    var id := a[0];
    if id == TIME_SYNC {
      SliceApart(a, b, 1, 8);
    } else if id == CASH_BOX_STATUS {
      SliceApart(a, b, 1, 57);
    } else if id == RATE_RESPONSE {
      SliceApart(a, b, 10, 26);
    } else if id == AUTH_RESP_CODE {
      SliceApart(a, b, 2, 10);
      SliceApart(a, b, 10, 22);
    }
  }

  lemma UnderstoodStep(r: seq<byte>)
    ensures Understood(r) == if r == [] || ReplySize(r[0]) > |r| then [] else [FirstSaid(r)] + Understood(r[ReplySize(r[0])..])
  {
    hide ReplySize, FirstSaid;
  }

  lemma {:induction false} UnderstoodApart(a: seq<byte>, b: seq<byte>)
    requires Complete(a)
    ensures Understood(a + b) == Understood(a) + Understood(b)
    decreases |a|
  {
    hide *;
    CompleteFirst(a);
    UnderstoodStep(a);
    if a == [] {
      assert a + b == b;
    } else {
      var rest := a[ReplySize(a[0])..];
      FirstSaidOnly(a, b);
      assert (a + b)[ReplySize(a[0])..] == rest + b;
      AcksStep(a);
      UnderstoodStep(a + b);
      UnderstoodApart(rest, b);
    }
  }

  lemma OneSaid(r: seq<byte>)
    requires r != [] && |r| == ReplySize(r[0])
    ensures Complete(r) && Understood(r) == [FirstSaid(r)]
  {
    hide ReplySize, FirstSaid;
    assert r[|r|..] == [];
  }

  lemma NothingSaid()
    ensures Understood([]) == []
  {
  }

  // ------------------------------------------------------------ what is owed to each message

  /** What the terminal can know of a session: whether it is transferring, the calls not yet acknowledged, its last reason. */
  datatype Talk = Talk(transferring: bool, waiting: seq<Number>, reason: byte)

  function TalkOf(s: Session): Talk { Talk(s.inProgress, AcksIn(s.queue), s.updReason) }

  function CallsTaken(numbers: seq<Number>): seq<Said> {
    seq(|numbers|, k requires 0 <= k < |numbers| => CallTaken(numbers[k]))
  }

  /** The reason of a table request asks for the cash box status with its top bit. */
  predicate BoxAsked(reason: byte) { reason >= 0x80 }

  lemma TopBit(reason: byte)
    ensures BoxAsked(reason) <==> WantsCashBox(reason)
  {
  }

  /** The answer a message asks for, by the kind of message. */
  function Due(t: Talk, m: Message, env: Env): seq<Said> {
    hide Size, BoxAsked;
    Sizes();
    match m[0]
    case 0x24 => [Time(env.clock), EndOfData]
    case 0x2c => [TableUpdate] + if BoxAsked(m[1]) then [CashBox(env.balance)] else []
    case 0x07 => [AlarmTaken(m[7])]
    case 0x06 => [MaintenanceTaken(m[1], m[2])]
    case 0x35 => if t.transferring then [] else [CallTaken(Number(m[31], m[32]))]
    case 0x2a => [SendData]
    case 0x08 => [SendData]
    case 0x09 => [SendData]
    case 0x0e => [SendData]
    case 0x33 => [EndOfData]
    case 0x3f => [Rate(7, 240, 100, 60, 25, seq(16, _ => 0))]
    case 0x02 => [CardChecked(0, env.authCode, CARD_PAD)]
    case 0x0d => [EndOfData] + CallsTaken(t.waiting)
    case _ => []
  }

  const CARD_PAD: seq<byte> := [0x30, 0x31, 0x32, 0x33, 0x34, 0x35, 0x36, 0x37, 0x38, 0x39, 0x41, 0x42]

  /** The talk after a message: 81 calls at most can wait. */
  function Turned(t: Talk, m: Message): Talk {
    hide Size;
    Sizes();
    match m[0]
    case 0x2c => t.(reason := m[1])
    case 0x35 =>
      if t.transferring && |t.waiting| < 81 then t.(waiting := t.waiting + [Number(m[31], m[32])]) else t
    case 0x2a => t.(transferring := true)
    case 0x08 => t.(transferring := true)
    case 0x09 => t.(transferring := true)
    case 0x0d => t.(transferring := false, waiting := [])
    case _ => t
  }

  lemma {:induction false} AcksUnderstood(q: seq<byte>)
    requires IsAcks(q)
    ensures Understood(q) == CallsTaken(AcksIn(q))
    decreases |q|
  {
    AckSize();
    if q == [] {
      NothingSaid();
    } else {
      hide AcksIn, Understood, ReplySize;
      AcksUnderstood(q[3..]);
      AcksStep(q);
      UnderstoodStep(q);
    }
  }

  lemma TwoSaid(a: seq<byte>, b: seq<byte>)
    requires a != [] && |a| == ReplySize(a[0]) && b != [] && |b| == ReplySize(b[0])
    ensures Understood(a + b) == [FirstSaid(a), FirstSaid(b)]
  {
    hide ReplySize, FirstSaid, Understood, Complete;
    OneSaid(a);
    OneSaid(b);
    UnderstoodApart(a, b);
  }

  /** The answers that do not depend on the session. */
  lemma OtherAnswered(s: Session, m: Message, env: Env)
    requires m[0] != CALL_DETAILS && m[0] != END_DATA
    ensures Understood(Reply(s, m, env)) == Due(TalkOf(s), m, env)
  {
    AckSize();
    Sizes();
    hide Size, ReplySize, WantsCashBox, BoxAsked, Understood, AcksIn, Complete;
    NothingSaid();
    var r := Reply(s, m, env);
    if m[0] == ATN_REQ_TAB_UPD {
      TopBit(m[1]);
    }
    if m[0] == TIME_SYNC_REQ {
      var time := [TIME_SYNC] + env.clock;
      assert time[1..8] == env.clock;
      TwoSaid(time, [END_DATA]);
    } else if m[0] == ATN_REQ_TAB_UPD && WantsCashBox(m[1]) {
      var box := [CASH_BOX_STATUS] + env.balance;
      assert box[1..57] == env.balance;
      TwoSaid([TABLE_UPD], box);
    } else if r != [] {
      OneSaid(r);
      RateIs();
      CardIs(env.authCode);
    }
  }

  lemma RateIs()
    ensures |RateResponse()| == ReplySize(RATE_RESPONSE)
    ensures FirstSaid(RateResponse()) == Rate(7, 240, 100, 60, 25, seq(16, _ => 0))
  {
    assert Uint(240) == 240 && Uint(100) == 100 && Uint(60) == 60 && Uint(25) == 25 && Uint(0) == 0;
    assert RateResponse()[10..26] == seq(16, _ => 0);
  }

  lemma CardIs(code: AuthCode)
    ensures |AuthResponse(code)| == ReplySize(AUTH_RESP_CODE)
    ensures FirstSaid(AuthResponse(code)) == CardChecked(0, code, CARD_PAD)
  {
    var r := AuthResponse(code);
    assert r[2..10] == code && r[10..22] == CARD_PAD;
  }

  lemma RecordAnswered(s: Session, m: Message, env: Env)
    requires m[0] == CALL_DETAILS
    ensures Understood(Reply(s, m, env)) == Due(TalkOf(s), m, env)
  {
    AckSize();
    Sizes();
    hide Size, ReplySize, Understood, AcksIn, Complete;
    NothingSaid();
    if !s.inProgress {
      OneSaid(AckOf(m));
    }
  }

  lemma FlushAnswered(s: Session, m: Message, env: Env)
    requires Good(s) && m[0] == END_DATA
    ensures Understood(Reply(s, m, env)) == Due(TalkOf(s), m, env)
  {
    AckSize();
    hide Size, ReplySize, Understood, AcksIn, Complete, IsAcks;
    OneSaid([END_DATA]);
    AcksUnderstood(s.queue);
    UnderstoodApart([END_DATA], s.queue);
  }

  lemma TalkTurns(s: Session, m: Message)
    requires Good(s)
    ensures TalkOf(After(s, m)) == Turned(TalkOf(s), m)
  {
    Sizes();
    EmptyQueue();
    AcksParse(s.queue);
    hide Size, AcksIn, IsAcks, Complete;
    if m[0] == CALL_DETAILS && s.inProgress {
      OneAck(m[31], m[32]);
      RepliesApart(s.queue, AckOf(m));
    }
  }

  /** Every message gets exactly the answer due to it, and moves the talk on. */
  lemma Answered(s: Session, m: Message, env: Env)
    requires Good(s)
    ensures Understood(Reply(s, m, env)) == Due(TalkOf(s), m, env)
    ensures TalkOf(After(s, m)) == Turned(TalkOf(s), m)
  {
    hide Size, Understood, Due, Turned, Reply, After, TalkOf, Good;
    TalkTurns(s, m);
    if m[0] == CALL_DETAILS {
      RecordAnswered(s, m, env);
    } else if m[0] == END_DATA {
      FlushAnswered(s, m, env);
    } else {
      OtherAnswered(s, m, env);
    }
  }

  // ------------------------------------------------------------ any number of messages, any number of packets

  function AllDue(t: Talk, ms: seq<Arrival>): seq<Said>
    decreases |ms|
  {
    if ms == [] then [] else Due(t, ms[0].m, ms[0].env) + AllDue(Turned(t, ms[0].m), ms[1..])
  }

  function AllTurned(t: Talk, ms: seq<Arrival>): Talk
    decreases |ms|
  {
    if ms == [] then t else AllTurned(Turned(t, ms[0].m), ms[1..])
  }

  lemma DueStep(t: Talk, ms: seq<Arrival>)
    ensures AllDue(t, ms) == if ms == [] then [] else Due(t, ms[0].m, ms[0].env) + AllDue(Turned(t, ms[0].m), ms[1..])
    ensures AllTurned(t, ms) == if ms == [] then t else AllTurned(Turned(t, ms[0].m), ms[1..])
  {
    hide Due, Turned;
  }

  /** Over any messages the reply says exactly what is due to them, in their order. */
  lemma {:induction false} AllAnswered(s: Session, ms: seq<Arrival>)
    requires Good(s)
    ensures var (t, reply) := Serve(s, ms);
      Understood(reply) == AllDue(TalkOf(s), ms) && TalkOf(t) == AllTurned(TalkOf(s), ms)
    decreases |ms|
  {
    hide *;
    DueStep(TalkOf(s), ms);
    if ms == [] {
      NothingServed(s);
      NothingSaid();
    } else {
      var m, env := ms[0].m, ms[0].env;
      Served(s, m, env);
      Answered(s, m, env);
      ServeStep(s, ms);
      AllAnswered(After(s, m), ms[1..]);
      UnderstoodApart(Reply(s, m, env), Serve(After(s, m), ms[1..]).1);
    }
  }

  /** Replies, each read for itself. */
  function AllUnderstood(replies: seq<seq<byte>>): seq<Said> {
    if replies == [] then [] else Understood(replies[0]) + AllUnderstood(replies[1..])
  }

  lemma {:induction false} FlatUnderstood(replies: seq<seq<byte>>)
    requires forall k :: 0 <= k < |replies| ==> Complete(replies[k])
    ensures Understood(Flat(replies)) == AllUnderstood(replies)
  {
    hide Complete, Understood;
    if replies == [] {
      NothingSaid();
    } else {
      FlatUnderstood(replies[1..]);
      UnderstoodApart(replies[0], Flat(replies[1..]));
    }
  }

  /** Over any packets that fit: the replies say exactly what is due to their messages. */
  lemma ConversationAnswers(s: Session, ds: seq<Delivery>)
    requires Good(s) && FitsAll(LoadOf(s), ds)
    ensures var c := Converse(s, ds);
      && c.Finished?
      && AllUnderstood(c.replies) == AllDue(TalkOf(s), AllMessages(ds))
      && TalkOf(c.session) == AllTurned(TalkOf(s), AllMessages(ds))
  {
    hide *;
    ConversationServes(s, ds);
    FlatUnderstood(Converse(s, ds).replies);
    AllAnswered(s, AllMessages(ds));
  }

  // ------------------------------------------------------------ the sizes of the messages

  /** The sizes by which the message loop advances are those of the structures, field by field; anything else is one byte. */
  lemma StructureSizes(id: byte)
    ensures Size(ALARM) == 1 + 6 + 1
    ensures Size(MAINT_REQ) == 1 + 2 + 3
    ensures Size(CALL_DETAILS) == 1 + 1 + 10 + 1 + 10 + 2 * 4 + 2 + 6 + 3 + 1 + 8 + 1 + 1 + 1
    ensures Size(CASH_BOX_COLLECTION) == 1 + 14 + 6 + 4 + 1 + 1 + 2 + 4 + 8 * 2 + 22
    ensures Size(TERM_STATUS) == 1 + 5 + 5
    ensures Size(SW_VERSION) == 1 + 7 + 4 + 7 + 4 + 1 + 2 + 2
    ensures Size(CASH_BOX_STATUS) == 1 + 6 + 4 + 1 + 1 + 2 + 2 * 2 + 8 * 2 + 22
    ensures Size(PERF_STATS_MSG) == 1 + 6 + 6 + 43 * 2
    ensures Size(CARRIER_CALL_STATS) == 1 + 6 + 6 + 3 * (1 + 29 * 2)
    ensures Size(CARRIER_STATS_EXP) == 1 + 6 + 6 + 1 + 2 * (1 + 4 * 12 * 2 + 4 * 2 + 4 + 3 * 2)
    ensures Size(SUMMARY_CALL_STATS) == 1 + 6 + 6 + 16 * 2 + 10 * 2 + 4 + 4 + 4 * 2
    ensures Size(RATE_REQUEST) == 1 + 1 + 1 + 10 + 6 + 1 + 1 + 1 + 1 + 2
    ensures Size(FUNF_CARD_AUTH) == 1 + 1 + 10 + 1 + 12 + 2 + 2 + 1 + 1 + 2 + 2 + 1 + 1 + 2
    ensures Size(TERM_ERR_REP) == 97 && Size(ATN_REQ_TAB_UPD) == Size(ATN_REQ_CDR_UPL) == Size(TABLE_UPD_ACK) == 1 + 1
    ensures id !in {0x07, 0x06, 0x35, 0x33, 0x0a, 0x3c, 0x26, 0x25, 0x39, 0x47, 0x38, 0x3f, 0x02, 0x53, 0x2c, 0x2a, 0x0e}
      ==> Size(id) == 1
  {
  }
}
