/** The dissector's reassembly undoes the segmentation of table transfers, and exactly when it does. */
module Reassembly {
  import opened Basics
  import opened Crc
  import opened Packets
  import opened Capture
  import opened Link
  import opened Phone
  import opened Transfer
  import opened LuaChecksum
  import opened Wireshark

  // ------------------------------------------------------------ what a capture shows

  /** An undamaged frame in a capture: without payload, or with terminal id and any data. */
  datatype Item = Item(tx: bool, flags: byte, payload: seq<byte>)

  predicate Fits(item: Item) { item.payload == [] || ID_LENGTH <= |item.payload| <= PAYLOAD_MAX }

  function Bytes(item: Item): seq<byte>
    requires Fits(item)
  {
    Shown(item.tx, Frame(item.flags, item.payload))
  }

  lemma ManagerStart(tx: bool)
    ensures FromManager(Marked(tx, START_BYTE)) == tx
    ensures Unmarked(Marked(tx, START_BYTE)) == START_BYTE
  {
  }

  lemma LengthOfByte(n: nat)
    requires n <= PAYLOAD_MAX
    ensures Uint(LengthByte(n)) == n + 5
  {
    LengthByteExact(n);
  }

  lemma WordBack(c: bv16)
    ensures Le(Lo(c), Hi(c)) == Widen(c)
  {
  }

  /** The bytes that the checksum covers, as a capture shows them. */
  function Covered(item: Item): seq<byte>
    requires Fits(item)
  {
    [Marked(item.tx, START_BYTE), item.flags, LengthByte(|item.payload|)] + item.payload
  }

  lemma Assembled(item: Item)
    requires Fits(item)
    ensures var crc := Crc16(0, FrameBody(item.flags, item.payload));
      Bytes(item) == Covered(item) + [Lo(crc), Hi(crc), STOP_BYTE]
  {
    hide Crc16, Frame, LengthByte, Lo, Hi, Marked;
    var data := item.payload;
    FrameParts(item.flags, data, Crc16(0, FrameBody(item.flags, data)));
  }

  lemma CoveredChecksum(item: Item)
    requires Fits(item)
    ensures LuaCrc(Covered(item)) == Widen(Crc16(0, FrameBody(item.flags, item.payload)))
  {
    hide Crc16, LengthByte, Marked, Unmarked, LuaCrc, Widen;
    ManagerStart(item.tx);
    var covered := Covered(item);
    assert [Unmarked(covered[0])] + covered[1..] == FrameBody(item.flags, item.payload);
    LuaCrcIsCrc16(covered);
  }

  /** The parts of a frame as the dissector reads them. */
  lemma Parts(item: Item)
    requires Fits(item)
    ensures var f := Bytes(item);
      && |f| == |item.payload| + 6 && WellFormed(f)
      && FromManager(f[0]) == item.tx && f[3..|f| - 3] == item.payload
      && ChecksumOk(f)
  {
    var f, crc := Bytes(item), Crc16(0, FrameBody(item.flags, item.payload));
    ManagerStart(item.tx);
    LengthOfByte(|item.payload|);
    WordBack(crc);
    Assembled(item);
    CoveredChecksum(item);
    hide Bytes, Crc16, LengthByte, Lo, Hi, Marked, Unmarked, FromManager, LuaCrc, Le, Widen, Uint;
    assert f[..|f| - 3] == Covered(item);
  }

  // ------------------------------------------------------------ single steps

  lemma QuietStep(d: Dissection, item: Item)
    requires item.payload == []
    ensures Fits(item) && WellFormed(Bytes(item)) && Step(d, Bytes(item)) == d
  {
    hide Frame, Shown, WellFormed;
    Parts(item);
  }

  /** The byte behind the first one of a piece: data, or the first check byte if there is no more data. */
  function SecondByte(item: Item): byte
    requires Fits(item) && |item.payload| > ID_LENGTH
  {
    Parts(item);
    Bytes(item)[9]
  }

  /** What a frame with data from the manager does, whatever its data: its first byte may be anything in a later piece. */
  function AfterPiece(d: Dissection, chunk: seq<byte>, second: byte): Dissection
    requires chunk != []
  {
    var id := if d.prevLen < 250 then chunk[0] else d.prevTableId;
    var acks := d.prevLen < 250 && chunk[0] == TABLE_UPD_ACK;
    var named := Named(if acks then second else id);
    var before := if d.prevLen < 250 && !acks && named then [] else d.table;
    Dissection(
      |chunk| + ID_LENGTH, id, if named then before + chunk else before,
      if acks && Uint(second) !in d.tables then d.tables[Uint(second) := d.table] else d.tables)
  }

  lemma AnyPieceStep(d: Dissection, item: Item, chunk: seq<byte>)
    requires item.tx && 0 < |chunk| <= DATA_MAX && |item.payload| == ID_LENGTH + |chunk| && item.payload[ID_LENGTH..] == chunk
    ensures Fits(item) && WellFormed(Bytes(item))
    ensures Step(d, Bytes(item)) == AfterPiece(d, chunk, SecondByte(item))
    ensures |chunk| > 1 ==> SecondByte(item) == chunk[1]
  {
    hide Frame, Shown, ChecksumOk, FromManager, Uint, Named;
    Parts(item);
    var f := Bytes(item);
    assert f[8] == f[3..|f| - 3][5] == chunk[0];
    assert f[8..|f| - 3] == f[3..|f| - 3][5..];
    if |chunk| > 1 {
      assert f[9] == f[3..|f| - 3][6] == chunk[1];
    }
  }

  lemma AckIsNamed()
    ensures Named(TABLE_UPD_ACK)
  {
  }

  predicate Introduces(d: Dissection, id: byte) {
    if d.prevLen < 250 then id != TABLE_UPD_ACK && Named(id) else Named(d.prevTableId)
  }

  /** A piece from the manager starts a table, or continues one if the manager's last message was full. */
  lemma PieceStep(d: Dissection, item: Item, chunk: seq<byte>)
    requires item.tx && 0 < |chunk| <= DATA_MAX && |item.payload| == ID_LENGTH + |chunk| && item.payload[ID_LENGTH..] == chunk
    requires Introduces(d, chunk[0])
    ensures Fits(item) && WellFormed(Bytes(item))
    ensures Step(d, Bytes(item)) == Dissection(
      |chunk| + ID_LENGTH, if d.prevLen < 250 then chunk[0] else d.prevTableId,
      (if d.prevLen < 250 then [] else d.table) + chunk, d.tables)
  {
    AnyPieceStep(d, item, chunk);
    AckIsNamed();
    hide Fits, Bytes, WellFormed, Step, SecondByte, Named, Uint;
  }

  /** When a piece sent again leaves the assembled bytes as they are. */
  predicate Harmless(d: Dissection, chunk: seq<byte>, second: byte)
    requires chunk != []
  {
    if |chunk| == DATA_MAX then !Named(if d.prevLen < 250 then chunk[0] else d.prevTableId)
    else if chunk[0] == TABLE_UPD_ACK then !Named(second)
    else Named(chunk[0]) && d.prevLen >= 250 ==> d.table == if Named(d.prevTableId) then [] else chunk
  }

  /**
   * A piece sent twice in a row, as a retransmission is, from any state: a full piece of a named table is appended
   * twice; a short piece starts a table anew if its first byte is a name, is skipped if it is none, and is taken for
   * an acknowledgement if it is 0x0e. The resend is harmless exactly under the condition above.
   */
  lemma ResentPiece(d: Dissection, item: Item, chunk: seq<byte>)
    requires item.tx && 0 < |chunk| <= DATA_MAX && |item.payload| == ID_LENGTH + |chunk| && item.payload[ID_LENGTH..] == chunk
    ensures Fits(item) && WellFormed(Bytes(item))
    ensures var second := SecondByte(item);
      var once := Step(d, Bytes(item));
      var twice := Step(once, Bytes(item));
      && (|chunk| == DATA_MAX ==>
        twice.table == (if Named(once.prevTableId) then once.table + chunk else once.table) && twice.tables == once.tables)
      && (|chunk| < DATA_MAX && chunk[0] == TABLE_UPD_ACK ==>
        && twice.table == (if Named(second) then once.table + chunk else once.table)
        && twice.tables == if Uint(second) in once.tables then once.tables else once.tables[Uint(second) := once.table])
      && (|chunk| < DATA_MAX && chunk[0] != TABLE_UPD_ACK ==>
        twice.table == (if Named(chunk[0]) then chunk else once.table) && twice.tables == once.tables)
      && (twice.table == once.table <==> Harmless(d, chunk, second))
  {
    hide Bytes, Step, WellFormed, Fits, SecondByte, Named, Uint;
    AnyPieceStep(d, item, chunk);
    AnyPieceStep(Step(d, Bytes(item)), item, chunk);
    AckIsNamed();
    Longer(d.table, chunk);
    Longer(chunk, Step(d, Bytes(item)).table);
  }

  /** A terminal's table acknowledgement keeps the assembled table, unless it is taken for a continuation. */
  lemma AckStep(d: Dissection, item: Item)
    requires !item.tx && ID_LENGTH + 2 <= |item.payload| <= PAYLOAD_MAX && item.payload[ID_LENGTH] == TABLE_UPD_ACK
    ensures Fits(item) && WellFormed(Bytes(item))
    ensures var id := Uint(item.payload[ID_LENGTH + 1]);
      Step(d, Bytes(item)) == if d.prevLen >= 250 || id in d.tables then d else d.(tables := d.tables[id := d.table])
  {
    hide Frame, Shown, ChecksumOk, FromManager, Uint, Named;
    Parts(item);
    var f := Bytes(item);
    assert f[8] == f[3..|f| - 3][5] && f[9] == f[3..|f| - 3][6];
    NothingAppended(d, f);
  }

  /**
   * Any message of the terminal: a table acknowledgement keeps the assembled table, any other message with a name
   * empties it, and one without a name, or after a full message of the manager, changes nothing.
   */
  lemma TerminalMessage(d: Dissection, item: Item)
    requires !item.tx && ID_LENGTH < |item.payload| <= PAYLOAD_MAX
    ensures Fits(item) && WellFormed(Bytes(item))
    ensures var id, second := item.payload[ID_LENGTH], SecondByte(item);
      Step(d, Bytes(item)) ==
        if d.prevLen >= 250 then d
        else if id == TABLE_UPD_ACK then
          if Uint(second) in d.tables then d else d.(tables := d.tables[Uint(second) := d.table])
        else if Named(id) then d.(table := []) else d
    ensures |item.payload| > ID_LENGTH + 1 ==> SecondByte(item) == item.payload[ID_LENGTH + 1]
  {
    hide Frame, Shown, ChecksumOk, FromManager, Uint, Named;
    Parts(item);
    var f := Bytes(item);
    assert f[8] == f[3..|f| - 3][5];
    if |item.payload| > ID_LENGTH + 1 {
      assert f[9] == f[3..|f| - 3][6];
    }
    NothingAppended(d, f);
    NothingAppended(d.(table := []), f);
  }

  /** A damaged frame of the manager adds nothing to the table, but its length and its name count like any other. */
  lemma DamagedMessage(d: Dissection, f: seq<byte>)
    requires WellFormed(f) && |f| > 6 && FromManager(f[0]) && !ChecksumOk(f)
    ensures var r := Step(d, f);
      && r.table == (if d.prevLen < 250 && f[8] != TABLE_UPD_ACK && Named(f[8]) then [] else d.table)
      && r.prevLen == |f| - 6 && r.prevTableId == (if d.prevLen < 250 then f[8] else d.prevTableId)
  {
    hide ChecksumOk, Named, Uint;
  }

  // ------------------------------------------------------------ one table

  /** These frames carry the table from its i-th piece on, in order, with any frames without payload in between. */
  predicate Carries(items: seq<Item>, table: seq<byte>, i: nat)
    decreases |items|
  {
    if items == [] then DATA_MAX * i >= |table|
    else if items[0].payload == [] then Carries(items[1..], table, i)
    else DATA_MAX * i < |table| && IsPiece(items[0], table, i) && Carries(items[1..], table, i + 1)
  }

  predicate IsPiece(item: Item, table: seq<byte>, i: nat)
    requires DATA_MAX * i < |table|
  {
    item.tx && |item.payload| >= ID_LENGTH && item.payload[ID_LENGTH..] == Piece(table, i)
  }

  predicate AllFit(items: seq<Item>) { forall k :: 0 <= k < |items| ==> Fits(items[k]) && WellFormed(Bytes(items[k])) }

  function StepAll(d: Dissection, items: seq<Item>): Dissection
    requires AllFit(items)
    decreases |items|
  {
    if items == [] then d else StepAll(Step(d, Bytes(items[0])), items[1..])
  }

  lemma FitsFirst(item: Item, rest: seq<Item>)
    requires Fits(item) && WellFormed(Bytes(item)) && AllFit(rest)
    ensures AllFit([item] + rest)
    ensures forall d :: StepAll(d, [item] + rest) == StepAll(Step(d, Bytes(item)), rest)
  {
    hide Fits, WellFormed, Bytes, Step;
    var items := [item] + rest;
    assert items[1..] == rest;
  }

  /** Payload length of the last piece of a table. */
  function LastLength(table: seq<byte>): nat
    requires table != []
  {
    (|table| - 1) % DATA_MAX + 1 + ID_LENGTH
  }

  lemma LastFull(table: seq<byte>)
    requires table != []
    ensures 0 < LastLength(table) <= PAYLOAD_MAX
    ensures LastLength(table) == PAYLOAD_MAX <==> |table| % DATA_MAX == 0
  {
  }

  /** Payload length of the i-th piece: full if another follows. */
  function LengthAt(table: seq<byte>, i: nat): nat
    requires DATA_MAX * i < |table|
  {
    |Piece(table, i)| + ID_LENGTH
  }

  lemma PieceLength(table: seq<byte>, i: nat)
    requires DATA_MAX * i < |table|
    ensures |Piece(table, i)| > 0
    ensures LengthAt(table, i) == if DATA_MAX * (i + 1) < |table| then PAYLOAD_MAX else LastLength(table)
  {
  }

  lemma PieceJoins(table: seq<byte>, i: nat)
    requires DATA_MAX * i < |table|
    ensures table[..DATA_MAX * i] + Piece(table, i) == table[..Min(|table|, DATA_MAX * (i + 1))]
  {
  }

  /** From the second piece on, the pieces of a table append to what is there. */
  lemma {:induction false} LaterPieces(d: Dissection, items: seq<Item>, table: seq<byte>, i: nat, before: seq<byte>)
    requires i > 0 && DATA_MAX * (i - 1) < |table|
    requires Carries(items, table, i) && Named(d.prevTableId)
    requires d.prevLen == LengthAt(table, i - 1) && d.table == before + table[..Min(|table|, DATA_MAX * i)]
    ensures AllFit(items)
    ensures StepAll(d, items) == d.(prevLen := LastLength(table), table := before + table)
    decreases |items|
  {
    hide Named, Fits, WellFormed, Bytes, Step, Piece, LastLength;
    PieceLength(table, i - 1);
    if items == [] {
      assert table[..|table|] == table;
    } else {
      var item := items[0];
      assert items == [item] + items[1..];
      if item.payload == [] {
        QuietStep(d, item);
        LaterPieces(d, items[1..], table, i, before);
      } else {
        var chunk := Piece(table, i);
        PieceLength(table, i);
        PieceStep(d, item, chunk);
        PieceJoins(table, i);
        var e := Step(d, Bytes(item));
        assert before + table[..DATA_MAX * i] + chunk == before + (table[..DATA_MAX * i] + chunk);
        LaterPieces(e, items[1..], table, i + 1, before);
      }
      FitsFirst(item, items[1..]);
    }
  }

  /** What is on the table buffer before the pieces of a new table are appended. */
  function Carried(d: Dissection): seq<byte> { if d.prevLen < 250 then [] else d.table }

  /** All pieces of one table, from any state. */
  lemma {:induction false} AllPieces(d: Dissection, items: seq<Item>, table: seq<byte>)
    requires table != [] && Carries(items, table, 0) && Introduces(d, table[0])
    ensures AllFit(items)
    ensures StepAll(d, items) == d.(
      prevLen := LastLength(table), prevTableId := if d.prevLen < 250 then table[0] else d.prevTableId,
      table := Carried(d) + table)
    decreases |items|
  {
    hide Named, Fits, WellFormed, Bytes, Step, Piece, LastLength, Introduces;
    var item := items[0];
    assert items == [item] + items[1..];
    if item.payload == [] {
      QuietStep(d, item);
      AllPieces(d, items[1..], table);
    } else {
      var chunk := Piece(table, 0);
      PieceLength(table, 0);
      PieceJoins(table, 0);
      FirstByte(d, table);
      PieceStep(d, item, chunk);
      assert [] + chunk == chunk && table[..DATA_MAX * 0] == [];
      NamedOn(d, table[0]);
      LaterPieces(Step(d, Bytes(item)), items[1..], table, 1, Carried(d));
    }
    FitsFirst(item, items[1..]);
  }

  lemma FirstByte(d: Dissection, table: seq<byte>)
    requires table != []
    ensures Piece(table, 0) != [] && Piece(table, 0)[0] == table[0]
  {
  }

  lemma NamedOn(d: Dissection, id: byte)
    requires Introduces(d, id)
    ensures Named(if d.prevLen < 250 then id else d.prevTableId)
  {
  }

  // ------------------------------------------------------------ tables, each acknowledged by the terminal

  /** The frames of one table, and the terminal's acknowledgement naming it. */
  datatype Exchange = Exchange(table: seq<byte>, items: seq<Item>, ack: Item)

  predicate Acknowledges(ack: Item, id: byte) {
    && !ack.tx && ID_LENGTH + 2 <= |ack.payload| <= PAYLOAD_MAX
    && ack.payload[ID_LENGTH] == TABLE_UPD_ACK && ack.payload[ID_LENGTH + 1] == id
  }

  /** A named table other than an acknowledgement, sent whole, then acknowledged. */
  predicate Proper(e: Exchange): (proper: bool)
    ensures proper ==> e.table != []
  {
    && e.table != [] && Named(e.table[0]) && e.table[0] != TABLE_UPD_ACK
    && Carries(e.items, e.table, 0) && Acknowledges(e.ack, e.table[0])
  }

  /** The key a table is kept under: its first byte. */
  function Key(e: Exchange): nat
    requires e.table != []
  {
    Uint(e.table[0])
  }

  function Frames(e: Exchange): seq<Item> { e.items + [e.ack] }

  lemma {:induction false} StepAllApart(d: Dissection, a: seq<Item>, b: seq<Item>)
    requires AllFit(a) && AllFit(b)
    ensures AllFit(a + b) && StepAll(d, a + b) == StepAll(StepAll(d, a), b)
    decreases |a|
  {
    hide Fits, WellFormed, Bytes, Step;
    if a == [] {
      assert a + b == b;
    } else {
      StepAllApart(Step(d, Bytes(a[0])), a[1..], b);
      assert (a + b)[1..] == a[1..] + b;
    }
  }

  lemma AckAlone(d: Dissection, ack: Item, id: byte)
    requires Acknowledges(ack, id)
    ensures AllFit([ack])
    ensures StepAll(d, [ack]) == if d.prevLen >= 250 || Uint(id) in d.tables then d else d.(tables := d.tables[Uint(id) := d.table])
  {
    hide Uint, Fits, WellFormed, Bytes, Step;
    AckStep(d, ack);
    FitsFirst(ack, []);
  }

  /** One exchange: the table joins what a full last message left behind, and is kept unless it ends full itself. */
  function AfterExchange(d: Dissection, e: Exchange): Dissection
    requires e.table != []
  {
    var table := Carried(d) + e.table;
    Dissection(
      LastLength(e.table), if d.prevLen < 250 then e.table[0] else d.prevTableId, table,
      if LastLength(e.table) == PAYLOAD_MAX || Key(e) in d.tables then d.tables else d.tables[Key(e) := table])
  }

  lemma ExchangeSeen(d: Dissection, e: Exchange)
    requires Proper(e) && Named(d.prevTableId)
    ensures AllFit(Frames(e)) && StepAll(d, Frames(e)) == AfterExchange(d, e)
    ensures Named(AfterExchange(d, e).prevTableId)
  {
    assert Introduces(d, e.table[0]);
    hide Named, Fits, WellFormed, Bytes, Step, Carries, LastLength, Introduces, Acknowledges;
    AllPieces(d, e.items, e.table);
    LastFull(e.table);
    var m := StepAll(d, e.items);
    AckAlone(m, e.ack, e.table[0]);
    StepAllApart(d, e.items, [e.ack]);
  }

  lemma Longer(a: seq<byte>, b: seq<byte>)
    ensures a + b == b <==> a == []
  {
    assert |a + b| == |a| + |b|;
  }

  /** After an exchange the table is kept as it was sent exactly if nothing was carried over and it ends short. */
  lemma KeptAsSent(d: Dissection, e: Exchange)
    requires e.table != [] && Key(e) !in d.tables
    ensures var r := AfterExchange(d, e);
      && (Key(e) in r.tables && r.tables[Key(e)] == e.table <==> Carried(d) == [] && |e.table| % DATA_MAX != 0)
      && (r.prevLen < 250 <==> |e.table| % DATA_MAX != 0)
      && r.table != []
      && (forall id :: id in d.tables ==> id in r.tables && r.tables[id] == d.tables[id])
      && (forall id :: id in r.tables ==> id in d.tables || id == Key(e))
  {
    LastFull(e.table);
    Longer(Carried(d), e.table);
    hide LastLength, Carried;
  }

  /**
   * A table not seen before is rebuilt exactly if its own length and that of the message before it leave the last
   * packet of each short; a table of full packets only is joined to the one that follows.
   */
  lemma RebuiltExactly(d: Dissection, e: Exchange)
    requires Proper(e) && Named(d.prevTableId) && Key(e) !in d.tables
    requires d.prevLen >= 250 ==> d.table != []
    ensures AllFit(Frames(e))
    ensures var r := StepAll(d, Frames(e));
      && (Key(e) in r.tables && r.tables[Key(e)] == e.table <==> d.prevLen < 250 && |e.table| % DATA_MAX != 0)
      && (r.prevLen < 250 <==> |e.table| % DATA_MAX != 0)
      && r.table != []
  {
    hide Fits, WellFormed, Bytes, Step, Carries, Proper, StepAll, Named, AfterExchange;
    ExchangeSeen(d, e);
    KeptAsSent(d, e);
  }

  function AllFrames(exchanges: seq<Exchange>): seq<Item> {
    if exchanges == [] then [] else Frames(exchanges[0]) + AllFrames(exchanges[1..])
  }

  predicate AllProper(exchanges: seq<Exchange>) {
    forall k :: 0 <= k < |exchanges| ==> Proper(exchanges[k])
  }

  predicate Distinct(exchanges: seq<Exchange>)
    requires AllProper(exchanges)
  {
    forall j, k :: 0 <= j < k < |exchanges| ==> Key(exchanges[j]) != Key(exchanges[k])
  }

  lemma NextExchange(d: Dissection, exchanges: seq<Exchange>)
    requires exchanges != [] && AllProper(exchanges) && Named(d.prevTableId) && AllFit(AllFrames(exchanges[1..]))
    ensures AllFit(AllFrames(exchanges)) && Named(AfterExchange(d, exchanges[0]).prevTableId)
    ensures StepAll(d, AllFrames(exchanges)) == StepAll(AfterExchange(d, exchanges[0]), AllFrames(exchanges[1..]))
  {
    hide Fits, WellFormed, Bytes, Step, Proper, Named, Frames, AfterExchange, StepAll, AllFit;
    var e := exchanges[0];
    ExchangeSeen(d, e);
    StepAllApart(d, Frames(e), AllFrames(exchanges[1..]));
  }

  /** Tables already kept stay as they are, and only the ids of the tables sent are added. */
  lemma {:induction false} OnlyTheirOwn(d: Dissection, exchanges: seq<Exchange>)
    requires AllProper(exchanges) && Named(d.prevTableId)
    ensures AllFit(AllFrames(exchanges))
    ensures var tables := StepAll(d, AllFrames(exchanges)).tables;
      && (forall id :: id in d.tables ==> id in tables && tables[id] == d.tables[id])
      && (forall id :: id in tables && id !in d.tables ==> exists k :: 0 <= k < |exchanges| && Key(exchanges[k]) == id)
    decreases |exchanges|
  {
    hide Fits, WellFormed, Bytes, Step, Proper, Named, Frames, StepAll, AllFit, Carried, LastLength, Uint;
    if exchanges == [] {
      NoFrames(d);
    } else {
      var e, rest := exchanges[0], exchanges[1..];
      var f := AfterExchange(d, e);
      ExchangeSeen(d, e);
      OnlyTheirOwn(f, rest);
      NextExchange(d, exchanges);
      var tables := StepAll(d, AllFrames(exchanges)).tables;
      forall id | id in tables && id !in d.tables
        ensures exists k :: 0 <= k < |exchanges| && Key(exchanges[k]) == id
      {
        if id in f.tables {
          assert Key(exchanges[0]) == id;
        } else {
          var k :| 0 <= k < |rest| && Key(rest[k]) == id;
          assert Key(exchanges[k + 1]) == id;
        }
      }
    }
  }

  lemma NoFrames(d: Dissection)
    ensures AllFit([]) && StepAll(d, []) == d
  {
  }

  predicate Kept(tables: map<nat, seq<byte>>, e: Exchange)
    requires e.table != []
  {
    Key(e) in tables && tables[Key(e)] == e.table
  }

  predicate EndsShort(e: Exchange) { |e.table| % DATA_MAX != 0 }

  /**
   * Any number of tables with distinct ids: every one is rebuilt exactly if no length is divisible by 245, so that
   * the length of the manager's last message tells a continuation from a new table.
   */
  lemma {:induction false} TablesRebuilt(d: Dissection, exchanges: seq<Exchange>)
    requires AllProper(exchanges) && Distinct(exchanges) && Named(d.prevTableId) && d.prevLen < 250
    requires forall k :: 0 <= k < |exchanges| ==> Key(exchanges[k]) !in d.tables
    ensures AllFit(AllFrames(exchanges))
    ensures (forall k :: 0 <= k < |exchanges| ==> Kept(StepAll(d, AllFrames(exchanges)).tables, exchanges[k]))
      <==> (forall k :: 0 <= k < |exchanges| ==> EndsShort(exchanges[k]))
    decreases |exchanges|
  {
    hide Fits, WellFormed, Bytes, Step, Proper, Named, Frames, StepAll, AllFit, AfterExchange, Uint, AllFrames;
    OnlyTheirOwn(d, exchanges);
    if exchanges != [] {
      var e, rest := exchanges[0], exchanges[1..];
      var f := AfterExchange(d, e);
      KeptAsSent(d, e);
      ExchangeSeen(d, e);
      OnlyTheirOwn(f, rest);
      NextExchange(d, exchanges);
      var tables := StepAll(d, AllFrames(exchanges)).tables;
      assert forall k :: 0 <= k < |rest| ==> Key(rest[k]) == Key(exchanges[k + 1]) != Key(e);
      assert Kept(tables, e) <==> Kept(f.tables, e);
      if EndsShort(e) {
        TablesRebuilt(f, rest);
        OneAndRest(tables, exchanges);
      } else {
        assert !Kept(tables, exchanges[0]) && !EndsShort(exchanges[0]);
      }
    }
  }

  lemma OneAndRest(tables: map<nat, seq<byte>>, exchanges: seq<Exchange>)
    requires exchanges != [] && AllProper(exchanges)
    ensures (forall k :: 0 <= k < |exchanges| ==> Kept(tables, exchanges[k]))
      <==> Kept(tables, exchanges[0]) && (forall k :: 0 <= k < |exchanges[1..]| ==> Kept(tables, exchanges[1..][k]))
    ensures (forall k :: 0 <= k < |exchanges| ==> EndsShort(exchanges[k]))
      <==> EndsShort(exchanges[0]) && (forall k :: 0 <= k < |exchanges[1..]| ==> EndsShort(exchanges[1..][k]))
  {
    hide EndsShort, Key;
    forall k | 0 < k < |exchanges|
      ensures exchanges[k] == exchanges[1..][k - 1]
    {
    }
  }

  // ------------------------------------------------------------ tables the dissector has no name for

  /** Ids of the double compressed tables 15 and 16, which the manager downloads. */
  const NPA_NXX_TABLE_15: byte := 0xa0
  const NPA_NXX_TABLE_16: byte := 0xa1

  lemma UnnamedPiece(d: Dissection, item: Item, chunk: seq<byte>)
    requires item.tx && 0 < |chunk| <= DATA_MAX && |item.payload| == ID_LENGTH + |chunk| && item.payload[ID_LENGTH..] == chunk
    requires if d.prevLen < 250 then chunk[0] != TABLE_UPD_ACK && !Named(chunk[0]) else !Named(d.prevTableId)
    ensures Fits(item) && WellFormed(Bytes(item))
    ensures Step(d, Bytes(item)) == d.(
      prevLen := |chunk| + ID_LENGTH, prevTableId := if d.prevLen < 250 then chunk[0] else d.prevTableId)
  {
    AnyPieceStep(d, item, chunk);
    AckIsNamed();
    hide Fits, Bytes, WellFormed, Step, SecondByte, Named, Uint;
  }

  /** Pieces of an unnamed table, from the i-th on, move nothing but the length. */
  lemma {:induction false} UnnamedPieces(d: Dissection, items: seq<Item>, table: seq<byte>, i: nat)
    requires Carries(items, table, i) && table != [] && DATA_MAX * (i - 1) < |table|
    requires if i == 0 then d.prevLen < 250 && table[0] != TABLE_UPD_ACK && !Named(table[0])
      else !Named(d.prevTableId) && d.prevLen == LengthAt(table, i - 1)
    ensures AllFit(items)
    ensures StepAll(d, items) == d.(prevLen := LastLength(table), prevTableId := if i == 0 then table[0] else d.prevTableId)
    decreases |items|
  {
    hide Named, Fits, WellFormed, Bytes, Step, Piece, LastLength;
    if i > 0 {
      PieceLength(table, i - 1);
    }
    if items != [] {
      var item := items[0];
      assert items == [item] + items[1..];
      if item.payload == [] {
        QuietStep(d, item);
        UnnamedPieces(d, items[1..], table, i);
      } else {
        PieceLength(table, i);
        FirstByte(d, table);
        UnnamedPiece(d, item, Piece(table, i));
        UnnamedPieces(Step(d, Bytes(item)), items[1..], table, i + 1);
      }
      FitsFirst(item, items[1..]);
    }
  }

  /**
   * A table without a name leaves the assembled bytes alone, so that the table before it is shown under its id, or
   * nothing if the table ends with a full packet.
   */
  lemma UnnamedTable(d: Dissection, e: Exchange)
    requires e.table != [] && e.table[0] != TABLE_UPD_ACK && !Named(e.table[0])
    requires Carries(e.items, e.table, 0) && Acknowledges(e.ack, e.table[0])
    requires d.prevLen < 250 && Key(e) !in d.tables
    ensures AllFit(Frames(e))
    ensures var r := StepAll(d, Frames(e));
      && r.tables == (if EndsShort(e) then d.tables[Key(e) := d.table] else d.tables)
      && r.table == d.table && (r.prevLen < 250 <==> EndsShort(e))
  {
    hide Named, Fits, WellFormed, Bytes, Step, Carries, LastLength, Acknowledges;
    LastFull(e.table);
    UnnamedPieces(d, e.items, e.table, 0);
    var m := StepAll(d, e.items);
    AckAlone(m, e.ack, e.table[0]);
    StepAllApart(d, e.items, [e.ack]);
  }

  /** The message and table ids that the manager knows. */
  predicate ManagerId(id: byte) {
    || 0x01 <= id <= 0x18 || 0x1a <= id <= 0x27 || id == 0x2a || id == 0x2c || 0x31 <= id <= 0x33 || id == 0x35
    || 0x37 <= id <= 0x41 || 0x44 <= id <= 0x56 || 0x5a <= id <= 0x5e || 0x65 <= id <= 0x73 || 0x86 <= id <= 0x98
    || id == NPA_NXX_TABLE_15 || id == NPA_NXX_TABLE_16
  }

  /** Ids for which the dissector has a name although the manager does not know them. */
  predicate SpareId(id: byte) {
    || id == 0x00 || id == 0x19 || id == 0x28 || id == 0x29 || id == 0x2b || 0x2d <= id <= 0x30 || id == 0x34 || id == 0x36
    || id == 0x42 || id == 0x43 || 0x57 <= id <= 0x59 || 0x5f <= id <= 0x64 || id == 0x9a || id == 0x9b
  }

  /** Of the ids that the manager knows, exactly two have no name. */
  lemma TablesWithoutName(id: byte)
    ensures Named(id) <==> SpareId(id) || (ManagerId(id) && id != 0xa0 && id != 0xa1)
    ensures ManagerId(0xa0) && ManagerId(0xa1) && !Named(0xa0) && !Named(0xa1)
  {
  }

  // ------------------------------------------------------------ the frames a transfer writes

  /** The pieces of a transfer under rising sequence numbers, as captured. */
  function PieceItems(table: seq<byte>, i: nat, n: nat, seqNo: byte, id: seq<byte>): (items: seq<Item>)
    requires |id| == ID_LENGTH && (n > 0 ==> DATA_MAX * (i + n - 1) < |table|)
    ensures |items| == n && forall k :: 0 <= k < n ==> |items[k].payload| <= PAYLOAD_MAX
    decreases n
  {
    if n == 0 then [] else
    [Item(true, Sequence(seqNo), id + Piece(table, i))] + PieceItems(table, i + 1, n - 1, seqNo + 1, id)
  }

  function WiresOf(log: seq<Event>): seq<seq<byte>> {
    if log == [] then [] else (if log[0].DataSent? then [log[0].wire] else []) + WiresOf(log[1..])
  }

  function FramesOf(items: seq<Item>): seq<seq<byte>>
    requires forall k :: 0 <= k < |items| ==> |items[k].payload| <= PAYLOAD_MAX
  {
    seq(|items|, k requires 0 <= k < |items| => Frame(items[k].flags, items[k].payload))
  }

  lemma {:induction false} WiresApart(a: seq<Event>, b: seq<Event>)
    ensures WiresOf(a + b) == WiresOf(a) + WiresOf(b)
  {
    if a == [] {
      assert a + b == b;
    } else {
      assert (a + b)[1..] == a[1..] + b;
      WiresApart(a[1..], b);
    }
  }

  lemma OneWire(chunk: seq<byte>, wire: seq<byte>)
    ensures WiresOf([Call(chunk)] + Repeat(DataSent(wire), 1)) == [wire]
  {
    var log := [Call(chunk)] + Repeat(DataSent(wire), 1);
    assert log[1..] == [DataSent(wire)];
    assert WiresOf(log[1..]) == [wire] + WiresOf([DataSent(wire)][1..]);
  }

  predicate Once(tries: seq<nat>) { forall k :: 0 <= k < |tries| ==> tries[k] == 1 }

  /** A transcript without retransmissions writes exactly the frames that carry the table. */
  lemma {:induction false} TranscriptCarries(table: seq<byte>, i: nat, tries: seq<nat>, seqNo: byte, id: seq<byte>)
    requires |id| == ID_LENGTH && Once(tries)
    requires tries != [] ==> DATA_MAX * (i + |tries| - 1) < |table|
    requires DATA_MAX * (i + |tries|) >= |table|
    ensures var items := PieceItems(table, i, |tries|, seqNo, id);
      && Carries(items, table, i)
      && WiresOf(Transcript(table, i, tries, seqNo, id)) == FramesOf(items)
    decreases |tries|
  {
    hide Frame, Sequence, Repeat, Piece;
    if tries != [] {
      var piece := Piece(table, i);
      var wire := DataFrame(seqNo, id, piece);
      var rest := Transcript(table, i + 1, tries[1..], seqNo + 1, id);
      PieceLength(table, i);
      TranscriptCarries(table, i + 1, tries[1..], seqNo + 1, id);
      OneWire(piece, wire);
      WiresApart([Call(piece)] + Repeat(DataSent(wire), 1), rest);
      assert (id + piece)[ID_LENGTH..] == piece;
    }
  }

  lemma {:induction false} RepeatedWires(chunk: seq<byte>, wire: seq<byte>, n: nat)
    ensures |WiresOf(Repeat(DataSent(wire), n))| == n
    ensures |WiresOf([Call(chunk)] + Repeat(DataSent(wire), n))| == n
  {
    if n > 0 {
      RepeatedWires(chunk, wire, n - 1);
      assert Repeat(DataSent(wire), n)[1..] == Repeat(DataSent(wire), n - 1);
    }
    assert ([Call(chunk)] + Repeat(DataSent(wire), n))[1..] == Repeat(DataSent(wire), n);
  }

  /** As many frames as pieces means that nothing was sent twice. */
  lemma {:induction false} CountWires(table: seq<byte>, i: nat, tries: seq<nat>, seqNo: byte, id: seq<byte>)
    requires |id| == ID_LENGTH && (tries != [] ==> DATA_MAX * (i + |tries| - 1) < |table|)
    requires forall k :: 0 <= k < |tries| ==> tries[k] >= 1
    ensures var n := |WiresOf(Transcript(table, i, tries, seqNo, id))|;
      |tries| <= n && (|tries| == n ==> Once(tries))
    decreases |tries|
  {
    hide DataFrame, Repeat, Piece;
    if tries != [] {
      var wire := DataFrame(seqNo, id, Piece(table, i));
      var head := [Call(Piece(table, i))] + Repeat(DataSent(wire), tries[0]);
      CountWires(table, i + 1, tries[1..], seqNo + 1, id);
      RepeatedWires(Piece(table, i), wire, tries[0]);
      WiresApart(head, Transcript(table, i + 1, tries[1..], seqNo + 1, id));
    }
  }

  /** These events put n frames on the line, and those carry the table. */
  predicate CarriedBy(events: seq<Event>, table: seq<byte>, n: nat, seqNo: byte, id: seq<byte>)
    requires |id| == ID_LENGTH
  {
    && (n > 0 ==> DATA_MAX * (n - 1) < |table|)
    && var items := PieceItems(table, 0, n, seqNo, id);
       Carries(items, table, 0) && WiresOf(events) == FramesOf(items)
  }

  /** How many pieces a table has. */
  function PieceCount(table: seq<byte>): nat { (|table| + DATA_MAX - 1) / DATA_MAX }

  lemma PiecesCounted(table: seq<byte>, n: nat)
    requires DATA_MAX * n >= |table| && (n > 0 ==> DATA_MAX * (n - 1) < |table|)
    ensures n == PieceCount(table)
  {
  }

  /**
   * A successful transfer puts at least one frame for each piece on the line; with no more than that, its frames
   * carry the table.
   */
  lemma TransferCarries(l: State, table: seq<byte>) returns (events: seq<Event>)
    requires SendTable(l, table).outcome == Returned(SUCCESS)
    ensures SendTable(l, table).link.log == l.log + events
    ensures PieceCount(table) <= |WiresOf(events)|
    ensures |WiresOf(events)| == PieceCount(table)
      ==> CarriedBy(events, table, PieceCount(table), l.txSeq, EncodeId(l.terminalId))
  {
    hide SendTable, EncodeId, Carries, PieceItems, PieceCount, Confirmed, Announced;
    var tries := TableSegmented(l, table);
    WholeTable(table, |tries|);
    PiecesCounted(table, |tries|);
    events := Transcript(table, 0, tries, l.txSeq, EncodeId(l.terminalId));
    hide Transcript;
    CountWires(table, 0, tries, l.txSeq, EncodeId(l.terminalId));
    if Once(tries) {
      TranscriptCarries(table, 0, tries, l.txSeq, EncodeId(l.terminalId));
    }
  }

  lemma WholeTable(table: seq<byte>, n: nat)
    ensures table[..Min(|table|, DATA_MAX * n)] == table ==> DATA_MAX * n >= |table|
  {
  }

  // ------------------------------------------------------------ a captured transfer, and any number of them

  /** The frames with payload among those captured are these, as a capture shows what the manager sends. */
  predicate Captures(items: seq<Item>, wires: seq<seq<byte>>)
    decreases |items|
  {
    if items == [] then wires == []
    else if items[0].payload == [] then Captures(items[1..], wires)
    else
      && Fits(items[0]) && wires != [] && wires[0] != []
      && Bytes(items[0]) == Shown(true, wires[0]) && Captures(items[1..], wires[1..])
  }

  /** A frame in a capture tells its direction, its flags and its payload. */
  lemma FrameTells(a: Item, b: Item)
    requires Fits(a) && Fits(b) && Bytes(a) == Bytes(b)
    ensures a == b
  {
    Parts(a);
    Parts(b);
    FlagsShown(a);
    FlagsShown(b);
    hide Bytes, WellFormed, FromManager, ChecksumOk;
  }

  lemma FlagsShown(a: Item)
    requires Fits(a)
    ensures |Bytes(a)| > 1 && Bytes(a)[1] == a.flags
  {
    hide Crc16, LengthByte, Lo, Hi;
  }

  lemma PieceItemsStep(table: seq<byte>, i: nat, n: nat, seqNo: byte, id: seq<byte>)
    requires |id| == ID_LENGTH && n > 0 && DATA_MAX * (i + n - 1) < |table|
    ensures var first := Item(true, Sequence(seqNo), id + Piece(table, i));
      var wires := FramesOf(PieceItems(table, i, n, seqNo, id));
      && wires != [] && wires[0] == Frame(first.flags, first.payload) && Fits(first)
      && wires[1..] == FramesOf(PieceItems(table, i + 1, n - 1, seqNo + 1, id))
      && first.payload[ID_LENGTH..] == Piece(table, i)
  {
    hide Frame, Sequence;
    PieceLength(table, i);
  }

  lemma {:induction false} CapturedCarries(items: seq<Item>, table: seq<byte>, i: nat, n: nat, seqNo: byte, id: seq<byte>)
    requires |id| == ID_LENGTH && (n > 0 ==> DATA_MAX * (i + n - 1) < |table|) && DATA_MAX * (i + n) >= |table|
    requires Captures(items, FramesOf(PieceItems(table, i, n, seqNo, id)))
    ensures Carries(items, table, i)
    decreases |items|
  {
    hide Frame, Sequence, Piece, Shown, Fits, PieceItems, FramesOf;
    if items == [] {
      if n > 0 {
        PieceItemsStep(table, i, n, seqNo, id);
      }
    } else if items[0].payload == [] {
      CapturedCarries(items[1..], table, i, n, seqNo, id);
    } else {
      if n == 0 {
        NoFramesOf(table, i, seqNo, id);
      } else {
        PieceItemsStep(table, i, n, seqNo, id);
        FrameTells(items[0], Item(true, Sequence(seqNo), id + Piece(table, i)));
        CapturedCarries(items[1..], table, i + 1, n - 1, seqNo + 1, id);
      }
    }
  }

  lemma NoFramesOf(table: seq<byte>, i: nat, seqNo: byte, id: seq<byte>)
    requires |id| == ID_LENGTH
    ensures FramesOf(PieceItems(table, i, 0, seqNo, id)) == []
  {
  }

  /** A transfer by the manager from some state of the link, what a capture shows of it, and the acknowledgement captured. */
  datatype Sending = Sending(link: State, table: seq<byte>, items: seq<Item>, ack: Item)

  /** The data frames that the transfer wrote. */
  function WiresSent(s: Sending): seq<seq<byte>> {
    var log := SendTable(s.link, s.table).link.log;
    if s.link.log <= log then WiresOf(log[|s.link.log|..]) else []
  }

  /** The transfer of a named table was successful, was captured whole, and was acknowledged. */
  predicate Completed(s: Sending): (sent: bool)
    ensures sent ==> s.table != []
  {
    && s.table != [] && Named(s.table[0]) && s.table[0] != TABLE_UPD_ACK && Acknowledges(s.ack, s.table[0])
    && SendTable(s.link, s.table).outcome == Returned(SUCCESS) && Captures(s.items, WiresSent(s))
  }

  /** Completed at the first attempt of every piece. */
  predicate Transferred(s: Sending): (sent: bool)
    ensures sent ==> s.table != []
  {
    Completed(s) && |WiresSent(s)| == PieceCount(s.table)
  }

  function ExchangeOf(s: Sending): Exchange { Exchange(s.table, s.items, s.ack) }

  lemma TransferredProper(s: Sending)
    requires Transferred(s)
    ensures Proper(ExchangeOf(s))
  {
    hide SendTable, EncodeId, Carries, PieceItems, PieceCount, Captures, Named, Acknowledges, FramesOf, WiresOf;
    var after := SendTable(s.link, s.table);
    var events := TransferCarries(s.link, s.table);
    assert after.link.log[|s.link.log|..] == events;
    CountCovers(s.table);
    CapturedCarries(s.items, s.table, 0, PieceCount(s.table), s.link.txSeq, EncodeId(s.link.terminalId));
  }

  lemma CountCovers(table: seq<byte>)
    ensures DATA_MAX * PieceCount(table) >= |table|
  {
  }

  function ExchangesOf(sendings: seq<Sending>): (exchanges: seq<Exchange>)
    ensures |exchanges| == |sendings| && forall k :: 0 <= k < |sendings| ==> exchanges[k] == ExchangeOf(sendings[k])
  {
    seq(|sendings|, k requires 0 <= k < |sendings| => ExchangeOf(sendings[k]))
  }

  function KeyOf(s: Sending): nat { if s.table == [] then 0 else Uint(s.table[0]) }

  /**
   * The tables that the manager sent, each from any state of the link and at the first attempt, are all rebuilt from
   * the capture exactly if no length is divisible by 245.
   */
  lemma TransfersRebuilt(d: Dissection, sendings: seq<Sending>)
    requires Named(d.prevTableId) && d.prevLen < 250
    requires forall k :: 0 <= k < |sendings| ==> Transferred(sendings[k]) && KeyOf(sendings[k]) !in d.tables
    requires forall j, k :: 0 <= j < k < |sendings| ==> KeyOf(sendings[j]) != KeyOf(sendings[k])
    ensures var frames := AllFrames(ExchangesOf(sendings));
      && AllFit(frames)
      && var tables := StepAll(d, frames).tables;
        (forall k :: 0 <= k < |sendings| ==>
          KeyOf(sendings[k]) in tables && tables[KeyOf(sendings[k])] == sendings[k].table)
        <==> (forall k :: 0 <= k < |sendings| ==> |sendings[k].table| % DATA_MAX != 0)
  {
    hide Transferred, Proper, Named, Uint, AllFit, AllFrames, StepAll;
    var exchanges := ExchangesOf(sendings);
    forall k | 0 <= k < |sendings|
      ensures Proper(exchanges[k])
    {
      TransferredProper(sendings[k]);
    }
    assert forall k :: 0 <= k < |sendings| ==> Key(exchanges[k]) == KeyOf(sendings[k]);
    TablesRebuilt(d, exchanges);
    var tables := StepAll(d, AllFrames(exchanges)).tables;
    assert forall k :: 0 <= k < |sendings| ==>
      (Kept(tables, exchanges[k]) <==> KeyOf(sendings[k]) in tables && tables[KeyOf(sendings[k])] == sendings[k].table);
    assert forall k :: 0 <= k < |sendings| ==> (EndsShort(exchanges[k]) <==> |sendings[k].table| % DATA_MAX != 0);
  }
}
