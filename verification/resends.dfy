/** Transfers with retransmissions as the dissector sees them: when a table is still rebuilt. */
module Resends {
  import opened Crc
  import opened Packets
  import opened Capture
  import opened Link
  import opened Phone
  import opened Transfer
  import opened Wireshark
  import opened Reassembly

  // ------------------------------------------------------------ a piece several times in a row

  /** A frame with data from the manager. */
  predicate IsData(item: Item) { item.tx && ID_LENGTH < |item.payload| <= PAYLOAD_MAX }

  function Chunk(item: Item): (chunk: seq<byte>)
    requires IsData(item)
    ensures 0 < |chunk| <= DATA_MAX
  {
    item.payload[ID_LENGTH..]
  }

  function Run(item: Item, t: nat): (items: seq<Item>)
    ensures |items| == t
  {
    seq(t, _ => item)
  }

  function Copies(chunk: seq<byte>, t: nat): (s: seq<byte>)
    ensures |s| == t * |chunk|
  {
    if t == 0 then [] else chunk + Copies(chunk, t - 1)
  }

  function Seen(d: Dissection, item: Item): Dissection
    requires IsData(item)
  {
    AfterPiece(d, Chunk(item), SecondByte(item))
  }

  function AfterRun(d: Dissection, item: Item, t: nat): Dissection
    requires IsData(item)
    decreases t
  {
    if t == 0 then d else AfterRun(Seen(d, item), item, t - 1)
  }

  lemma RunStep(item: Item, t: nat)
    requires t > 0
    ensures Run(item, t) == [item] + Run(item, t - 1)
  {
  }

  lemma {:induction false} RunSeen(d: Dissection, item: Item, t: nat)
    requires IsData(item)
    ensures AllFit(Run(item, t)) && StepAll(d, Run(item, t)) == AfterRun(d, item, t)
    decreases t
  {
    hide Fits, WellFormed, Bytes, Step, SecondByte, AfterPiece;
    if t > 0 {
      AnyPieceStep(d, item, Chunk(item));
      RunSeen(Seen(d, item), item, t - 1);
      RunStep(item, t);
      FitsFirst(item, Run(item, t - 1));
    }
  }

  /** The table id that a piece is filed under. */
  function IdAt(d: Dissection, item: Item): byte
    requires IsData(item)
  {
    if d.prevLen < 250 then Chunk(item)[0] else d.prevTableId
  }

  /** A piece that is filed under a name, whatever its own first byte. */
  predicate Joins(d: Dissection, item: Item)
    requires IsData(item)
  {
    Named(IdAt(d, item)) && (d.prevLen >= 250 || Chunk(item)[0] != TABLE_UPD_ACK)
  }

  lemma SeenJoins(d: Dissection, item: Item)
    requires IsData(item) && Joins(d, item)
    ensures Seen(d, item) == Dissection(|Chunk(item)| + ID_LENGTH, IdAt(d, item), Carried(d) + Chunk(item), d.tables)
    ensures |Chunk(item)| == DATA_MAX ==> Joins(Seen(d, item), item) && IdAt(Seen(d, item), item) == IdAt(d, item)
  {
    hide Named, Uint, SecondByte, Chunk;
  }

  lemma CopiesStep(before: seq<byte>, chunk: seq<byte>, t: nat)
    ensures before + Copies(chunk, t + 1) == before + chunk + Copies(chunk, t)
    ensures before + Copies(chunk, 0) == before
  {
  }

  /** A full piece is appended each time. */
  lemma {:induction false} FullRun(d: Dissection, item: Item, t: nat)
    requires IsData(item) && |Chunk(item)| == DATA_MAX && Joins(d, item) && t > 0
    ensures AfterRun(d, item, t) == Dissection(PAYLOAD_MAX, IdAt(d, item), Carried(d) + Copies(Chunk(item), t), d.tables)
    decreases t
  {
    hide Joins, IdAt, Seen, IsData, Chunk, Copies;
    SeenJoins(d, item);
    CopiesStep(Carried(d), Chunk(item), t - 1);
    if t == 1 {
      CopiesStep(Carried(d) + Chunk(item), Chunk(item), 0);
    } else {
      FullRun(Seen(d, item), item, t - 1);
    }
  }

  /** What k more of a short piece do to the bytes and to the tables kept. */
  lemma {:induction false} ShortRun(d: Dissection, item: Item, k: nat)
    requires IsData(item) && |Chunk(item)| < DATA_MAX && d.prevLen < 250
    ensures var r, chunk, second := AfterRun(d, item, k), Chunk(item), SecondByte(item);
      && r.prevLen < 250
      && r.table == (
        if chunk[0] == TABLE_UPD_ACK then if Named(second) then d.table + Copies(chunk, k) else d.table
        else if Named(chunk[0]) && k > 0 then chunk else d.table)
      && r.tables == (
        if chunk[0] == TABLE_UPD_ACK && k > 0 && Uint(second) !in d.tables then d.tables[Uint(second) := d.table]
        else d.tables)
    decreases k
  {
    hide Named, Uint, SecondByte;
    var chunk := Chunk(item);
    assert d.table + [] == d.table;
    if k > 0 {
      var once := Seen(d, item);
      ShortRun(once, item, k - 1);
      assert d.table + chunk + Copies(chunk, k - 1) == d.table + Copies(chunk, k);
    }
  }

  // ------------------------------------------------------------ the full pieces of a table

  /** Each piece as often as it was tried. */
  function Repeated(pieces: seq<Item>, tries: seq<nat>): seq<Item>
    requires |pieces| == |tries|
  {
    if pieces == [] then [] else Run(pieces[0], tries[0]) + Repeated(pieces[1..], tries[1..])
  }

  /** These are the pieces of a table from the i-th on. */
  predicate ArePieces(pieces: seq<Item>, table: seq<byte>, i: nat) {
    pieces == [] || (DATA_MAX * i < |table| && IsPiece(pieces[0], table, i) && ArePieces(pieces[1..], table, i + 1))
  }

  lemma PieceIsData(pieces: seq<Item>, table: seq<byte>, i: nat)
    requires pieces != [] && ArePieces(pieces, table, i)
    ensures DATA_MAX * i < |table| && IsData(pieces[0]) && Chunk(pieces[0]) == Piece(table, i)
    ensures ArePieces(pieces[1..], table, i + 1)
    ensures i == 0 ==> Chunk(pieces[0])[0] == table[0]
  {
    PieceLength(table, i);
  }

  lemma {:induction false} LastOfPieces(head: seq<Item>, last: Item, table: seq<byte>, i: nat)
    requires ArePieces(head + [last], table, i)
    ensures ArePieces(head, table, i) && DATA_MAX * (i + |head|) < |table| && IsPiece(last, table, i + |head|)
    decreases |head|
  {
    hide IsPiece;
    var pieces := head + [last];
    if head == [] {
      assert pieces[0] == last;
    } else {
      assert pieces[1..] == head[1..] + [last];
      LastOfPieces(head[1..], last, table, i + 1);
    }
  }

  predicate Tried(tries: seq<nat>) { forall k :: 0 <= k < |tries| ==> tries[k] > 0 }

  lemma TriedStep(tries: seq<nat>)
    requires tries != []
    ensures Tried(tries) <==> tries[0] > 0 && Tried(tries[1..])
    ensures Once(tries) <==> tries[0] == 1 && Once(tries[1..])
  {
    assert forall k :: 0 < k < |tries| ==> tries[k] == tries[1..][k - 1];
  }

  /** What the full pieces of a table leave: exactly those bytes if each was tried once, and more if not. */
  predicate FullSeen(d: Dissection, r: Dissection, id: byte, table: seq<byte>, i: nat, tries: seq<nat>)
    requires DATA_MAX * (i + |tries|) <= |table|
  {
    && r.prevLen == PAYLOAD_MAX && r.prevTableId == id && r.tables == d.tables
    && (Once(tries) ==> r.table == Carried(d) + table[DATA_MAX * i..DATA_MAX * (i + |tries|)])
    && (!Once(tries) ==> |r.table| > |Carried(d)| + DATA_MAX * |tries|)
  }

  lemma OneFull(d: Dissection, e: Dissection, r: Dissection, id: byte, table: seq<byte>, i: nat, t: nat, more: seq<nat>)
    requires DATA_MAX * (i + 1 + |more|) <= |table| && t > 0
    requires e == Dissection(PAYLOAD_MAX, id, Carried(d) + Copies(Piece(table, i), t), d.tables)
    requires if more == [] then r == e else FullSeen(e, r, id, table, i + 1, more)
    ensures FullSeen(d, r, id, table, i, [t] + more)
  {
    var chunk := Piece(table, i);
    assert ([t] + more)[1..] == more;
    TriedStep([t] + more);
    assert |chunk| == DATA_MAX && |Copies(chunk, t)| == t * DATA_MAX;
    if t == 1 {
      assert Copies(chunk, 1) == chunk + Copies(chunk, 0) == chunk;
    }
    assert Carried(e) == e.table;
    assert table[DATA_MAX * i..DATA_MAX * (i + 1)] == chunk;
    SlicesJoin(table, DATA_MAX * i, DATA_MAX * (i + 1), DATA_MAX * (i + 1 + |more|));
    hide Copies, Once, Piece;
  }

  /** The state in which the first of these pieces joins: a new named table, or the middle of one. */
  predicate Ready(d: Dissection, table: seq<byte>, i: nat)
    requires table != []
  {
    if d.prevLen < 250 then i == 0 && Named(table[0]) && table[0] != TABLE_UPD_ACK else Named(d.prevTableId)
  }

  function FiledUnder(d: Dissection, table: seq<byte>): byte
    requires table != []
  {
    if d.prevLen < 250 then table[0] else d.prevTableId
  }

  lemma ReadyJoins(d: Dissection, table: seq<byte>, i: nat, item: Item)
    requires table != [] && Ready(d, table, i) && IsData(item) && (i == 0 ==> Chunk(item)[0] == table[0])
    ensures Joins(d, item) && IdAt(d, item) == FiledUnder(d, table)
  {
    hide Named, Chunk;
  }

  lemma {:induction false} FullPieces(d: Dissection, table: seq<byte>, i: nat, pieces: seq<Item>, tries: seq<nat>)
    requires pieces != [] && |pieces| == |tries| && Tried(tries)
    requires ArePieces(pieces, table, i) && table != [] && DATA_MAX * (i + |pieces|) <= |table| && Ready(d, table, i)
    ensures AllFit(Repeated(pieces, tries))
    ensures FullSeen(d, StepAll(d, Repeated(pieces, tries)), FiledUnder(d, table), table, i, tries)
    decreases |pieces|
  {
    hide ArePieces, IsData, Chunk, Joins, IdAt, Named, AllFit, StepAll, FullSeen, Copies, Seen, Tried, Once;
    var piece, more := pieces[0], Repeated(pieces[1..], tries[1..]);
    PieceIsData(pieces, table, i);
    TriedStep(tries);
    ReadyJoins(d, table, i, piece);
    FullRun(d, piece, tries[0]);
    RunSeen(d, piece, tries[0]);
    var e := AfterRun(d, piece, tries[0]);
    hide AfterRun;
    StepNamed(d, table, i, e);
    if |pieces| == 1 {
      NoFrames(e);
    } else {
      FullPieces(e, table, i + 1, pieces[1..], tries[1..]);
    }
    StepAllApart(d, Run(piece, tries[0]), more);
    OneFull(d, e, StepAll(e, more), FiledUnder(d, table), table, i, tries[0], tries[1..]);
    assert [tries[0]] + tries[1..] == tries;
  }

  lemma StepNamed(d: Dissection, table: seq<byte>, i: nat, e: Dissection)
    requires table != [] && Ready(d, table, i) && e.prevLen == PAYLOAD_MAX && e.prevTableId == FiledUnder(d, table)
    ensures Ready(e, table, i + 1) && FiledUnder(e, table) == FiledUnder(d, table)
  {
    hide Named;
  }

  lemma {:induction false} RepeatedApart(a: seq<Item>, last: Item, tries: seq<nat>, t: nat)
    requires |a| == |tries|
    ensures Repeated(a + [last], tries + [t]) == Repeated(a, tries) + Run(last, t)
    decreases |a|
  {
    if a == [] {
      assert a + [last] == [last] && tries + [t] == [t];
      assert [last][1..] == [] && [t][1..] == [];
    } else {
      assert (a + [last])[1..] == a[1..] + [last] && (tries + [t])[1..] == tries[1..] + [t];
      RepeatedApart(a[1..], last, tries[1..], t);
    }
  }

  // ------------------------------------------------------------ the last piece, and the acknowledgement

  /** When sending a short last piece again changes nothing that counts. */
  predicate LeftAlone(last: Item, id: byte)
    requires IsData(last)
  {
    var c := Chunk(last)[0];
    if c == TABLE_UPD_ACK then SecondByte(last) == id || !Named(SecondByte(last)) else !Named(c)
  }

  /** The table that is kept once the acknowledgement was seen. */
  predicate KeptAfter(r: Dissection, id: byte, table: seq<byte>) {
    if Uint(id) in r.tables then r.tables[Uint(id)] == table else r.prevLen < 250 && r.table == table
  }

  lemma AckKeepsTable(r: Dissection, ack: Item, id: byte, table: seq<byte>)
    requires Acknowledges(ack, id)
    ensures AllFit([ack])
    ensures var tables := StepAll(r, [ack]).tables;
      (Uint(id) in tables && tables[Uint(id)] == table) <==> KeptAfter(r, id, table)
  {
    hide Acknowledges, AllFit, StepAll, Uint;
    AckAlone(r, ack, id);
  }

  lemma UintApart(a: byte, b: byte)
    ensures Uint(a) == Uint(b) <==> a == b
  {
    ByteBack(a);
    ByteBack(b);
  }

  /** A short piece, once and then k more times. */
  lemma ShortSeen(d: Dissection, item: Item, t: nat)
    requires IsData(item) && Joins(d, item) && |Chunk(item)| < DATA_MAX && t > 0
    ensures var once := Carried(d) + Chunk(item);
      var r, chunk, second := AfterRun(d, item, t), Chunk(item), SecondByte(item);
      && r.prevLen < 250
      && r.table == (
        if chunk[0] == TABLE_UPD_ACK then if Named(second) then once + Copies(chunk, t - 1) else once
        else if Named(chunk[0]) && t > 1 then chunk else once)
      && r.tables == (
        if chunk[0] == TABLE_UPD_ACK && t > 1 && Uint(second) !in d.tables then d.tables[Uint(second) := once] else d.tables)
  {
    hide Joins, IdAt, Chunk, Named, Uint, SecondByte, IsData, Seen, Copies;
    SeenJoins(d, item);
    ShortRun(Seen(d, item), item, t - 1);
  }

  /** A table of one short piece. */
  lemma OneShort(d: Dissection, item: Item, t: nat, table: seq<byte>)
    requires IsData(item) && Joins(d, item) && t > 0 && Chunk(item) == table && |table| < DATA_MAX
    requires Named(table[0]) && table[0] != TABLE_UPD_ACK && Uint(table[0]) !in d.tables
    ensures KeptAfter(AfterRun(d, item, t), table[0], table) <==> t > 1 || Carried(d) == []
  {
    hide Joins, IdAt, Chunk, Named, Uint, SecondByte, IsData, AfterRun, Copies, Carried;
    ShortSeen(d, item, t);
    Longer(Carried(d), table);
  }

  lemma MoreCopies(once: seq<byte>, chunk: seq<byte>, k: nat)
    requires chunk != []
    ensures if k == 0 then once + Copies(chunk, k) == once else |once + Copies(chunk, k)| > |once|
  {
    if k > 0 {
      CopiesStep(once, chunk, k - 1);
    } else {
      CopiesStep(once, chunk, 0);
    }
  }

  /** The short last piece of several; whole says whether the pieces before it are there as they were sent. */
  lemma LastShort(e: Dissection, last: Item, t: nat, table: seq<byte>, whole: bool)
    requires IsData(last) && Joins(e, last) && t > 0 && |Chunk(last)| < DATA_MAX && e.prevLen >= 250
    requires |table| > DATA_MAX && Named(table[0]) && Uint(table[0]) !in e.tables
    requires if whole then e.table + Chunk(last) == table else |e.table| + |Chunk(last)| > |table|
    ensures KeptAfter(AfterRun(e, last, t), table[0], table) <==> whole && (t == 1 || LeftAlone(last, table[0]))
  {
    ShortSeen(e, last, t);
    UintApart(SecondByte(last), table[0]);
    hide Joins, IdAt, Chunk, Named, Uint, IsData, AfterRun, Copies, SecondByte;
    var once := e.table + Chunk(last);
    MoreCopies(once, Chunk(last), t - 1);
  }

  /** The pieces of a table, each tried so often, from a state in which the dissector has a name for the last table. */
  predicate SentPieces(d: Dissection, table: seq<byte>, pieces: seq<Item>, tries: seq<nat>) {
    && table != [] && Named(table[0]) && table[0] != TABLE_UPD_ACK && (d.prevLen >= 250 ==> Named(d.prevTableId))
    && pieces != [] && |pieces| == |tries| && Tried(tries) && ArePieces(pieces, table, 0)
    && |table| <= DATA_MAX * |pieces|
  }

  /**
   * When a table survives its retransmissions: nothing was carried over, every full piece was sent once, and the
   * last piece is short and was sent once or starts with a byte that moves nothing; a table of a single short piece
   * sent again replaces whatever was there.
   */
  predicate Survives(d: Dissection, table: seq<byte>, last: Item, tries: seq<nat>)
    requires table != [] && tries != [] && IsData(last)
  {
    var n := |tries| - 1;
    && |table| % DATA_MAX != 0
    && if n == 0 then tries[n] > 1 || Carried(d) == []
      else Carried(d) == [] && Once(tries[..n]) && (tries[n] == 1 || LeftAlone(last, table[0]))
  }

  lemma LastIsData(d: Dissection, table: seq<byte>, pieces: seq<Item>, tries: seq<nat>)
    requires SentPieces(d, table, pieces, tries)
    ensures var n := |pieces| - 1;
      && DATA_MAX * n < |table| && IsData(pieces[n]) && Chunk(pieces[n]) == table[DATA_MAX * n..]
      && (n == 0 ==> Chunk(pieces[n])[0] == table[0])
      && (|table| % DATA_MAX != 0 <==> |table| < DATA_MAX * |pieces|)
      && ArePieces(pieces[..n], table, 0) && Tried(tries[..n])
  {
    hide Named, ArePieces;
    var n := |pieces| - 1;
    assert pieces[..n] + [pieces[n]] == pieces;
    LastOfPieces(pieces[..n], pieces[n], table, 0);
    PieceLength(table, n);
  }

  lemma AllFull(d: Dissection, table: seq<byte>, pieces: seq<Item>, tries: seq<nat>)
    requires SentPieces(d, table, pieces, tries) && |table| == DATA_MAX * |pieces| && Uint(table[0]) !in d.tables
    ensures AllFit(Repeated(pieces, tries))
    ensures !KeptAfter(StepAll(d, Repeated(pieces, tries)), table[0], table)
  {
    hide Named, ArePieces, Tried, AllFit, StepAll, Repeated, Uint;
    FullPieces(d, table, 0, pieces, tries);
  }

  lemma SingleShort(d: Dissection, table: seq<byte>, pieces: seq<Item>, tries: seq<nat>)
    requires SentPieces(d, table, pieces, tries) && |table| < DATA_MAX && |pieces| == 1 && Uint(table[0]) !in d.tables
    ensures AllFit(Repeated(pieces, tries))
    ensures KeptAfter(StepAll(d, Repeated(pieces, tries)), table[0], table) <==> tries[0] > 1 || Carried(d) == []
  {
    LastIsData(d, table, pieces, tries);
    TriedStep(tries);
    OneRepeated(pieces, tries);
    hide Named, ArePieces, Tried, AllFit, StepAll, Repeated, Uint, IsData, Chunk, Carried;
    assert table[DATA_MAX * 0..] == table;
    ReadyJoins(d, table, 0, pieces[0]);
    RunSeen(d, pieces[0], tries[0]);
    OneShort(d, pieces[0], tries[0], table);
  }

  lemma OneRepeated(pieces: seq<Item>, tries: seq<nat>)
    requires |pieces| == |tries| == 1
    ensures Repeated(pieces, tries) == Run(pieces[0], tries[0])
  {
    assert Repeated(pieces[1..], tries[1..]) == [];
  }

  /** The state before the last of several pieces. */
  lemma HeadSeen(d: Dissection, table: seq<byte>, pieces: seq<Item>, tries: seq<nat>)
    requires SentPieces(d, table, pieces, tries) && |pieces| > 1
    ensures var n := |pieces| - 1;
      && IsData(pieces[n]) && AllFit(Repeated(pieces[..n], tries[..n])) && |table| > DATA_MAX
      && var e := StepAll(d, Repeated(pieces[..n], tries[..n]));
        && Joins(e, pieces[n]) && e.prevLen >= 250 && e.tables == d.tables
        && if Carried(d) == [] && Once(tries[..n]) then e.table + Chunk(pieces[n]) == table
          else |e.table| + |Chunk(pieces[n])| > |table|
  {
    var n := |pieces| - 1;
    LastIsData(d, table, pieces, tries);
    hide Named, ArePieces, Tried, AllFit, StepAll, Repeated, Uint, IsData, Chunk, Carried, Once, Joins;
    FullPieces(d, table, 0, pieces[..n], tries[..n]);
    var e := StepAll(d, Repeated(pieces[..n], tries[..n]));
    StepNamed(d, table, 0, e);
    ReadyJoins(e, table, 1, pieces[n]);
    WholeSoFar(d, e, table, n, tries[..n]);
  }

  lemma LastSeen(d: Dissection, pieces: seq<Item>, tries: seq<nat>)
    requires pieces != [] && |pieces| == |tries|
    requires var n := |pieces| - 1; IsData(pieces[n]) && AllFit(Repeated(pieces[..n], tries[..n]))
    ensures AllFit(Repeated(pieces, tries))
    ensures var n := |pieces| - 1;
      StepAll(d, Repeated(pieces, tries)) == AfterRun(StepAll(d, Repeated(pieces[..n], tries[..n])), pieces[n], tries[n])
  {
    hide *;
    var n := |pieces| - 1;
    var head, last, t := Repeated(pieces[..n], tries[..n]), pieces[n], tries[n];
    RunSeen(StepAll(d, head), last, t);
    StepAllApart(d, head, Run(last, t));
    assert pieces[..n] + [last] == pieces && tries[..n] + [t] == tries;
    RepeatedApart(pieces[..n], last, tries[..n], t);
  }

  lemma SeveralShort(d: Dissection, table: seq<byte>, pieces: seq<Item>, tries: seq<nat>)
    requires SentPieces(d, table, pieces, tries) && |table| < DATA_MAX * |pieces| && |pieces| > 1 && Uint(table[0]) !in d.tables
    requires IsData(pieces[|pieces| - 1])
    ensures AllFit(Repeated(pieces, tries))
    ensures var n := |pieces| - 1;
      KeptAfter(StepAll(d, Repeated(pieces, tries)), table[0], table)
      <==> Carried(d) == [] && Once(tries[..n]) && (tries[n] == 1 || LeftAlone(pieces[n], table[0]))
  {
    var n := |pieces| - 1;
    LastIsData(d, table, pieces, tries);
    assert tries[n] > 0 && Named(table[0]);
    hide Named, ArePieces, Tried, AllFit, StepAll, Repeated, Uint, IsData, Chunk, Carried, LeftAlone, Once, KeptAfter, Joins,
      SentPieces, AfterRun;
    HeadSeen(d, table, pieces, tries);
    LastSeen(d, pieces, tries);
    var e := StepAll(d, Repeated(pieces[..n], tries[..n]));
    LastShort(e, pieces[n], tries[n], table, Carried(d) == [] && Once(tries[..n]));
  }

  lemma WholeSoFar(d: Dissection, e: Dissection, table: seq<byte>, n: nat, tries: seq<nat>)
    requires n == |tries| && n > 0 && DATA_MAX * n <= |table| && FullSeen(d, e, FiledUnder(d, table), table, 0, tries)
    ensures if Carried(d) == [] && Once(tries) then e.table + table[DATA_MAX * n..] == table
      else |e.table| + |table[DATA_MAX * n..]| > |table|
  {
    hide Once, Carried, FiledUnder;
    if Once(tries) {
      assert |e.table| == |Carried(d)| + DATA_MAX * n;
      assert Carried(d) == [] ==> e.table == table[..DATA_MAX * n];
    }
  }

  /** The exact condition under which a table sent with retransmissions is kept as it was sent. */
  lemma KeptExactly(d: Dissection, table: seq<byte>, pieces: seq<Item>, tries: seq<nat>, ack: Item)
    requires SentPieces(d, table, pieces, tries) && Uint(table[0]) !in d.tables && Acknowledges(ack, table[0])
    ensures IsData(pieces[|pieces| - 1])
    ensures var items := Repeated(pieces, tries) + [ack];
      && AllFit(items)
      && var tables := StepAll(d, items).tables;
        (Uint(table[0]) in tables && tables[Uint(table[0])] == table)
        <==> Survives(d, table, pieces[|pieces| - 1], tries)
  {
    LastIsData(d, table, pieces, tries);
    hide Named, ArePieces, Tried, AllFit, StepAll, Repeated, Uint, IsData, Chunk, Carried, LeftAlone, Once, KeptAfter, Acknowledges;
    if |table| == DATA_MAX * |pieces| {
      AllFull(d, table, pieces, tries);
    } else if |pieces| == 1 {
      SingleShort(d, table, pieces, tries);
    } else {
      SeveralShort(d, table, pieces, tries);
    }
    var r := StepAll(d, Repeated(pieces, tries));
    AckKeepsTable(r, ack, table[0], table);
    StepAllApart(d, Repeated(pieces, tries), [ack]);
  }

  // ------------------------------------------------------------ what a capture shows of a transfer with retransmissions

  /** The frames with payload. */
  function Loud(items: seq<Item>): seq<Item> {
    if items == [] then [] else (if items[0].payload == [] then [] else [items[0]]) + Loud(items[1..])
  }

  lemma {:induction false} LoudOnly(d: Dissection, items: seq<Item>)
    requires AllFit(Loud(items))
    ensures AllFit(items) && StepAll(d, items) == StepAll(d, Loud(items))
    decreases |items|
  {
    hide Fits, WellFormed, Bytes, Step;
    if items != [] {
      var item, rest := items[0], items[1..];
      assert items == [item] + rest;
      if item.payload == [] {
        assert Loud(items) == Loud(rest);
        QuietStep(d, item);
        LoudOnly(d, rest);
      } else {
        assert Loud(items) == [item] + Loud(rest);
        assert Loud(items)[0] == item && Loud(items)[1..] == Loud(rest);
        LoudOnly(Step(d, Bytes(item)), rest);
      }
      FitsFirst(item, rest);
    }
  }

  predicate AllData(items: seq<Item>) { forall k :: 0 <= k < |items| ==> IsData(items[k]) }

  lemma DataApart(a: seq<Item>, b: seq<Item>)
    requires AllData(a) && AllData(b)
    ensures AllData(a + b) && FramesOf(a + b) == FramesOf(a) + FramesOf(b)
  {
    hide Frame;
  }

  /** What a capture shows with payload is what was sent. */
  lemma {:induction false} CapturedLoud(items: seq<Item>, sent: seq<Item>)
    requires AllData(sent) && Captures(items, FramesOf(sent))
    ensures Loud(items) == sent
    decreases |items|
  {
    hide Frame, Shown, Fits;
    if items != [] && items[0].payload == [] {
      CapturedLoud(items[1..], sent);
    } else if items != [] {
      FirstCaptured(items, sent);
      CapturedLoud(items[1..], sent[1..]);
    }
  }

  lemma FirstCaptured(items: seq<Item>, sent: seq<Item>)
    requires items != [] && items[0].payload != [] && AllData(sent) && Captures(items, FramesOf(sent))
    ensures sent != [] && items[0] == sent[0] && AllData(sent[1..]) && Captures(items[1..], FramesOf(sent[1..]))
  {
    hide Frame, Shown;
    assert FramesOf(sent)[1..] == FramesOf(sent[1..]);
    FrameTells(items[0], sent[0]);
  }

  lemma {:induction false} RepeatWires(item: Item, t: nat)
    requires IsData(item)
    ensures WiresOf(Repeat(DataSent(Frame(item.flags, item.payload)), t)) == FramesOf(Run(item, t))
    decreases t
  {
    hide Frame;
    var e := DataSent(Frame(item.flags, item.payload));
    if t > 0 {
      RepeatWires(item, t - 1);
      assert Repeat(e, t)[1..] == Repeat(e, t - 1);
      assert FramesOf(Run(item, t)) == [e.wire] + FramesOf(Run(item, t - 1));
    }
  }

  /** The same packet t times, once announced. */
  lemma RunWires(chunk: seq<byte>, item: Item, t: nat)
    requires IsData(item)
    ensures WiresOf([Call(chunk)] + Repeat(DataSent(Frame(item.flags, item.payload)), t)) == FramesOf(Run(item, t))
  {
    RepeatWires(item, t);
    hide Frame, IsData, FramesOf;
    var e := DataSent(Frame(item.flags, item.payload));
    assert ([Call(chunk)] + Repeat(e, t))[1..] == Repeat(e, t);
  }

  /** A transcript puts each piece on the line as often as it was tried. */
  lemma {:induction false} TranscriptRepeats(table: seq<byte>, i: nat, tries: seq<nat>, seqNo: byte, id: seq<byte>)
    requires |id| == ID_LENGTH && (tries != [] ==> DATA_MAX * (i + |tries| - 1) < |table|)
    ensures var pieces := PieceItems(table, i, |tries|, seqNo, id);
      && ArePieces(pieces, table, i) && AllData(Repeated(pieces, tries))
      && WiresOf(Transcript(table, i, tries, seqNo, id)) == FramesOf(Repeated(pieces, tries))
    decreases |tries|
  {
    hide Frame, Sequence, Repeat, Piece, Run, AllData, FramesOf, IsPiece, IsData;
    if tries == [] {
      NothingSent();
    } else {
      var first := Item(true, Sequence(seqNo), id + Piece(table, i));
      var rest := PieceItems(table, i + 1, |tries| - 1, seqNo + 1, id);
      var pieces := PieceItems(table, i, |tries|, seqNo, id);
      assert pieces == [first] + rest && pieces[1..] == rest;
      TranscriptRepeats(table, i + 1, tries[1..], seqNo + 1, id);
      FirstPiece(table, i, first, id);
      RunData(first, tries[0]);
      RunWires(Piece(table, i), first, tries[0]);
      WiresApart([Call(Piece(table, i))] + Repeat(DataSent(Frame(first.flags, first.payload)), tries[0]),
                 Transcript(table, i + 1, tries[1..], seqNo + 1, id));
      DataApart(Run(first, tries[0]), Repeated(rest, tries[1..]));
    }
  }

  lemma NothingSent()
    ensures AllData([]) && FramesOf([]) == []
  {
  }

  lemma FirstPiece(table: seq<byte>, i: nat, item: Item, id: seq<byte>)
    requires |id| == ID_LENGTH && DATA_MAX * i < |table| && item.tx && item.payload == id + Piece(table, i)
    ensures IsPiece(item, table, i) && IsData(item)
  {
    PieceLength(table, i);
    assert (id + Piece(table, i))[ID_LENGTH..] == Piece(table, i);
  }

  lemma RunData(item: Item, t: nat)
    requires IsData(item)
    ensures AllData(Run(item, t))
  {
  }

  /** The pieces of a transfer as a capture shows them. */
  function PiecesOf(s: Sending, n: nat): (pieces: seq<Item>)
    requires n > 0 ==> DATA_MAX * (n - 1) < |s.table|
    ensures |pieces| == n
  {
    PieceItems(s.table, 0, n, s.link.txSeq, EncodeId(s.link.terminalId))
  }

  /** Every piece once or more often: the transcript of a completed transfer, and the capture of it. */
  predicate WrittenAs(s: Sending, tries: seq<nat>) {
    && tries != [] && DATA_MAX * (|tries| - 1) < |s.table| <= DATA_MAX * |tries|
    && (forall k :: 0 <= k < |tries| ==> 1 <= tries[k] <= MAX_RETRIES)
    && SendTable(s.link, s.table).link.log
      == s.link.log + Transcript(s.table, 0, tries, s.link.txSeq, EncodeId(s.link.terminalId))
    && Loud(s.items) == Repeated(PiecesOf(s, |tries|), tries)
  }

  lemma CompletedWritten(s: Sending) returns (tries: seq<nat>)
    requires Completed(s)
    ensures WrittenAs(s, tries) && ArePieces(PiecesOf(s, |tries|), s.table, 0)
  {
    hide SendTable, EncodeId, Captures, Named, Acknowledges, FramesOf, WiresOf, PieceItems, Confirmed, Announced, Repeated,
      Loud, ArePieces, AllData;
    var id := EncodeId(s.link.terminalId);
    tries := TableSegmented(s.link, s.table);
    WholeTable(s.table, |tries|);
    var events := Transcript(s.table, 0, tries, s.link.txSeq, id);
    hide Transcript;
    assert SendTable(s.link, s.table).link.log[|s.link.log|..] == events;
    TranscriptRepeats(s.table, 0, tries, s.link.txSeq, id);
    CapturedLoud(s.items, Repeated(PiecesOf(s, |tries|), tries));
  }

  lemma CompletedSent(d: Dissection, s: Sending, tries: seq<nat>)
    requires Completed(s) && WrittenAs(s, tries) && ArePieces(PiecesOf(s, |tries|), s.table, 0)
    requires d.prevLen >= 250 ==> Named(d.prevTableId)
    ensures SentPieces(d, s.table, PiecesOf(s, |tries|), tries) && Acknowledges(s.ack, s.table[0])
  {
    hide SendTable, EncodeId, Captures, Named, Acknowledges, PieceItems, Repeated, Loud, ArePieces, Transcript, WiresSent;
  }

  lemma AckedAlike(d: Dissection, items: seq<Item>, ack: Item)
    requires AllFit(Loud(items) + [ack])
    ensures AllFit(items + [ack]) && StepAll(d, items + [ack]) == StepAll(d, Loud(items) + [ack])
  {
    hide Fits, WellFormed, Bytes, Step, StepAll, Loud;
    var loud := Loud(items);
    assert forall k :: 0 <= k < |loud| ==> (loud + [ack])[k] == loud[k];
    assert (loud + [ack])[|loud|] == ack;
    LoudOnly(d, items);
    StepAllApart(d, items, [ack]);
    StepAllApart(d, loud, [ack]);
  }

  /**
   * Any successful transfer of a named table, whatever its retransmissions, captured whole and acknowledged: its
   * pieces were written so many times each, and the table is kept as it was sent exactly if it survives that.
   */
  lemma ResendsRebuilt(d: Dissection, s: Sending) returns (tries: seq<nat>)
    requires Completed(s) && Uint(s.table[0]) !in d.tables && (d.prevLen >= 250 ==> Named(d.prevTableId))
    ensures WrittenAs(s, tries)
    ensures var last := PiecesOf(s, |tries|)[|tries| - 1];
      && IsData(last) && AllFit(s.items + [s.ack])
      && var tables := StepAll(d, s.items + [s.ack]).tables;
        (Uint(s.table[0]) in tables && tables[Uint(s.table[0])] == s.table) <==> Survives(d, s.table, last, tries)
  {
    tries := CompletedWritten(s);
    CompletedSent(d, s, tries);
    hide Completed, Named, Uint, AllFit, StepAll, Repeated, Loud, PiecesOf, IsData, Survives, Transcript, SendTable, EncodeId,
      SentPieces, ArePieces, Acknowledges;
    KeptExactly(d, s.table, PiecesOf(s, |tries|), tries, s.ack);
    AckedAlike(d, s.items, s.ack);
  }
}
