/** The dissector's own checksum over captured bytes, in 32-bit words. */
module LuaChecksum {
  import opened Crc
  import opened Capture

  function Widen(c: bv16): bv32 { c as bv32 }

  function WideXor(c: bv32, d: bv32): bv32 { c ^ d }

  function WideHalf(c: bv32): bv32 { c >> 1 }

  predicate WideEven(c: bv32) { c & 1 == 0 }

  function WideShift(c: bv32): bv32 {
    if WideEven(c) then WideHalf(c) else WideXor(WideHalf(c), 0xA001)
  }

  function WideShiftN(c: bv32, n: nat): bv32
    decreases n
  {
    if n == 0 then c else WideShiftN(WideShift(c), n - 1)
  }

  function SumFrom(sum: bv32, s: seq<byte>): bv32
    decreases |s|
  {
    if s == [] then sum else SumFrom(WideShiftN(WideXor(sum, s[0] as bv32), 8), s[1..])
  }

  /** The pseudo-direction bit of the first byte does not take part. */
  function LuaCrc(data: seq<byte>): bv32 {
    if data == [] then 0 else SumFrom(0, [Unmarked(data[0])] + data[1..])
  }

  method ShiftEight(sum: bv32) returns (r: bv32)
    ensures r == WideShiftN(sum, 8)
  {
    hide WideEven, WideHalf, WideXor;
    r := sum;
    for i := 0 to 8
      invariant WideShiftN(r, 8 - i) == WideShiftN(sum, 8)
    {
      r := if WideEven(r) then WideHalf(r) else WideXor(WideHalf(r), 0xA001);
    }
  }

  method ComputeLuaCrc(data: seq<byte>) returns (sum: bv32)
    ensures sum == LuaCrc(data)
  {
    hide WideShiftN, WideXor, Unmarked;
    sum := 0;
    ghost var masked := if data == [] then [] else [Unmarked(data[0])] + data[1..];
    for i := 0 to |data|
      invariant SumFrom(sum, masked[i..]) == LuaCrc(data)
    {
      var d := data[i];
      if i == 0 {
        d := Unmarked(d);
      }
      assert d == masked[i] && masked[i..][1..] == masked[i + 1..];
      sum := ShiftEight(WideXor(sum, d as bv32));
    }
  }

  // Each side in plain words first: the solver then has no functions to unfold beside the shift.

  lemma HalfOfWide(c: bv16)
    ensures WideHalf(Widen(c)) == (c as bv32) >> 1
  {
  }

  lemma WideOfHalf(c: bv16)
    ensures Widen(Half(c)) == (c >> 1) as bv32
  {
  }

  lemma HalvesAgree(c: bv16)
    ensures (c as bv32) >> 1 == (c >> 1) as bv32
  {
  }

  lemma WidenHalf(c: bv16)
    ensures WideHalf(Widen(c)) == Widen(Half(c))
  {
    hide *;
    HalfOfWide(c);
    WideOfHalf(c);
    HalvesAgree(c);
  }

  lemma WidenLow(c: bv16)
    ensures WideEven(Widen(c)) == !Low(c)
  {
  }

  lemma WidenPlus(c: bv16, d: bv16)
    ensures WideXor(Widen(c), Widen(d)) == Widen(Plus(c, d))
  {
  }

  lemma WidenPoly()
    ensures Widen(POLY) == 0xA001
  {
  }

  lemma WideStep(c: bv16)
    ensures WideShift(Widen(c)) == Widen(Shift(c))
  {
    WidenPoly();
    hide Widen, WideXor, WideHalf, WideEven, Plus, Half, Low, POLY;
    WidenHalf(c);
    WidenLow(c);
    WidenPlus(Half(c), POLY);
  }

  lemma {:induction false} WideSteps(c: bv16, n: nat)
    ensures WideShiftN(Widen(c), n) == Widen(ShiftN(c, n))
    decreases n
  {
    hide Widen, WideShift, Shift;
    if n > 0 {
      WideStep(c);
      WideSteps(Shift(c), n - 1);
    }
  }

  lemma WideByte(c: bv16, b: byte)
    ensures WideXor(Widen(c), b as bv32) == Widen(Plus(c, b as bv16))
  {
    assert Widen(b as bv16) == b as bv32;
    hide Widen, WideXor, Plus;
    WidenPlus(c, b as bv16);
  }

  lemma {:induction false} SumFromIsCrc(c: bv16, s: seq<byte>)
    ensures SumFrom(Widen(c), s) == Widen(Crc16(c, s))
    decreases |s|
  {
    hide Widen, WideXor, WideShiftN, ShiftN, Plus;
    if s != [] {
      WideByte(c, s[0]);
      WideSteps(Plus(c, s[0] as bv16), 8);
      SumFromIsCrc(Absorb(c, s[0]), s[1..]);
    }
  }

  /** On every byte string the two checksums agree, the first byte taken without its direction bit. */
  lemma LuaCrcIsCrc16(data: seq<byte>)
    requires data != []
    ensures LuaCrc(data) == Widen(Crc16(0, [Unmarked(data[0])] + data[1..]))
  {
    ZeroWide();
    hide Widen, SumFrom;
    SumFromIsCrc(0, [Unmarked(data[0])] + data[1..]);
  }

  lemma ZeroWide()
    ensures Widen(0) == 0
  {
  }

}

/** The dissector's reassembly of tables from the fragments it sees. */
module Wireshark {
  import opened Crc
  import opened Packets
  import opened LuaChecksum

  // ------------------------------------------------------------ one captured frame

  /** A little-endian word of the trailer. */
  function Le(lo: byte, hi: byte): bv32 { (lo as bv32) | ((hi as bv32) << 8) }

  const MANAGER_START: byte := 0x82

  predicate FromManager(start: byte) { start == MANAGER_START }

  /** As long as its length byte says, without payload or with a terminal id. */
  predicate WellFormed(f: seq<byte>) {
    |f| >= 6 && |f| == Uint(f[2]) + 1 && (|f| == 6 || |f| >= 11)
  }

  /** Whether the names table has this id. */
  predicate Named(id: byte) { id <= 115 || 134 <= id <= 152 || id == 154 || id == 155 }

  /** Reassembly state; a table of which the acknowledgement was seen is kept under its id. */
  datatype Dissection = Dissection(prevLen: nat, prevTableId: byte, table: seq<byte>, tables: map<nat, seq<byte>>)

  function Initial(): Dissection { Dissection(0, 0, [], map[]) }

  predicate ChecksumOk(f: seq<byte>)
    requires WellFormed(f)
  {
    LuaCrc(f[..|f| - 3]) == Le(f[|f| - 3], f[|f| - 2])
  }

  /** The length and table id of the manager's messages are remembered for the frames that follow. */
  function Noted(d: Dissection, f: seq<byte>): Dissection
    requires WellFormed(f) && |f| > 6
  {
    if !FromManager(f[0]) then d
    else d.(prevLen := |f| - 6, prevTableId := if d.prevLen < 250 then f[8] else d.prevTableId)
  }

  /** What a message means after a message of this length and table id; false if a name is missing. */
  function Recognised(d: Dissection, prevLen: nat, prevTableId: byte, id: byte, ackId: byte): (Dissection, bool) {
    if prevLen >= 250 then (d, Named(prevTableId))
    else if id == TABLE_UPD_ACK then
      (if Uint(ackId) in d.tables then d else d.(tables := d.tables[Uint(ackId) := d.table]), Named(ackId))
    else if Named(id) then (d.(table := []), true)
    else (d, false)
  }

  /** The first look at a frame; a name that is missing ends the dissection of this frame. */
  function Step(d: Dissection, f: seq<byte>): Dissection
    requires WellFormed(f)
  {
    if |f| == 6 then d else
    var (r, named) := Recognised(Noted(d, f), d.prevLen, d.prevTableId, f[8], f[9]);
    if named then Appended(r, f, FromManager(f[0])) else r
  }

  /** The data of an intact frame of the manager is appended. */
  function Appended(d: Dissection, f: seq<byte>, manager: bool): Dissection
    requires WellFormed(f) && (manager ==> |f| >= 11)
  {
    if manager && ChecksumOk(f) then d.(table := d.table + f[8..|f| - 3]) else d
  }

  lemma NothingAppended(d: Dissection, f: seq<byte>)
    requires WellFormed(f)
    ensures Appended(d, f, false) == d
  {
  }

  class Dissector {
    var prevLen: nat
    var prevTableId: byte
    var tableBytes: seq<byte>
    var tableArray: map<nat, seq<byte>>

    ghost function State(): Dissection
      reads this
    {
      Dissection(prevLen, prevTableId, tableBytes, tableArray)
    }

    constructor ()
      ensures State() == Initial()
    {
      prevLen, prevTableId, tableBytes, tableArray := 0, 0, [], map[];
    }

    /** The last part of a dissection: an intact fragment joins the table being assembled. */
    method AddFragment(buffer: seq<byte>, concatFrag: bool)
      requires WellFormed(buffer) && (concatFrag ==> |buffer| >= 11)
      modifies this`tableBytes
      ensures State() == Appended(old(State()), buffer, concatFrag)
    {
      hide LuaCrc, Le, Uint;
      var crclen := Uint(buffer[2]) - 2;
      var packetCrc := Le(buffer[crclen], buffer[crclen + 1]);
      var calculated := ComputeLuaCrc(buffer[..crclen]);
      if calculated == packetCrc && concatFrag {
        tableBytes := tableBytes + buffer[8..8 + (|buffer| - 6 - 5)];
      }
    }

    /** The information column: continuation, acknowledgement or table name. */
    method Recognise(fragPrevLen: nat, fragPrevId: byte, tableId: byte, ackId: byte) returns (named: bool)
      modifies this`tableBytes, this`tableArray
      ensures (State(), named) == Recognised(old(State()), fragPrevLen, fragPrevId, tableId, ackId)
    {
      hide Named;
      if fragPrevLen < 250 {
        if tableId == TABLE_UPD_ACK {
          if Uint(ackId) !in tableArray {
            tableArray := tableArray[Uint(ackId) := tableBytes];
          }
          named := Named(ackId);
        } else {
          named := Named(tableId);
          if named {
            tableBytes := [];
          }
        }
      } else {
        named := Named(fragPrevId);
      }
    }

    method Dissect(buffer: seq<byte>)
      requires WellFormed(buffer)
      modifies this
      ensures State() == Step(old(State()), buffer)
    {
      hide ChecksumOk, Recognised, Uint, FromManager, Appended;
      var direction := if FromManager(buffer[0]) then 0 else 1;
      var totlen := Uint(buffer[2]);
      var datalen := totlen - 5;
      var fragPrevLen, fragPrevId := prevLen, prevTableId;
      var concatFrag := direction == 0 && datalen > 0;
      if concatFrag {
        prevLen := datalen;
      }
      NothingAppended(State(), buffer);
      var named := true;
      if datalen > 0 {
        var tableId := buffer[8];
        if direction == 0 && fragPrevLen < 250 {
          prevTableId := tableId;
        }
        assert State() == Noted(old(State()), buffer);
        named := Recognise(fragPrevLen, fragPrevId, tableId, buffer[9]);
      }
      if named {
        AddFragment(buffer, concatFrag);
      }
    }
  }
}
