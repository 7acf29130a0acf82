/** Local call determination tables: one, two or four flags to a byte, and the dump program that reads them back. */
module Lcd {
  import opened Basics
  import opened Crc
  import opened Packets
  import opened Phone

  /** The exchanges of an area code a table covers: 200 to 999. */
  const FIRST: nat := 200
  const LIMIT: nat := 1000
  /** What is entered for an exchange that is not listed. */
  const NOT_LISTED: byte := 3

  datatype Exchange = Exchange(npa: nat, nxx: nat)

  function FlagOf(npanxx: map<Exchange, byte>, npa: nat, nxx: nat): byte {
    if Exchange(npa, nxx) in npanxx then npanxx[Exchange(npa, nxx)] else NOT_LISTED
  }

  /** Flags of an area code, by exchange. */
  function Flags(npanxx: map<Exchange, byte>, npa: nat): (f: seq<byte>)
    ensures |f| == 800
  {
    seq(800, k requires 0 <= k < 800 => FlagOf(npanxx, npa, FIRST + k))
  }

  // ------------------------------------------------------------ packing

  /** Flags to a byte. */
  type Density = w: nat | w == 1 || w == 2 || w == 4 witness 1

  function Shift4(st: bv16): bv16 { st << 4 }

  function Shift2(st: bv16): bv16 { st << 2 }

  function Add(st: bv16, flag: byte): bv16 { st | (flag as bv16) }

  predicate FitsByte(st: bv16) { st <= 0xFF }

  function ToByte(st: bv16): byte { (st & 0xFF) as byte }

  function Push(w: Density, st: bv16, flag: byte): bv16 {
    if w == 1 then Add(0, flag) else if w == 2 then Add(Shift4(st), flag) else Add(Shift2(st), flag)
  }

  /** The bytes from position i on, with st of the current byte collected; a value above 255 cannot be stored. */
  function PackFrom(w: Density, st: bv16, flags: seq<byte>, i: nat): Option<seq<byte>>
    requires i <= |flags|
    decreases |flags| - i
  {
    if i == |flags| then Some([]) else
    var next := Push(w, st, flags[i]);
    if i % w < w - 1 then PackFrom(w, next, flags, i + 1)
    else if !FitsByte(next) then None
    else match PackFrom(w, 0, flags, i + 1)
      case None => None
      case Some(rest) => Some([ToByte(next)] + rest)
  }

  function Pack(w: Density, flags: seq<byte>): Option<seq<byte>> { PackFrom(w, 0, flags, 0) }

  /** What a flag must stay below to leave room for the others of its byte. */
  predicate InRange(w: Density, flag: byte) {
    w == 1 || (w == 2 && flag < 16) || (w == 4 && flag < 4)
  }

  // ------------------------------------------------------------ unpacking

  function Masked(c: byte, mask: byte, shift: nat): byte
    requires shift <= 8
  {
    (c & mask) >> shift
  }

  /** The k-th flag of a byte: mask and shift as the dump program sets them. */
  function Unpack(w: Density, c: byte, k: nat): byte
    requires k < w
  {
    if w == 1 then Masked(c, 0xFF, 0)
    else if w == 2 then if k == 0 then Masked(c, 0xF0, 4) else Masked(c, 0x0F, 0)
    else Masked(c, TwoBits(k), 6 - k * 2)
  }

  function TwoBits(k: nat): byte
    requires k < 4
  {
    0xC0 >> (k * 2)
  }

  lemma UnpackInRange(w: Density, c: byte, k: nat)
    requires k < w
    ensures InRange(w, Unpack(w, c, k))
  {
    if w == 4 {
      FourMasks(c);
    }
  }

  lemma FourMasks(c: byte)
    ensures Masked(c, TwoBits(0), 6) < 4 && Masked(c, TwoBits(1), 4) < 4
    ensures Masked(c, TwoBits(2), 2) < 4 && Masked(c, TwoBits(3), 0) < 4
  {
    assert TwoBits(0) == 0xC0 && TwoBits(1) == 0x30 && TwoBits(2) == 0x0C && TwoBits(3) == 0x03;
  }

  lemma PackTwo(f: byte, g: byte)
    requires f < 16 && g < 16
    ensures var st := Add(Shift4(Add(Shift4(0), f)), g);
      FitsByte(st) && Masked(ToByte(st), 0xF0, 4) == f && Masked(ToByte(st), 0x0F, 0) == g
  {
  }

  lemma PackFour(f: byte, g: byte, h: byte, i: byte)
    requires f < 4 && g < 4 && h < 4 && i < 4
    ensures var st := Add(Shift2(Add(Shift2(Add(Shift2(Add(Shift2(0), f)), g)), h)), i);
      && FitsByte(st)
      && Masked(ToByte(st), 0xC0, 6) == f && Masked(ToByte(st), 0x30, 4) == g
      && Masked(ToByte(st), 0x0C, 2) == h && Masked(ToByte(st), 0x03, 0) == i
  {
  }

  lemma PackOne(f: byte)
    ensures FitsByte(Add(0, f)) && Masked(ToByte(Add(0, f)), 0xFF, 0) == f
  {
  }

  predicate AllInRange(w: Density, flags: seq<byte>) { forall k :: 0 <= k < |flags| ==> InRange(w, flags[k]) }

  function Push2(f: byte, g: byte): bv16 { Push(2, Push(2, 0, f), g) }

  function Push4(f: byte, g: byte, h: byte, i: byte): bv16 { Push(4, Push(4, Push(4, Push(4, 0, f), g), h), i) }

  lemma StoredTwo(f: byte, g: byte)
    requires InRange(2, f) && InRange(2, g)
    ensures FitsByte(Push2(f, g))
    ensures Unpack(2, ToByte(Push2(f, g)), 0) == f && Unpack(2, ToByte(Push2(f, g)), 1) == g
  {
    PackTwo(f, g);
  }

  lemma StoredFour(f: byte, g: byte, h: byte, i: byte)
    requires InRange(4, f) && InRange(4, g) && InRange(4, h) && InRange(4, i)
    ensures var c := ToByte(Push4(f, g, h, i));
      && FitsByte(Push4(f, g, h, i))
      && Unpack(4, c, 0) == f && Unpack(4, c, 1) == g && Unpack(4, c, 2) == h && Unpack(4, c, 3) == i
  {
    FourMaskValues();
    PackFour(f, g, h, i);
    hide Shift2, Add, FitsByte, ToByte, Masked, TwoBits;
  }

  lemma FourMaskValues()
    ensures TwoBits(0) == 0xC0 && TwoBits(1) == 0x30 && TwoBits(2) == 0x0C && TwoBits(3) == 0x03
  {
  }

  /** One byte of flags: stored and read back. */
  lemma OneGroup(w: Density, flags: seq<byte>, i: nat) returns (c: byte)
    requires AllInRange(w, flags) && i % w == 0 && i + w <= |flags|
    ensures var rest := PackFrom(w, 0, flags, i + w);
      PackFrom(w, 0, flags, i) == if rest == None then None else Some([c] + rest.value)
    ensures forall k :: 0 <= k < w ==> Unpack(w, c, k) == flags[i + k]
  {
    if w == 1 {
      c := ToByte(Add(0, flags[i]));
      PackOne(flags[i]);
      hide Add, FitsByte, ToByte, Masked;
    } else {
      hide Push2, Push4, FitsByte, ToByte, Unpack, InRange, PackFrom;
      if w == 2 {
        c := ToByte(Push2(flags[i], flags[i + 1]));
        StoredTwo(flags[i], flags[i + 1]);
        TwoFlags(flags, i);
      } else {
        c := ToByte(Push4(flags[i], flags[i + 1], flags[i + 2], flags[i + 3]));
        StoredFour(flags[i], flags[i + 1], flags[i + 2], flags[i + 3]);
        FourFlags(flags, i);
      }
    }
  }

  lemma PackStep(w: Density, st: bv16, flags: seq<byte>, i: nat)
    requires i < |flags|
    ensures var next := Push(w, st, flags[i]);
      PackFrom(w, st, flags, i) ==
        if i % w < w - 1 then PackFrom(w, next, flags, i + 1)
        else if !FitsByte(next) || PackFrom(w, 0, flags, i + 1) == None then None
        else Some([ToByte(next)] + PackFrom(w, 0, flags, i + 1).value)
  {
    hide Push, FitsByte, ToByte;
  }

  lemma PackMore(w: Density, st: bv16, flags: seq<byte>, i: nat, k: nat)
    requires i < |flags| && i % w == k < w - 1
    ensures PackFrom(w, st, flags, i) == PackFrom(w, Push(w, st, flags[i]), flags, i + 1)
    ensures (i + 1) % w == k + 1
  {
    hide Push, FitsByte, ToByte;
  }

  lemma PackLast(w: Density, st: bv16, flags: seq<byte>, i: nat)
    requires i < |flags| && i % w == w - 1 && FitsByte(Push(w, st, flags[i]))
    ensures var rest := PackFrom(w, 0, flags, i + 1);
      PackFrom(w, st, flags, i) == if rest == None then None else Some([ToByte(Push(w, st, flags[i]))] + rest.value)
  {
    hide Push, FitsByte, ToByte;
  }

  lemma TwoFlags(flags: seq<byte>, i: nat)
    requires i % 2 == 0 && i + 2 <= |flags| && FitsByte(Push2(flags[i], flags[i + 1]))
    ensures var rest := PackFrom(2, 0, flags, i + 2);
      PackFrom(2, 0, flags, i) == if rest == None then None else Some([ToByte(Push2(flags[i], flags[i + 1]))] + rest.value)
  {
    hide Push, FitsByte, ToByte, PackFrom;
    PackMore(2, 0, flags, i, 0);
    PackLast(2, Push(2, 0, flags[i]), flags, i + 1);
  }

  lemma FourFlags(flags: seq<byte>, i: nat)
    requires i % 4 == 0 && i + 4 <= |flags| && FitsByte(Push4(flags[i], flags[i + 1], flags[i + 2], flags[i + 3]))
    ensures var rest := PackFrom(4, 0, flags, i + 4);
      var c := ToByte(Push4(flags[i], flags[i + 1], flags[i + 2], flags[i + 3]));
      PackFrom(4, 0, flags, i) == if rest == None then None else Some([c] + rest.value)
  {
    hide Push, FitsByte, ToByte, PackFrom;
    var a := Push(4, 0, flags[i]);
    var b := Push(4, a, flags[i + 1]);
    var c := Push(4, b, flags[i + 2]);
    PackMore(4, 0, flags, i, 0);
    PackMore(4, a, flags, i + 1, 1);
    PackMore(4, b, flags, i + 2, 2);
    PackLast(4, c, flags, i + 3);
  }

  /** Whatever is stored, it takes as many bytes as there are groups. */
  lemma {:induction false} PackLength(w: Density, st: bv16, flags: seq<byte>, i: nat)
    requires |flags| % w == 0 && i <= |flags| && PackFrom(w, st, flags, i).Some?
    ensures w * |PackFrom(w, st, flags, i).value| == |flags| - i + i % w
    decreases |flags| - i
  {
    if i < |flags| {
      PackStep(w, st, flags, i);
      NextInGroup(w, i);
      hide PackFrom, Push, FitsByte, ToByte;
      var next := Push(w, st, flags[i]);
      if i % w < w - 1 {
        PackLength(w, next, flags, i + 1);
      } else {
        PackLength(w, 0, flags, i + 1);
        Times(w, |PackFrom(w, 0, flags, i + 1).value|);
      }
    }
  }

  lemma NextInGroup(w: Density, i: nat)
    ensures (i + 1) % w == if i % w < w - 1 then i % w + 1 else 0
  {
  }

  lemma Times(w: Density, n: nat)
    ensures w * (n + 1) == w * n + w
  {
  }

  /** Flags in range are stored without overflow, in as many bytes as they need. */
  lemma {:induction false} PackFits(w: Density, flags: seq<byte>, i: nat)
    requires AllInRange(w, flags) && |flags| % w == 0 && i % w == 0 && i <= |flags|
    ensures PackFrom(w, 0, flags, i).Some? && w * |PackFrom(w, 0, flags, i).value| == |flags| - i
    decreases |flags| - i
  {
    if i < |flags| {
      hide *;
      Aligned(w, i, |flags|);
      var c := OneGroup(w, flags, i);
      PackFits(w, flags, i + w);
    }
  }

  lemma Aligned(w: Density, i: nat, n: nat)
    requires i % w == 0 && n % w == 0 && i < n
    ensures i + w <= n && (i + w) % w == 0
  {
  }

  /** And every one of them is read back at its place. */
  lemma {:induction false} PackUnpacks(w: Density, flags: seq<byte>, i: nat, j: nat)
    requires AllInRange(w, flags) && |flags| % w == 0 && i % w == 0 && i <= j < |flags|
    ensures var b := PackFrom(w, 0, flags, i);
      b.Some? && (j - i) / w < |b.value| && Unpack(w, b.value[(j - i) / w], j % w) == flags[j]
    decreases |flags| - i
  {
    hide *;
    Aligned(w, i, |flags|);
    PackFits(w, flags, i);
    PackFits(w, flags, i + w);
    var c := OneGroup(w, flags, i);
    if j < i + w {
      Within(w, i, j);
      assert flags[i + (j - i)] == flags[j];
    } else {
      PackUnpacks(w, flags, i + w, j);
      Beyond(w, i, j);
    }
  }

  lemma Within(w: Density, i: nat, j: nat)
    requires i % w == 0 && i <= j < i + w
    ensures (j - i) / w == 0 && j % w == j - i
  {
  }

  lemma Beyond(w: Density, i: nat, j: nat)
    requires i % w == 0 && i + w <= j
    ensures (j - i) / w == (j - (i + w)) / w + 1
  {
  }

  // ------------------------------------------------------------ a table file

  function DensityOf(table: nat): Density { if table < 92 then 1 else if table < 115 then 2 else 4 }

  /** Bytes before the flags: the area code, and in the uncompressed form 16 more. */
  function Offset(w: Density): nat { if w == 1 then 18 else 2 }

  function FileSize(w: Density): nat { if w == 1 then 818 else if w == 2 then 402 else 202 }

  function ToDigit(n: nat): byte
    requires n < 10
  {
    n as byte
  }

  function Pair(h: byte, l: byte): byte { (h << 4) | l }

  function Header(npa: nat): (h: seq<byte>)
    requires npa < 1000
    ensures |h| == 2
  {
    [Pair(ToDigit(npa / 100), ToDigit(npa / 10 % 10)), Pair(ToDigit(npa % 10), END_NIBBLE)]
  }

  function Padding(w: Density): (p: seq<byte>)
    ensures |p| == Offset(w) - 2
  {
    if w == 1 then seq(16, _ => 0) else []
  }

  /** The file written for a table, if every value can be stored. */
  function TableFile(table: nat, npanxx: map<Exchange, byte>, npa: nat): Option<seq<byte>>
    requires npa < 1000
  {
    match Pack(DensityOf(table), Flags(npanxx, npa))
    case None => None
    case Some(b) => Some(Header(npa) + Padding(DensityOf(table)) + b)
  }

  datatype Dumped = Invalid | Table(npa: nat, flags: seq<byte>)

  predicate ValidStart(c: byte) { 0x20 <= c <= 0x99 }

  function NpaOf(c: byte, d: byte): nat { Uint(High(c)) * 100 + Uint(Low4(c)) * 10 + Uint(High(d)) }

  function Unpacked(w: Density, file: seq<byte>): seq<byte>
    requires |file| == FileSize(w)
  {
    seq(800, k requires 0 <= k < 800 => Unpack(w, file[Offset(w) + k / w], k % w))
  }

  /** The form is told by the size of the file. */
  function DensityOfSize(size: nat): Option<Density> {
    if size == 818 then Some(1) else if size == 402 then Some(2) else if size == 202 then Some(4) else None
  }

  function Dump(file: seq<byte>): Dumped {
    match DensityOfSize(|file|)
    case None => Invalid
    case Some(w) =>
      if !ValidStart(file[0]) || Low4(file[1]) != END_NIBBLE then Invalid
      else Table(NpaOf(file[0], file[1]), Unpacked(w, file))
  }

  predicate IsDigit(b: byte) { b < 10 }

  predicate AtLeastTwo(b: byte) { b >= 2 }

  lemma DigitPair(h: byte, l: byte)
    requires IsDigit(h) && IsDigit(l)
    ensures High(Pair(h, l)) == h && Low4(Pair(h, l)) == l
    ensures ValidStart(Pair(h, l)) <==> AtLeastTwo(h)
  {
  }

  lemma DigitEnd(h: byte)
    requires IsDigit(h)
    ensures High(Pair(h, END_NIBBLE)) == h && Low4(Pair(h, END_NIBBLE)) == END_NIBBLE
  {
  }

  lemma DigitBack(n: nat)
    requires n < 10
    ensures Uint(ToDigit(n)) == n && IsDigit(ToDigit(n))
    ensures AtLeastTwo(ToDigit(n)) <==> n >= 2
  {
    ByteOfNat(n);
    SmallByte(n as byte);
  }

  lemma SmallByte(b: byte)
    ensures IsDigit(b) <==> b as int < 10
    ensures AtLeastTwo(b) <==> b as int >= 2
  {
  }

  lemma HeaderRead(npa: nat)
    requires npa < 1000
    ensures var h := Header(npa);
      && (ValidStart(h[0]) <==> npa >= FIRST)
      && Low4(h[1]) == END_NIBBLE && NpaOf(h[0], h[1]) == npa
  {
    hide ToDigit, Pair, Uint, High, Low4, ValidStart, IsDigit, AtLeastTwo;
    DigitBack(npa / 100);
    DigitBack(npa / 10 % 10);
    DigitBack(npa % 10);
    DigitPair(ToDigit(npa / 100), ToDigit(npa / 10 % 10));
    DigitEnd(ToDigit(npa % 10));
  }

  /** Where the flags of a byte are: the first in its upper bits. */
  lemma FlagPlaces(c: byte)
    ensures c == (Unpack(2, c, 0) << 4) | Unpack(2, c, 1)
    ensures c == (Unpack(4, c, 0) << 6) | (Unpack(4, c, 1) << 4) | (Unpack(4, c, 2) << 2) | Unpack(4, c, 3)
    ensures c == Unpack(1, c, 0)
  {
    FourMaskValues();
    hide TwoBits;
  }

  /** The header: hundreds and tens of the area code in the first byte, units and the end marker in the second. */
  lemma HeaderDigits(npa: nat)
    requires npa < 1000
    ensures var h := Header(npa);
      && h[0] >> 4 == (npa / 100) as byte && h[0] & 0x0f == (npa / 10 % 10) as byte
      && h[1] >> 4 == (npa % 10) as byte && h[1] & 0x0f == 0x0e
  {
    hide Pair, IsDigit;
    DigitBack(npa / 100);
    DigitBack(npa / 10 % 10);
    DigitBack(npa % 10);
    DigitPair((npa / 100) as byte, (npa / 10 % 10) as byte);
    DigitEnd((npa % 10) as byte);
  }

  /** An exchange that is not listed gets the flag 3. */
  lemma ListedFlag(npanxx: map<Exchange, byte>, npa: nat, nxx: nat)
    requires FIRST <= nxx < LIMIT
    ensures Flags(npanxx, npa)[nxx - 200] == if Exchange(npa, nxx) in npanxx then npanxx[Exchange(npa, nxx)] else 3
  {
    var k := nxx - FIRST;
    assert FIRST + k == nxx && nxx - 200 == k;
    assert Flags(npanxx, npa)[k] == FlagOf(npanxx, npa, FIRST + k);
  }

  lemma UnpackedBack(w: Density, header: seq<byte>, b: seq<byte>, flags: seq<byte>)
    requires |flags| == 800 && AllInRange(w, flags) && Pack(w, flags) == Some(b) && |header| == Offset(w)
    ensures |header + b| == FileSize(w) && Unpacked(w, header + b) == flags
  {
    Eight(w);
    hide PackFrom, Unpack, InRange;
    PackFits(w, flags, 0);
    forall k | 0 <= k < 800
      ensures Unpacked(w, header + b)[k] == flags[k]
    {
      PackUnpacks(w, flags, 0, k);
    }
  }

  lemma Eight(w: Density)
    ensures 800 % w == 0 && FileSize(w) == Offset(w) + 800 / w && DensityOfSize(FileSize(w)) == Some(w)
    ensures 0 % w == 0
  {
  }

  lemma UnpackedInRange(w: Density, file: seq<byte>)
    requires |file| == FileSize(w)
    ensures AllInRange(w, Unpacked(w, file))
  {
    hide Unpack, InRange;
    forall k | 0 <= k < 800
      ensures InRange(w, Unpacked(w, file)[k])
    {
      UnpackInRange(w, file[Offset(w) + k / w], k % w);
    }
  }

  lemma FileOf(table: nat, npanxx: map<Exchange, byte>, npa: nat)
    requires npa < 1000 && TableFile(table, npanxx, npa).Some?
    ensures |TableFile(table, npanxx, npa).value| == FileSize(DensityOf(table))
    ensures TableFile(table, npanxx, npa).value[..2] == Header(npa)
  {
    var w, flags := DensityOf(table), Flags(npanxx, npa);
    Eight(w);
    hide DensityOf, Flags, Header, PackFrom;
    PackLength(w, 0, flags, 0);
  }

  /** Between area code and flags the plain form has sixteen zeros, and the others nothing. */
  lemma PaddedWithZeros(table: nat, npanxx: map<Exchange, byte>, npa: nat)
    requires npa < 1000 && TableFile(table, npanxx, npa).Some?
    ensures var file := TableFile(table, npanxx, npa).value;
      if table < 92 then |file| == 818 && forall k :: 2 <= k < 18 ==> file[k] == 0
      else |file| == if table < 115 then 402 else 202
  {
    FileOf(table, npanxx, npa);
    hide Flags, Header, PackFrom;
  }

  /** What the dump program rejects: by size, by a first byte out of range, and by a missing end marker. */
  lemma DumpRejects(file: seq<byte>)
    ensures Dump(file) == Invalid <==>
      || (|file| != 818 && |file| != 402 && |file| != 202)
      || file[0] < 0x20 || file[0] > 0x99 || file[1] & 0x0f != 0x0e
  {
    hide Unpacked, NpaOf;
  }

  /**
   * A table file, dumped, gives back area code and all 800 flags exactly if the flags fit the form and the area code
   * is in the range of area codes.
   */
  lemma LcdRoundTrip(table: nat, npanxx: map<Exchange, byte>, npa: nat)
    requires npa < 1000
    ensures var file := TableFile(table, npanxx, npa);
      (file.Some? && Dump(file.value) == Table(npa, Flags(npanxx, npa)))
        <==> (npa >= FIRST && AllInRange(DensityOf(table), Flags(npanxx, npa)))
  {
    var w, flags := DensityOf(table), Flags(npanxx, npa);
    Eight(w);
    HeaderRead(npa);
    hide DensityOf, Flags, Header, Unpacked, AllInRange, ValidStart, NpaOf, Low4, PackFrom, FileSize, DensityOfSize;
    if AllInRange(w, flags) {
      PackFits(w, flags, 0);
      UnpackedBack(w, Header(npa) + Padding(w), Pack(w, flags).value, flags);
    }
    var file := TableFile(table, npanxx, npa);
    if file.Some? {
      FileOf(table, npanxx, npa);
      assert file.value[0] == file.value[..2][0] && file.value[1] == file.value[..2][1];
      UnpackedInRange(w, file.value);
    }
  }

  /** Flags small enough for the densest form read the same from all three. */
  lemma FormsAgree(npanxx: map<Exchange, byte>, npa: nat, t1: nat, t2: nat, t3: nat)
    requires FIRST <= npa < 1000 && t1 < 92 <= t2 < 115 <= t3
    requires AllInRange(4, Flags(npanxx, npa))
    ensures var f1, f2, f3 := TableFile(t1, npanxx, npa), TableFile(t2, npanxx, npa), TableFile(t3, npanxx, npa);
      && f1.Some? && f2.Some? && f3.Some?
      && |f1.value| == 818 && |f2.value| == 402 && |f3.value| == 202
      && Dump(f1.value) == Dump(f2.value) == Dump(f3.value) == Table(npa, Flags(npanxx, npa))
  {
    hide Flags, TableFile, Dump;
    FourIsMin(Flags(npanxx, npa));
    LcdRoundTrip(t1, npanxx, npa);
    LcdRoundTrip(t2, npanxx, npa);
    LcdRoundTrip(t3, npanxx, npa);
    FileOf(t1, npanxx, npa);
    FileOf(t2, npanxx, npa);
    FileOf(t3, npanxx, npa);
  }

  lemma FourIsMin(flags: seq<byte>)
    requires AllInRange(4, flags)
    ensures AllInRange(1, flags) && AllInRange(2, flags)
  {
    forall k | 0 <= k < |flags|
      ensures InRange(2, flags[k])
    {
      assert InRange(4, flags[k]);
    }
  }

  // ------------------------------------------------------------ the generating and the dumping loop

  function Prefixed(b: seq<byte>, rest: Option<seq<byte>>): Option<seq<byte>> {
    match rest
    case None => None
    case Some(r) => Some(b + r)
  }

  lemma PrefixGrows(b: seq<byte>, c: byte, rest: Option<seq<byte>>)
    ensures Prefixed(b, if rest == None then None else Some([c] + rest.value)) == Prefixed(b + [c], rest)
  {
    if rest.Some? {
      assert b + ([c] + rest.value) == b + [c] + rest.value;
    }
  }

  lemma OneFlagByte(flag: byte)
    ensures FitsByte(Add(0, flag)) && ToByte(Add(0, flag)) == flag
  {
  }

  /** One turn of the loop: shift the flag in, and store the byte when it is complete. */
  method PackFlag(w: Density, stflag: bv16, flag: byte, index: nat, ghost flags: seq<byte>, ghost b: seq<byte>)
    returns (next: bv16, out: seq<byte>, ok: bool)
    requires FIRST <= index < FIRST + |flags| && flags[index - FIRST] == flag
    ensures var was := Prefixed(b, PackFrom(w, stflag, flags, index - FIRST));
      if ok then was == Prefixed(b + out, PackFrom(w, next, flags, index + 1 - FIRST)) else was == None
  {
    PackStep(w, stflag, flags, index - FIRST);
    OneFlagByte(flag);
    hide PackFrom, FitsByte, ToByte, Add, Shift4, Shift2, Prefixed;
    next, out, ok := stflag, [], true;
    ghost var rest := PackFrom(w, 0, flags, index + 1 - FIRST);
    SameGroup(w, index);
    assert b + [] == b;
    if w == 1 {
      PrefixGrows(b, flag, rest);
      UnusedState(next, flags, index + 1 - FIRST);
      out := [flag];
    } else {
      next := if w == 2 then Add(Shift4(stflag), flag) else Add(Shift2(stflag), flag);
      if index % w == w - 1 {
        if !FitsByte(next) {
          NothingPrefixed(b);
          ok := false;
          return;
        }
        PrefixGrows(b, ToByte(next), rest);
        NothingPrefixed(b);
        out, next := [ToByte(next)], 0;
      }
    }
  }

  lemma NothingPrefixed(b: seq<byte>)
    ensures Prefixed(b, None) == None
  {
  }

  lemma SameGroup(w: Density, index: nat)
    requires index >= FIRST
    ensures index % w == (index - FIRST) % w < w
  {
  }

  /** With one flag to a byte nothing is collected. */
  lemma UnusedState(st: bv16, flags: seq<byte>, i: nat)
    requires i <= |flags|
    ensures PackFrom(1, st, flags, i) == PackFrom(1, 0, flags, i)
  {
  }

  method GenerateLcd(table: nat, npa: nat, npanxx: map<Exchange, byte>) returns (file: Option<seq<byte>>)
    requires npa < 1000
    ensures file == TableFile(table, npanxx, npa)
  {
    hide Pair, ToDigit, PackFrom, Prefixed;
    var w := DensityOf(table);
    var a := [Pair(ToDigit(npa / 100), ToDigit(npa / 10 % 10)), Pair(ToDigit(npa % 10), END_NIBBLE)];
    if table < 92 {
      for index := 0 to 16
        invariant a == Header(npa) + seq(index, _ => 0)
      {
        a := a + [0];
      }
    }
    ghost var head, flags := a, Flags(npanxx, npa);
    assert head == Header(npa) + Padding(w);
    var stflag: bv16 := 0;
    ghost var b: seq<byte> := [];
    PrefixNothing(Pack(w, flags));
    for index := FIRST to LIMIT
      invariant a == head + b
      invariant Prefixed(b, PackFrom(w, stflag, flags, index - FIRST)) == Pack(w, flags)
    {
      var out, ok;
      stflag, out, ok := PackFlag(w, stflag, FlagOf(npanxx, npa, index), index, flags, b);
      if !ok {
        return None;
      }
      a, b := a + out, b + out;
    }
    PackedAll(w, stflag, flags, b);
    file := Some(a);
  }

  lemma PrefixNothing(o: Option<seq<byte>>)
    ensures Prefixed([], o) == o
  {
    if o.Some? {
      assert [] + o.value == o.value;
    }
  }

  lemma PackedAll(w: Density, st: bv16, flags: seq<byte>, b: seq<byte>)
    ensures Prefixed(b, PackFrom(w, st, flags, |flags|)) == Some(b)
  {
    assert b + [] == b;
  }

  /** The byte that holds the flag of an exchange. */
  function Holder(w: Density, file: seq<byte>, nxx: nat): byte {
    var at := Offset(w) + (if nxx < FIRST then 0 else nxx - FIRST) / w;
    if at < |file| then file[at] else 0
  }

  lemma HolderAt(w: Density, file: seq<byte>, nxx: nat)
    requires |file| == FileSize(w) && FIRST <= nxx < LIMIT
    ensures var k := (nxx - FIRST) / w;
      Offset(w) + k < |file| && Holder(w, file, nxx) == file[Offset(w) + k]
    ensures Unpacked(w, file)[nxx - FIRST] == Unpack(w, Holder(w, file, nxx), (nxx - FIRST) % w)
  {
    hide Unpack;
  }

  lemma SameHolder(w: Density, file: seq<byte>, nxx: nat)
    requires nxx >= FIRST && (nxx + 1) % w != 0
    ensures Holder(w, file, nxx + 1) == Holder(w, file, nxx)
  {
  }

  /** One turn of the dump loop: a byte is fetched for its first flag and carried over for the others. */
  method ReadFlag(w: Density, file: seq<byte>, nxx: nat, carried: byte) returns (c: byte, flag: byte)
    requires |file| == FileSize(w) && FIRST <= nxx < LIMIT
    requires nxx % w != 0 ==> carried == Holder(w, file, nxx)
    ensures flag == Unpacked(w, file)[nxx - FIRST] && c == Holder(w, file, nxx)
  {
    HolderAt(w, file, nxx);
    SameGroup(w, nxx);
    hide Masked, TwoBits, Unpacked, Holder;
    c := carried;
    if w == 1 {
      c := file[18 + (nxx - FIRST)];
      flag := Masked(c, 0xFF, 0);
    } else if w == 2 {
      if nxx % 2 == 0 {
        c := file[2 + (nxx - FIRST) / 2];
        flag := Masked(c, 0xF0, 4);
      } else {
        flag := Masked(c, 0x0F, 0);
      }
    } else {
      var group := nxx % 4;
      if group == 0 {
        c := file[2 + (nxx - FIRST) / 4];
      }
      flag := Masked(c, TwoBits(group), 6 - group * 2);
    }
  }

  method DumpLcd(file: seq<byte>) returns (dumped: Dumped)
    ensures dumped == Dump(file)
  {
    hide High, Low4, Uint, ValidStart, Unpacked;
    var form := DensityOfSize(|file|);
    if form == None {
      return Invalid;
    }
    var w := form.value;
    if !ValidStart(file[0]) {
      return Invalid;
    }
    if Low4(file[1]) != END_NIBBLE {
      return Invalid;
    }
    var npa := Uint(High(file[0])) * 100 + Uint(Low4(file[0])) * 10 + Uint(High(file[1]));
    var flags := ReadFlags(w, file);
    dumped := Table(npa, flags);
  }

  method ReadFlags(w: Density, file: seq<byte>) returns (flags: seq<byte>)
    requires |file| == FileSize(w)
    ensures flags == Unpacked(w, file)
  {
    UnpackedLength(w, file);
    FirstAligned(w);
    hide Unpacked, FileSize, Offset, Holder;
    var c: byte;
    c, flags := 0, [];
    for nxx := FIRST to LIMIT
      invariant nxx % w != 0 ==> c == Holder(w, file, nxx)
      invariant flags == Unpacked(w, file)[..nxx - FIRST]
    {
      var flag;
      c, flag := ReadFlag(w, file, nxx, c);
      flags := flags + [flag];
      if (nxx + 1) % w != 0 {
        SameHolder(w, file, nxx);
      }
    }
  }

  lemma FirstAligned(w: Density)
    ensures FIRST % w == 0
  {
  }

  lemma UnpackedLength(w: Density, file: seq<byte>)
    requires |file| == FileSize(w)
    ensures |Unpacked(w, file)| == LIMIT - FIRST
  {
  }

  // ------------------------------------------------------------ which tables are written

  /** The k-th table id of each form. */
  function TableId(w: Density, k: nat): nat {
    if w == 4 then if k < 14 then 136 + k else 140 + k
    else if w == 2 then 101 + k
    else if k < 8 then 74 + k else 82 + k
  }

  /** The ids of a form are those of its tables in the manager's list, each once and in rising order. */
  lemma TableIds(w: Density, id: nat)
    ensures (exists k :: 0 <= k < Room(w) && TableId(w, k) == id) <==>
      if w == 4 then 136 <= id <= 149 || 154 <= id <= 155
      else if w == 2 then 101 <= id <= 108
      else 74 <= id <= 81 || 90 <= id <= 91
    ensures forall j, k :: 0 <= j < k < Room(w) ==> TableId(w, j) < TableId(w, k)
  {
    var k := if w == 4 then if id < 150 then id - 136 else id - 140
      else if w == 2 then id - 101 else if id < 82 then id - 74 else id - 82;
    if 0 <= k < Room(w) && TableId(w, k) == id {
    }
  }

  /** How many area codes a form has room for. */
  function Room(w: Density): nat { if w == 4 then 16 else if w == 2 then 8 else 10 }

  datatype Job = Job(table: nat, npa: nat)

  /** One table for each area code, as far as the ids of the form go. */
  function Jobs(w: Density, npas: seq<nat>): seq<Job> {
    seq(Min(Room(w), |npas|), k requires 0 <= k < Min(Room(w), |npas|) => Job(TableId(w, k), npas[k]))
  }

  /** The next id of a form: the ids of the densest and of the plain form have a gap. */
  method NextId(w: Density, table: nat, ghost i: nat) returns (next: nat)
    requires table == TableId(w, i) && i < Room(w)
    ensures next == TableId(w, i + 1)
  {
    next := table + 1;
    if w == 4 && next == 150 {
      next := 154;
    } else if w == 1 && next == 82 {
      next := 90;
    }
  }

  lemma LastId(w: Density, i: nat)
    requires i <= Room(w)
    ensures TableId(w, i) > (if w == 4 then 155 else if w == 2 then 108 else 91) <==> i == Room(w)
  {
  }

  /** The tables of one form; false if there are more area codes than ids. */
  method GenerateForm(w: Density, npas: seq<nat>) returns (ok: bool, jobs: seq<Job>)
    ensures jobs == Jobs(w, npas) && (ok <==> |npas| <= Room(w))
  {
    var table, last := 136, 155;
    if w == 2 {
      table, last := 101, 108;
    } else if w == 1 {
      table, last := 74, 91;
    }
    hide TableId, Room;
    FirstIds();
    ok, jobs := true, [];
    var i := 0;
    while i < |npas|
      invariant i <= |npas| && i <= Room(w) && table == TableId(w, i) && jobs == Jobs(w, npas[..i])
    {
      LastId(w, i);
      if table > last {
        assert Jobs(w, npas[..i]) == Jobs(w, npas);
        return false, jobs;
      }
      jobs := jobs + [Job(table, npas[i])];
      table := NextId(w, table, i);
      i := i + 1;
    }
    assert npas[..i] == npas;
  }

  lemma FirstIds()
    ensures TableId(4, 0) == 136 && TableId(2, 0) == 101 && TableId(1, 0) == 74
  {
  }

  /** The densest form first, then the compressed, then the plain one; eight area codes are the most without an error. */
  method GenerateLcdTables(npas: seq<nat>) returns (status: int, jobs: seq<Job>)
    ensures jobs == Jobs(4, npas) + Jobs(2, npas) + Jobs(1, npas)
    ensures status == 0 <==> |npas| <= 8
  {
    var ok4, jobs4 := GenerateForm(4, npas);
    var ok2, jobs2 := GenerateForm(2, npas);
    var ok1, jobs1 := GenerateForm(1, npas);
    status := if ok4 && ok2 && ok1 then 0 else -1;
    jobs := jobs4 + jobs2 + jobs1;
  }

  /** No table id is given out twice, and every id belongs to the form it is written in. */
  lemma IdsApart(npas: seq<nat>, w: Density, j: nat, v: Density, k: nat)
    requires j < |Jobs(w, npas)| && k < |Jobs(v, npas)|
    ensures DensityOf(Jobs(w, npas)[j].table) == w
    ensures Jobs(w, npas)[j].table == Jobs(v, npas)[k].table <==> w == v && j == k
  {
  }
}
