/** CRC-16 with polynomial 0xA001, least significant bit first, and its algebra. */
module Crc {
  type byte = bv8

  const POLY: bv16 := 0xA001

  // The word operations have names so that proofs about whole messages can hide their bit-level meaning.

  function Plus(c: bv16, d: bv16): bv16 { c ^ d }

  function Half(c: bv16): bv16 { c >> 1 }

  predicate Low(c: bv16) { c & 1 == 1 }

  /** One shift of the register. */
  function Shift(c: bv16): bv16 {
    if Low(c) then Plus(Half(c), POLY) else Half(c)
  }

  function ShiftN(c: bv16, n: nat): bv16
    decreases n
  {
    if n == 0 then c else ShiftN(Shift(c), n - 1)
  }

  /** The register after one byte: eight shifts. */
  function Absorb(c: bv16, b: byte): bv16 {
    ShiftN(Plus(c, b as bv16), 8)
  }

  function Crc16(c: bv16, s: seq<byte>): bv16
    decreases |s|
  {
    if s == [] then c else Crc16(Absorb(c, s[0]), s[1..])
  }

  /** The eight unrolled conditional shifts of the loop body. */
  method ShiftEightTimes(c: bv16) returns (r: bv16)
    ensures r == ShiftN(c, 8)
  {
    r := c;
    for bit := 0 to 8
      invariant ShiftN(r, 8 - bit) == ShiftN(c, 8)
    {
      ghost var before := r;
      r := if r & 1 == 1 then (r >> 1) ^ POLY else r >> 1;
      assert r == Shift(before);
    }
  }

  method ComputeCrc16(seed: bv16, buf: seq<byte>) returns (crc: bv16)
    ensures crc == Crc16(seed, buf)
  {
    hide ShiftN;
    crc := seed;
    for i := 0 to |buf|
      invariant Crc16(crc, buf[i..]) == Crc16(seed, buf)
    {
      assert buf[i..][1..] == buf[i + 1..];
      crc := ShiftEightTimes(crc ^ (buf[i] as bv16));
    }
  }

  // ------------------------------------------------------------ bit-level facts

  lemma PlusAssoc(x: bv16, y: bv16, z: bv16)
    ensures Plus(Plus(x, y), z) == Plus(x, Plus(y, z))
  {
  }

  lemma PlusComm(x: bv16, y: bv16)
    ensures Plus(x, y) == Plus(y, x)
  {
  }

  lemma PlusSelf(x: bv16)
    ensures Plus(0, x) == x && Plus(x, 0) == x && Plus(x, x) == 0
  {
  }

  lemma PlusZero(x: bv16, y: bv16)
    ensures Plus(0, x) == x && Plus(x, 0) == x
    ensures Plus(x, y) == 0 <==> x == y
  {
    hide Plus;
    PlusSelf(x);
    PlusSelf(y);
    PlusAssoc(x, x, y);
  }

  lemma LowPlus(c: bv16, d: bv16)
    ensures Low(Plus(c, d)) == (Low(c) != Low(d))
  {
  }

  lemma HalfPlus(c: bv16, d: bv16)
    ensures Half(Plus(c, d)) == Plus(Half(c), Half(d))
  {
  }

  lemma PlusCancel(x: bv16, y: bv16, p: bv16)
    ensures Plus(Plus(x, p), Plus(y, p)) == Plus(x, y)
  {
    hide Plus;
    PlusExchange(x, p, y, p);
    PlusZero(p, p);
    PlusZero(Plus(x, y), 0);
  }

  lemma PlusExchange(c: bv16, d: bv16, x: bv16, y: bv16)
    ensures Plus(Plus(c, d), Plus(x, y)) == Plus(Plus(c, x), Plus(d, y))
  {
    hide Plus;
    PlusAssoc(c, d, Plus(x, y));
    PlusAssoc(d, x, y);
    PlusComm(d, x);
    PlusAssoc(x, d, y);
    PlusAssoc(c, x, Plus(d, y));
  }

  // ------------------------------------------------------------ shifts are linear and lose nothing

  lemma ShiftLinear(c: bv16, d: bv16)
    ensures Shift(Plus(c, d)) == Plus(Shift(c), Shift(d))
  {
    hide Plus, Half, Low;
    var x, y := Half(c), Half(d);
    LowPlus(c, d);
    HalfPlus(c, d);
    PlusAssoc(x, y, POLY);
    PlusAssoc(x, POLY, y);
    PlusComm(POLY, y);
    PlusCancel(x, y, POLY);
  }

  lemma {:induction false} ShiftNLinear(c: bv16, d: bv16, n: nat)
    ensures ShiftN(Plus(c, d), n) == Plus(ShiftN(c, n), ShiftN(d, n))
    decreases n
  {
    hide Plus, Shift;
    if n > 0 {
      ShiftLinear(c, d);
      ShiftNLinear(Shift(c), Shift(d), n - 1);
    }
  }

  /** The polynomial has bit 15 set, so a shift of a non-zero register is not zero. */
  lemma ShiftZero(c: bv16)
    ensures Shift(c) == 0 <==> c == 0
  {
  }

  lemma {:induction false} ShiftNZero(c: bv16, n: nat)
    ensures ShiftN(c, n) == 0 <==> c == 0
    decreases n
  {
    hide Shift;
    if n > 0 {
      ShiftZero(c);
      ShiftNZero(Shift(c), n - 1);
    }
  }

  lemma {:induction false} ShiftNAdd(c: bv16, m: nat, n: nat)
    ensures ShiftN(c, m + n) == ShiftN(ShiftN(c, m), n)
    decreases m
  {
    hide Shift;
    if m > 0 {
      ShiftNAdd(Shift(c), m - 1, n);
    }
  }

  // ------------------------------------------------------------ the checksum over whole messages

  lemma {:induction false} Chaining(c: bv16, s: seq<byte>, t: seq<byte>)
    ensures Crc16(c, s + t) == Crc16(Crc16(c, s), t)
    decreases |s|
  {
    hide Absorb;
    if s == [] {
      assert s + t == t;
    } else {
      assert (s + t)[1..] == s[1..] + t;
      Chaining(Absorb(c, s[0]), s[1..], t);
    }
  }

  function Flip(a: byte, b: byte): byte { a ^ b }

  /** Two byte strings of one length, xor-ed byte by byte. */
  function Xor(s: seq<byte>, t: seq<byte>): (r: seq<byte>)
    requires |s| == |t|
    ensures |r| == |s| && forall i :: 0 <= i < |s| ==> r[i] == Flip(s[i], t[i])
  {
    seq(|s|, i requires 0 <= i < |s| => Flip(s[i], t[i]))
  }

  lemma AbsorbLinear(c: bv16, d: bv16, a: byte, b: byte)
    ensures Absorb(Plus(c, d), Flip(a, b)) == Plus(Absorb(c, a), Absorb(d, b))
  {
    var x, y := a as bv16, b as bv16;
    assert Flip(a, b) as bv16 == Plus(x, y);
    PlusExchange(c, d, x, y);
    hide Plus, ShiftN;
    ShiftNLinear(Plus(c, x), Plus(d, y), 8);
  }

  lemma {:induction false} Linearity(c: bv16, d: bv16, s: seq<byte>, t: seq<byte>)
    requires |s| == |t|
    ensures Crc16(Plus(c, d), Xor(s, t)) == Plus(Crc16(c, s), Crc16(d, t))
    decreases |s|
  {
    hide Plus, Absorb, Flip;
    if s != [] {
      AbsorbLinear(c, d, s[0], t[0]);
      assert Xor(s, t)[1..] == Xor(s[1..], t[1..]);
      Linearity(Absorb(c, s[0]), Absorb(d, t[0]), s[1..], t[1..]);
    }
  }

  function Lo(c: bv16): byte { (c & 0xFF) as byte }

  function Hi(c: bv16): byte { (c >> 8) as byte }

  function Word16(lo: byte, hi: byte): bv16 { (lo as bv16) | ((hi as bv16) << 8) }

  lemma WordSplit(c: bv16)
    ensures Word16(Lo(c), Hi(c)) == c
  {
  }

  lemma FourZeroBits(x: bv16)
    requires x & 0xF == 0
    ensures !Low(x) && !Low(x >> 1) && !Low(x >> 2) && !Low(x >> 3)
    ensures Half(x) == x >> 1 && Half(x >> 1) == x >> 2 && Half(x >> 2) == x >> 3 && Half(x >> 3) == x >> 4
  {
  }

  lemma FourShifts(x: bv16)
    requires x & 0xF == 0
    ensures ShiftN(x, 4) == x >> 4
  {
    FourZeroBits(x);
    hide Low, Half, Plus;
    assert ShiftN(x, 4) == ShiftN(x >> 1, 3) == ShiftN(x >> 2, 2) == ShiftN(x >> 3, 1) == x >> 4;
  }

  lemma HighByte(h: byte)
    ensures var x := (h as bv16) << 8;
      x & 0xF == 0 && (x >> 4) & 0xF == 0 && (x >> 4) >> 4 == h as bv16
  {
  }

  lemma HighByteFallsThrough(h: byte)
    ensures ShiftN((h as bv16) << 8, 8) == h as bv16
  {
    hide ShiftN;
    var x := (h as bv16) << 8;
    HighByte(h);
    FourShifts(x);
    FourShifts(x >> 4);
    ShiftNAdd(x, 4, 4);
  }

  /** Two bytes act on the register like sixteen shifts of one word. */
  lemma TwoBytes(r: bv16, lo: byte, hi: byte)
    ensures Crc16(r, [lo, hi]) == ShiftN(Plus(r, Word16(lo, hi)), 16)
  {
    var l, h := lo as bv16, (hi as bv16) << 8;
    assert Plus(l, h) == Word16(lo, hi);
    HighByteFallsThrough(hi);
    hide Plus, ShiftN, Word16;
    assert Crc16(r, [lo, hi]) == Crc16(Absorb(r, lo), [hi]) == Absorb(Absorb(r, lo), hi);
    ShiftNLinear(Plus(r, l), h, 8);
    PlusAssoc(r, l, h);
    ShiftNAdd(Plus(r, Plus(l, h)), 8, 8);
  }

  /** Appending the right check bytes, and no others, leaves a zero register. */
  lemma Residue(s: seq<byte>, lo: byte, hi: byte)
    ensures Crc16(0, s + [lo, hi]) == 0 <==> Word16(lo, hi) == Crc16(0, s)
  {
    hide Plus, Word16, ShiftN;
    var r := Crc16(0, s);
    Chaining(0, s, [lo, hi]);
    TwoBytes(r, lo, hi);
    ShiftNZero(Plus(r, Word16(lo, hi)), 16);
    PlusZero(r, Word16(lo, hi));
  }

  // ------------------------------------------------------------ the checksum bit by bit

  /** The bits of a byte in the order they go over the line. */
  function ByteBits(b: byte): (r: seq<bool>)
    ensures |r| == 8
  {
    [b & 0x01 != 0, b & 0x02 != 0, b & 0x04 != 0, b & 0x08 != 0,
     b & 0x10 != 0, b & 0x20 != 0, b & 0x40 != 0, b & 0x80 != 0]
  }

  function Bits(s: seq<byte>): (r: seq<bool>)
    ensures |r| == 8 * |s|
  {
    if s == [] then [] else ByteBits(s[0]) + Bits(s[1..])
  }

  function AbsorbBit(c: bv16, bit: bool): bv16 {
    Shift(Plus(c, Unit(bit)))
  }

  function BitCrc(c: bv16, bits: seq<bool>): bv16
    decreases |bits|
  {
    if bits == [] then c else BitCrc(AbsorbBit(c, bits[0]), bits[1..])
  }

  lemma {:induction false} BitChaining(c: bv16, s: seq<bool>, t: seq<bool>)
    ensures BitCrc(c, s + t) == BitCrc(BitCrc(c, s), t)
    decreases |s|
  {
    hide AbsorbBit;
    if s == [] {
      assert s + t == t;
    } else {
      assert (s + t)[1..] == s[1..] + t;
      BitChaining(AbsorbBit(c, s[0]), s[1..], t);
    }
  }

  function Double(c: bv16): bv16 { c << 1 }

  function Unit(bit: bool): bv16 { if bit then 1 else 0 }

  /** Up to sixteen bits as a word, the first bit lowest. */
  function Word(bits: seq<bool>): bv16 {
    if bits == [] then 0 else Plus(Unit(bits[0]), Double(Word(bits[1..])))
  }

  function HalfN(c: bv16, n: nat): bv16
    decreases n
  {
    if n == 0 then c else HalfN(Half(c), n - 1)
  }

  lemma {:induction false} HalfNAdd(c: bv16, m: nat, n: nat)
    ensures HalfN(c, m + n) == HalfN(HalfN(c, m), n)
    decreases m
  {
    hide Half;
    if m > 0 {
      HalfNAdd(Half(c), m - 1, n);
    }
  }

  lemma HalfThreeTimes(c: bv16)
    ensures HalfN(c, 3) == c >> 3
  {
    assert HalfN(c, 3) == HalfN(Half(c), 2) == HalfN(Half(Half(c)), 1) == Half(Half(Half(c)));
  }

  lemma ShiftsAdd(c: bv16)
    ensures (c >> 3) >> 3 == c >> 6 && (c >> 6) >> 3 == c >> 9
    ensures (c >> 9) >> 3 == c >> 12 && (c >> 12) >> 3 == c >> 15
  {
  }

  lemma HalfFifteenTimes(c: bv16)
    ensures HalfN(c, 15) == c >> 15
  {
    hide HalfN;
    HalfThreeTimes(c);
    HalfThreeTimes(c >> 3);
    HalfThreeTimes(c >> 6);
    HalfThreeTimes(c >> 9);
    HalfThreeTimes(c >> 12);
    HalfNAdd(c, 3, 3);
    HalfNAdd(c, 6, 3);
    HalfNAdd(c, 9, 3);
    HalfNAdd(c, 12, 3);
    ShiftsAdd(c);
  }

  lemma LastShift(c: bv16)
    ensures c >> 15 == 0 <==> c & 0x8000 == 0
    ensures Half(c >> 15) == 0
  {
  }

  /** After fifteen halvings only the top bit is left. */
  lemma TopBit(c: bv16)
    ensures HalfN(c, 15) == 0 <==> c & 0x8000 == 0
    ensures HalfN(c, 16) == 0
  {
    hide Half;
    HalfFifteenTimes(c);
    LastShift(c);
    HalfNAdd(c, 15, 1);
  }

  lemma {:induction false} ZeroHalves(n: nat)
    ensures HalfN(0, n) == 0
  {
    if n > 0 {
      ZeroHalves(n - 1);
    }
  }

  lemma DoubleFacts(w: bv16)
    ensures !Low(Double(w)) && Half(0) == Half(1) == 0 && !Low(0) && Low(1)
    ensures w & 0x8000 == 0 ==> Half(Double(w)) == w
  {
  }

  lemma {:induction false} WordNarrow(bits: seq<bool>)
    requires |bits| <= 15
    ensures HalfN(Word(bits), |bits|) == 0 && Word(bits) & 0x8000 == 0
  {
    hide Plus, Half, Double, Low;
    if bits != [] {
      var rest := Word(bits[1..]);
      WordNarrow(bits[1..]);
      DoubleFacts(rest);
      HalfPlus(Unit(bits[0]), Double(rest));
      PlusZero(rest, 0);
    }
    HalfNAdd(Word(bits), |bits|, 15 - |bits|);
    ZeroHalves(15 - |bits|);
    TopBit(Word(bits));
  }

  lemma {:induction false} WordZero(bits: seq<bool>)
    requires |bits| <= 16
    ensures Word(bits) == 0 <==> forall i :: 0 <= i < |bits| ==> !bits[i]
  {
    hide Plus, Half, Double, Low;
    if bits != [] {
      var rest := Word(bits[1..]);
      WordNarrow(bits[1..]);
      WordZero(bits[1..]);
      DoubleFacts(rest);
      DoubleFacts(0);
      LowPlus(Unit(bits[0]), Double(rest));
      PlusZero(Double(rest), 0);
      assert Double(0) == 0 by { PlusZero(0, 0); DoubleZero(); }
      assert forall i :: 1 <= i < |bits| ==> bits[i] == bits[1..][i - 1];
    }
  }

  lemma DoubleZero()
    ensures Double(0) == 0
  {
  }

  /** Up to sixteen bits act on the register like shifts of one word. */
  lemma {:induction false} BitCrcIsShifts(c: bv16, bits: seq<bool>)
    requires |bits| <= 16
    ensures BitCrc(c, bits) == ShiftN(Plus(c, Word(bits)), |bits|)
    decreases |bits|
  {
    hide Plus, Half, Low, Double, Unit;
    if bits == [] {
      PlusZero(c, 0);
    } else {
      var b, rest := Unit(bits[0]), Word(bits[1..]);
      WordNarrow(bits[1..]);
      DoubleFacts(rest);
      BitCrcIsShifts(AbsorbBit(c, bits[0]), bits[1..]);
      ShiftLinear(Plus(c, b), Double(rest));
      PlusAssoc(c, b, Double(rest));
    }
  }

  lemma TopBits(b: byte)
    ensures Plus(Unit(b & 0x80 != 0), Double(0)) == (b >> 7) as bv16
    ensures Plus(Unit(b & 0x40 != 0), Double((b >> 7) as bv16)) == (b >> 6) as bv16
    ensures Plus(Unit(b & 0x20 != 0), Double((b >> 6) as bv16)) == (b >> 5) as bv16
    ensures Plus(Unit(b & 0x10 != 0), Double((b >> 5) as bv16)) == (b >> 4) as bv16
  {
  }

  lemma LowBits(b: byte)
    ensures Plus(Unit(b & 0x08 != 0), Double((b >> 4) as bv16)) == (b >> 3) as bv16
    ensures Plus(Unit(b & 0x04 != 0), Double((b >> 3) as bv16)) == (b >> 2) as bv16
    ensures Plus(Unit(b & 0x02 != 0), Double((b >> 2) as bv16)) == (b >> 1) as bv16
    ensures Plus(Unit(b & 0x01 != 0), Double((b >> 1) as bv16)) == b as bv16
  {
  }

  lemma WordOfPair(s: seq<bool>)
    requires |s| >= 2
    ensures Word(s) == Plus(Unit(s[0]), Double(Plus(Unit(s[1]), Double(Word(s[2..])))))
  {
    hide Plus, Double, Unit;
    assert s[1..][1..] == s[2..];
  }

  lemma WordOfEight(s: seq<bool>)
    requires |s| == 8
    ensures Word(s) ==
      Plus(Unit(s[0]), Double(Plus(Unit(s[1]), Double(Plus(Unit(s[2]), Double(Plus(Unit(s[3]), Double(
      Plus(Unit(s[4]), Double(Plus(Unit(s[5]), Double(Plus(Unit(s[6]), Double(Plus(Unit(s[7]), Double(0))))))))))))))))
  {
    assert Word(s[8..]) == 0;
    hide Plus, Double, Unit, Word;
    assert s[2..][2..] == s[4..] && s[4..][2..] == s[6..] && s[6..][2..] == s[8..];
    WordOfPair(s);
    WordOfPair(s[2..]);
    WordOfPair(s[4..]);
    WordOfPair(s[6..]);
  }

  lemma ByteWord(b: byte)
    ensures Word(ByteBits(b)) == b as bv16
  {
    TopBits(b);
    LowBits(b);
    WordOfEight(ByteBits(b));
    hide Plus, Double, Unit, Word;
  }

  /** Computing byte by byte and computing bit by bit agree. */
  lemma {:induction false} CrcBitByBit(c: bv16, s: seq<byte>)
    ensures Crc16(c, s) == BitCrc(c, Bits(s))
    decreases |s|
  {
    hide Plus, AbsorbBit, ShiftN, ByteBits, Word;
    if s != [] {
      ByteWord(s[0]);
      BitCrcIsShifts(c, ByteBits(s[0]));
      BitChaining(c, ByteBits(s[0]), Bits(s[1..]));
      CrcBitByBit(Absorb(c, s[0]), s[1..]);
    }
  }

  // ------------------------------------------------------------ parity

  /** Whether an odd number of the lowest n bits is set. */
  predicate OddN(c: bv16, n: nat)
    decreases n
  {
    n > 0 && (Low(c) != OddN(Half(c), n - 1))
  }

  /** Whether a word has an odd number of bits set. */
  predicate Odd(c: bv16) { OddN(c, 16) }

  function Count(bits: seq<bool>): nat {
    if bits == [] then 0 else (if bits[0] then 1 else 0) + Count(bits[1..])
  }

  lemma {:induction false} OddPlus(c: bv16, d: bv16, n: nat)
    ensures OddN(Plus(c, d), n) == (OddN(c, n) != OddN(d, n))
    decreases n
  {
    hide Plus, Half, Low;
    if n > 0 {
      LowPlus(c, d);
      HalfPlus(c, d);
      OddPlus(Half(c), Half(d), n - 1);
    }
  }

  lemma {:induction false} OddBeyond(c: bv16, n: nat)
    requires HalfN(c, n) == 0
    ensures OddN(c, n + 1) == OddN(c, n)
    decreases n
  {
    if n > 0 {
      hide Half, Low;
      OddBeyond(Half(c), n - 1);
    } else {
      assert !Low(0);
    }
  }

  lemma {:induction false} ZeroEven(n: nat)
    ensures !OddN(0, n)
  {
    if n > 0 {
      ZeroEven(n - 1);
    }
  }

  lemma UnitParity()
    ensures Odd(1) && !Odd(0)
  {
    ZeroEven(15);
    ZeroEven(16);
  }

  lemma PolyParity()
    ensures Odd(POLY)
  {
    ZeroEven(0);
    assert !OddN(0x0005, 3) && !OddN(0x000A, 4) && !OddN(0x0014, 5) && !OddN(0x0028, 6);
    assert !OddN(0x0050, 7) && !OddN(0x00A0, 8) && !OddN(0x0140, 9) && !OddN(0x0280, 10);
    assert !OddN(0x0500, 11) && !OddN(0x0A00, 12) && !OddN(0x1400, 13) && !OddN(0x2800, 14) && !OddN(0x5000, 15);
  }

  /** The polynomial has three bits set; with the bit shifted out, parity is kept. */
  lemma ShiftParity(c: bv16)
    ensures Odd(Shift(c)) == Odd(c)
  {
    PolyParity();
    hide Plus, Half, Low;
    TopBit(c);
    OddBeyond(Half(c), 15);
    OddPlus(Half(c), POLY, 16);
  }

  lemma AbsorbBitParity(c: bv16, bit: bool)
    ensures Odd(AbsorbBit(c, bit)) == (Odd(c) != bit)
  {
    UnitParity();
    hide OddN, Plus, Shift;
    OddPlus(c, Unit(bit), 16);
    ShiftParity(Plus(c, Unit(bit)));
  }

  lemma {:induction false} BitParity(c: bv16, bits: seq<bool>)
    ensures Odd(BitCrc(c, bits)) == (Odd(c) != (Count(bits) % 2 == 1))
    decreases |bits|
  {
    hide AbsorbBit, Odd;
    if bits != [] {
      AbsorbBitParity(c, bits[0]);
      BitParity(AbsorbBit(c, bits[0]), bits[1..]);
    }
  }

  /** The checksum keeps the parity of seed and message together. */
  lemma Parity(c: bv16, s: seq<byte>)
    ensures Odd(Crc16(c, s)) == (Odd(c) != (Count(Bits(s)) % 2 == 1))
  {
    hide Odd;
    CrcBitByBit(c, s);
    BitParity(c, Bits(s));
  }

  // ------------------------------------------------------------ error detection

  lemma {:induction false} QuietBits(c: bv16, bits: seq<bool>)
    requires forall i :: 0 <= i < |bits| ==> !bits[i]
    ensures BitCrc(c, bits) == ShiftN(c, |bits|)
    decreases |bits|
  {
    hide Plus, Shift;
    if bits != [] {
      PlusZero(c, 0);
      QuietBits(Shift(c), bits[1..]);
    }
  }

  /** All set bits lie within the sixteen positions from p on. */
  predicate Within(bits: seq<bool>, p: nat) {
    forall i :: 0 <= i < |bits| && bits[i] ==> p <= i < p + 16
  }

  /** At least one bit is set, and all set bits lie within sixteen consecutive positions. */
  ghost predicate IsBurst(bits: seq<bool>) {
    true in bits && exists p: nat :: Within(bits, p)
  }

  lemma BurstResidue(before: seq<bool>, burst: seq<bool>, after: seq<bool>)
    requires |burst| <= 16 && true in burst
    requires (forall i :: 0 <= i < |before| ==> !before[i]) && forall i :: 0 <= i < |after| ==> !after[i]
    ensures BitCrc(0, before + (burst + after)) != 0
  {
    hide Plus, ShiftN, BitCrc, Word;
    var residue := BitCrc(0, burst);
    QuietBits(0, before);
    ShiftNZero(0, |before|);
    BitChaining(0, before, burst + after);
    BitChaining(0, burst, after);
    WordZero(burst);
    BitCrcIsShifts(0, burst);
    PlusSelf(Word(burst));
    ShiftNZero(Word(burst), |burst|);
    QuietBits(residue, after);
    ShiftNZero(residue, |after|);
  }

  lemma BurstLeavesResidue(bits: seq<bool>)
    requires IsBurst(bits)
    ensures BitCrc(0, bits) != 0
  {
    hide BitCrc;
    var k :| 0 <= k < |bits| && bits[k];
    var p: nat :| Within(bits, p);
    var q := if p + 16 < |bits| then p + 16 else |bits|;
    assert bits[p..q][k - p];
    BurstResidue(bits[..p], bits[p..q], bits[q..]);
    assert bits == bits[..p] + (bits[p..q] + bits[q..]);
  }

  /** A message with its check bytes, low byte first. */
  function Protected(m: seq<byte>): seq<byte> {
    m + [Lo(Crc16(0, m)), Hi(Crc16(0, m))]
  }

  /** The comparison a receiver makes. */
  predicate Passes(s: seq<byte>)
    requires |s| >= 2
  {
    Word16(s[|s| - 2], s[|s| - 1]) == Crc16(0, s[..|s| - 2])
  }

  /** Comparing the check bytes is the same as asking for a zero register. */
  lemma PassesIsZeroResidue(s: seq<byte>)
    requires |s| >= 2
    ensures Passes(s) <==> Crc16(0, s) == 0
  {
    hide Word16, Crc16;
    var n := |s| - 2;
    Residue(s[..n], s[n], s[n + 1]);
    assert s[..n] + [s[n], s[n + 1]] == s;
  }

  lemma ProtectedResidue(m: seq<byte>)
    ensures Crc16(0, Protected(m)) == 0
  {
    hide Word16, Lo, Hi, Crc16;
    WordSplit(Crc16(0, m));
    Residue(m, Lo(Crc16(0, m)), Hi(Crc16(0, m)));
  }

  /** The flips that get through are exactly those that are code words themselves. */
  lemma UndetectedErrors(m: seq<byte>, e: seq<byte>)
    requires |e| == |m| + 2
    ensures Passes(Xor(Protected(m), e)) <==> Crc16(0, e) == 0
  {
    hide Plus, Crc16, Passes, Lo, Hi;
    PlusZero(0, 0);
    PlusZero(Crc16(0, e), 0);
    ProtectedResidue(m);
    Linearity(0, 0, Protected(m), e);
    PassesIsZeroResidue(Xor(Protected(m), e));
  }

  /** Every burst of up to sixteen bits, and every odd number of flips, is caught. */
  lemma ErrorsDetected(m: seq<byte>, e: seq<byte>)
    requires |e| == |m| + 2
    requires IsBurst(Bits(e)) || Count(Bits(e)) % 2 == 1
    ensures !Passes(Xor(Protected(m), e))
  {
    UndetectedErrors(m, e);
    if IsBurst(Bits(e)) {
      hide Bits;
      CrcBitByBit(0, e);
      BurstLeavesResidue(Bits(e));
    } else {
      Parity(0, e);
    }
  }
}
