/** Packed decimal numbers with 0xa for zero, written from text and read back as text ended by a NUL. */
module Bcd {
  import opened Basics
  import opened Crc
  import opened Phone

  // ------------------------------------------------------------ text to packed digits

  function HighHalf(c: byte): byte { if c == ZERO_CHAR then 0xa0 else (c - ZERO_CHAR) << 4 }

  function LowHalf(c: byte): byte { if c == ZERO_CHAR then 0x0a else c - ZERO_CHAR }

  function Merge(b: byte, half: byte): byte { b | half }

  /** How many characters a buffer takes: twice its length, in eight bits. */
  function Limit(size: nat): nat { 2 * size % 256 }

  /** The k-th byte once the first n characters are in. */
  function PackedByte(text: seq<byte>, n: nat, k: nat): byte
    requires n <= |text|
  {
    if 2 * k >= n then 0
    else if 2 * k + 1 >= n then HighHalf(text[2 * k])
    else Merge(HighHalf(text[2 * k]), LowHalf(text[2 * k + 1]))
  }

  function Packed(text: seq<byte>, n: nat, size: nat): (r: seq<byte>)
    requires n <= |text|
    ensures |r| == size
  {
    seq(size, k requires 0 <= k < size => PackedByte(text, n, k))
  }

  /** The buffer after a number was stored, and the count of characters stored. */
  function Stored(text: seq<byte>, size: nat): seq<byte> { Packed(text, Min(|text|, Limit(size)), size) }

  lemma PackedNext(text: seq<byte>, n: nat, size: nat)
    requires n < |text| && n / 2 < size
    ensures var was := Packed(text, n, size);
      Packed(text, n + 1, size) ==
        was[n / 2 := if n % 2 == 0 then HighHalf(text[n]) else Merge(was[n / 2], LowHalf(text[n]))]
  {
    hide HighHalf, LowHalf, Merge;
    var was, now := Packed(text, n, size), Packed(text, n + 1, size);
    forall k | 0 <= k < size && k != n / 2
      ensures now[k] == was[k]
    {
    }
  }

  /** A text without NUL is stored; the buffer is cleared first. */
  method StringToBcdA(text: seq<byte>, buffer: array<byte>) returns (i: nat)
    requires buffer.Length <= 255
    modifies buffer
    ensures buffer[..] == Stored(text, buffer.Length)
    ensures i == Min(|text|, Limit(buffer.Length))
  {
    hide HighHalf, LowHalf, Merge, Packed;
    forall k | 0 <= k < buffer.Length {
      buffer[k] := 0;
    }
    ghost var size := buffer.Length;
    NothingPacked(text, size, buffer[..]);
    i := 0;
    while i < Min(|text|, Limit(buffer.Length))
      invariant i <= Min(|text|, Limit(buffer.Length))
      invariant buffer[..] == Packed(text, i, size)
    {
      LimitFits(size, i);
      PackedNext(text, i, size);
      if i % 2 == 0 {
        Store(buffer, i / 2, HighHalf(text[i]));
      } else {
        Store(buffer, i / 2, Merge(buffer[i / 2], LowHalf(text[i])));
      }
      i := i + 1;
    }
  }

  lemma NothingPacked(text: seq<byte>, size: nat, zeros: seq<byte>)
    requires |zeros| == size && forall k :: 0 <= k < size ==> zeros[k] == 0
    ensures zeros == Packed(text, 0, size)
  {
  }

  lemma LimitFits(size: nat, i: nat)
    requires i < Limit(size)
    ensures i / 2 < size
  {
  }

  // ------------------------------------------------------------ packed digits to text

  /** The character of a packed digit; zero ends the text. */
  function PnLut(nibble: byte): byte {
    if nibble == 0 then NUL
    else if nibble < 0x0a then nibble + ZERO_CHAR
    else if nibble == 0x0a then ZERO_CHAR
    else nibble + 0x37
  }

  /** The lookup table of packed digits: NUL for zero, and the digit zero for 0xa. */
  lemma LookupTable(n: nat)
    requires n < 16
    ensures PnLut(NIBBLES[n]) as int == "\01234567890BCDEF"[n] as int
  {
  }

  /** The characters written, NULs within included. */
  function Chars(num: seq<byte>, room: nat): (r: seq<byte>)
    ensures |r| == Min(2 * |num|, room)
  {
    seq(Min(2 * |num|, room), j requires 0 <= j < Min(2 * |num|, room) => PnLut(Nibble(num, j)))
  }

  /** The buffer after the characters and a NUL were written. */
  function Shown(buffer: seq<byte>, num: seq<byte>): (r: seq<byte>)
    requires |buffer| >= 2
    ensures |r| == |buffer|
  {
    var t := Chars(num, |buffer| - 1);
    t + [NUL] + buffer[|t| + 1..]
  }

  /** After j characters the buffer holds the start of the text and is otherwise as before. */
  ghost predicate Writing(before: seq<byte>, now: seq<byte>, num: seq<byte>, j: nat) {
    && 2 <= |before| == |now|
    && j <= Min(2 * |num|, |before| - 1)
    && now == Chars(num, |before| - 1)[..j] + before[j..]
  }

  lemma WritingOn(before: seq<byte>, now: seq<byte>, num: seq<byte>, j: nat)
    requires Writing(before, now, num, j) && j < Min(2 * |num|, |before| - 1)
    ensures Writing(before, now[j := PnLut(Nibble(num, j))], num, j + 1)
  {
    hide PnLut, Nibble;
    var t := Chars(num, |before| - 1);
    assert t[..j + 1] == t[..j] + [t[j]];
  }

  lemma WritingEnds(before: seq<byte>, now: seq<byte>, num: seq<byte>, j: nat)
    requires Writing(before, now, num, j) && j == Min(2 * |num|, |before| - 1)
    ensures now[j := NUL] == Shown(before, num)
  {
    hide Chars;
    var t := Chars(num, |before| - 1);
    assert t[..j] == t;
    assert now[j := NUL] == t + [NUL] + before[j + 1..];
  }

  lemma WritingStarts(before: seq<byte>, num: seq<byte>)
    requires |before| >= 2
    ensures Writing(before, before, num, 0)
  {
    assert Chars(num, |before| - 1)[..0] + before[0..] == before;
  }

  method CallscrnNumToString(buffer: array<byte>, num: seq<byte>)
    requires buffer.Length >= 2
    modifies buffer
    ensures buffer[..] == Shown(old(buffer[..]), num)
  {
    hide PnLut, Nibble, Writing, High, Low4, Shown;
    ghost var before := buffer[..];
    var i, j := 0, 0;
    WritingStarts(before, num);
    while i < |num| && j < buffer.Length - 1
      invariant i <= |num| && j <= Min(2 * |num|, buffer.Length - 1)
      invariant j == 2 * i || j == buffer.Length - 1
      invariant Writing(before, buffer[..], num, j)
    {
      HighLow(num, i);
      WritingOn(before, buffer[..], num, j);
      Store(buffer, j, PnLut(High(num[i])));
      j := j + 1;
      if j < buffer.Length - 1 {
        WritingOn(before, buffer[..], num, j);
        Store(buffer, j, PnLut(Low4(num[i])));
        j := j + 1;
      }
      i := i + 1;
    }
    WritingEnds(before, buffer[..], num, j);
    Store(buffer, j, NUL);
  }

  lemma HighLow(num: seq<byte>, i: nat)
    requires i < |num|
    ensures Nibble(num, 2 * i) == High(num[i]) && Nibble(num, 2 * i + 1) == Low4(num[i])
  {
    hide High, Low4;
    assert 2 * i / 2 == i && (2 * i + 1) / 2 == i;
  }

  /** What a reader takes from a buffer: everything before the first NUL. */
  function UpToNul(s: seq<byte>): seq<byte> {
    if s == [] || s[0] == NUL then [] else [s[0]] + UpToNul(s[1..])
  }

  lemma {:induction false} ReadText(s: seq<byte>, t: seq<byte>)
    requires |t| < |s| && s[..|t|] == t && s[|t|] == NUL && forall k :: 0 <= k < |t| ==> t[k] != NUL
    ensures UpToNul(s) == t
  {
    if t != [] {
      assert s[0] == t[0] && s[1..][..|t| - 1] == t[1..];
      ReadText(s[1..], t[1..]);
      assert [t[0]] + t[1..] == t;
    }
  }

  // ------------------------------------------------------------ there and back

  predicate DigitChar(c: byte) { ZERO_CHAR <= c <= 0x39 }

  lemma TwoDigits(c: byte, d: byte)
    requires DigitChar(c) && DigitChar(d)
    ensures PnLut(High(Merge(HighHalf(c), LowHalf(d)))) == c && PnLut(Low4(Merge(HighHalf(c), LowHalf(d)))) == d
    ensures PnLut(High(HighHalf(c))) == c && PnLut(Low4(HighHalf(c))) == NUL
    ensures PnLut(High(0)) == NUL && PnLut(Low4(0)) == NUL && c != NUL
  {
  }

  /** The j-th character shown for a stored number: the digit stored there, or the end of the text. */
  lemma StoredCharacter(text: seq<byte>, n: nat, size: nat, j: nat)
    requires n <= |text| && j < 2 * size && forall k :: 0 <= k < |text| ==> DigitChar(text[k])
    ensures PnLut(Nibble(Packed(text, n, size), j)) == if j < n then text[j] else NUL
  {
    hide HighHalf, LowHalf, Merge, PnLut, High, Low4, DigitChar;
    var i := j / 2;
    var b := Packed(text, n, size);
    HighLow(b, i);
    DigitZero();
    assert j == 2 * i || j == 2 * i + 1;
    var c := if 2 * i < n then text[2 * i] else ZERO_CHAR;
    var d := if 2 * i + 1 < n then text[2 * i + 1] else ZERO_CHAR;
    TwoDigits(c, d);
  }

  lemma DigitZero()
    ensures DigitChar(ZERO_CHAR)
  {
  }

  /**
   * A number of digits, stored and shown in a large enough buffer, reads back as itself exactly if it is no longer
   * than what the buffer takes; up to 127 bytes that is two digits a byte, zeros and odd lengths included.
   */
  lemma BcdRoundTrip(text: seq<byte>, size: nat, buffer: seq<byte>)
    requires size <= 255 && |buffer| > 2 * size && |buffer| >= 2
    requires forall k :: 0 <= k < |text| ==> DigitChar(text[k])
    ensures UpToNul(Shown(buffer, Stored(text, size))) == text <==> |text| <= Limit(size)
    ensures Limit(size) == if size <= 127 then 2 * size else 2 * size - 256
  {
    var n := Min(|text|, Limit(size));
    var num := Stored(text, size);
    var shown := Shown(buffer, num);
    LimitSmall(size);
    hide PnLut, Nibble, DigitChar, Packed, UpToNul, Limit;
    forall j | 0 <= j < 2 * size
      ensures shown[j] == if j < n then text[j] else NUL
    {
      StoredCharacter(text, n, size, j);
    }
    forall k | 0 <= k < n
      ensures text[k] != NUL
    {
      DigitNotNul(text[k]);
    }
    assert shown[..n] == text[..n];
    ReadText(shown, text[..n]);
  }

  lemma LimitSmall(size: nat)
    requires size <= 255
    ensures Limit(size) == if size <= 127 then 2 * size else 2 * size - 256
  {
  }

  lemma DigitNotNul(c: byte)
    requires DigitChar(c)
    ensures c != NUL
  {
  }
}
