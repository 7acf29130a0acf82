/** Packed phone numbers as text, and the terminal id that is decoded from one packet and encoded into the next. */
module Phone {
  import opened Crc

  const ZERO_CHAR: byte := 0x30
  const NUL: byte := 0
  const END_NIBBLE: byte := 0x0e

  function High(b: byte): byte { b >> 4 }

  function Low4(b: byte): byte { b & 0x0f }

  function ToChar(nibble: byte): byte { nibble + ZERO_CHAR }

  function Nibble(num: seq<byte>, j: nat): byte
    requires j < 2 * |num|
  {
    if j % 2 == 0 then High(num[j / 2]) else Low4(num[j / 2])
  }

  /** The nibbles of a packed number, high nibble first. */
  function Nibbles(num: seq<byte>): (r: seq<byte>)
    ensures |r| == 2 * |num|
  {
    seq(2 * |num|, j requires 0 <= j < 2 * |num| => Nibble(num, j))
  }

  lemma NibbleAt(num: seq<byte>, i: nat)
    requires i < |num|
    ensures Nibbles(num)[2 * i] == High(num[i]) && Nibbles(num)[2 * i + 1] == Low4(num[i])
  {
    hide High, Low4;
    assert (2 * i) / 2 == i && (2 * i + 1) / 2 == i;
  }

  /** The characters before the end marker, as far as there is room. */
  function Text(nibbles: seq<byte>, room: nat): (r: seq<byte>)
    ensures |r| <= room && |r| <= |nibbles|
  {
    if nibbles == [] || room == 0 || nibbles[0] == END_NIBBLE then [] else
    [ToChar(nibbles[0])] + Text(nibbles[1..], room - 1)
  }

  /** The buffer after decoding: the text, a NUL, and whatever was there before. */
  function Decoded(buffer: seq<byte>, num: seq<byte>): (r: seq<byte>)
    requires |buffer| >= 2
    ensures |r| == |buffer|
  {
    var t := Text(Nibbles(num), |buffer| - 1);
    t + [NUL] + buffer[|t| + 1..]
  }

  /** After j characters the buffer holds the start of the text and is otherwise as before. */
  ghost predicate Progress(before: seq<byte>, now: seq<byte>, n: seq<byte>, j: nat) {
    && j < |now| == |before| && j <= |n|
    && now[j..] == before[j..]
    && Text(n, |now| - 1) == now[..j] + Text(n[j..], |now| - 1 - j)
  }

  lemma ProgressStep(before: seq<byte>, now: seq<byte>, n: seq<byte>, j: nat)
    requires Progress(before, now, n, j)
    requires j < |n| && j < |now| - 1 && n[j] != END_NIBBLE
    ensures Progress(before, now[j := ToChar(n[j])], n, j + 1)
  {
    hide ToChar;
    var later := now[j := ToChar(n[j])];
    assert n[j..][1..] == n[j + 1..];
    assert later[..j + 1] == now[..j] + [ToChar(n[j])];
    assert later[j + 1..] == before[j + 1..];
  }

  /** Nothing more is written: the number, the room, or the digits before the end marker are used up. */
  predicate Finished(size: nat, n: seq<byte>, j: nat) {
    j == |n| || j == size - 1 || (j < |n| && n[j] == END_NIBBLE)
  }

  lemma ProgressEnds(before: seq<byte>, now: seq<byte>, num: seq<byte>, j: nat)
    requires |before| >= 2
    requires Progress(before, now, Nibbles(num), j) && Finished(|now|, Nibbles(num), j)
    ensures now[j := NUL] == Decoded(before, num)
  {
    hide Nibbles;
    var n := Nibbles(num);
    assert Text(n[j..], |now| - 1 - j) == [];
    assert now[..j] + [] == now[..j];
    assert now[j + 1..] == now[j..][1..] == before[j..][1..] == before[j + 1..];
    assert now[j := NUL] == now[..j] + [NUL] + now[j + 1..];
  }

  /** One character stored through the moving pointer. */
  method Store(buffer: array<byte>, j: nat, c: byte)
    requires j < buffer.Length
    modifies buffer
    ensures buffer[..] == old(buffer[..])[j := c]
  {
    buffer[j] := c;
  }

  /** One digit: stop at the end marker, or store it and stop when the buffer is full. */
  method PutDigit(buffer: array<byte>, j: nat, digit: byte, ghost before: seq<byte>, ghost n: seq<byte>)
    returns (k: nat, stop: bool)
    requires Progress(before, buffer[..], n, j)
    requires j < |n| && j < buffer.Length - 1 && digit == n[j]
    modifies buffer
    ensures Progress(before, buffer[..], n, k)
    ensures if stop then Finished(buffer.Length, n, k) else k == j + 1 < buffer.Length - 1
  {
    if digit == END_NIBBLE {
      return j, true;
    }
    ProgressStep(before, buffer[..], n, j);
    hide Progress, ToChar;
    Store(buffer, j, ToChar(digit));
    k := j + 1;
    stop := k >= buffer.Length - 1;
  }

  method PhoneNumToString(buffer: array<byte>, num: seq<byte>)
    requires buffer.Length >= 2
    modifies buffer
    ensures buffer[..] == Decoded(old(buffer[..]), num)
  {
    ghost var before, n := buffer[..], Nibbles(num);
    var i, j, stop := 0, 0, false;
    hide *;
    NothingWritten(before, n);
    while i < |num| && !stop
      invariant 0 <= i <= |num|
      invariant Progress(before, buffer[..], n, j)
      invariant if stop then Finished(buffer.Length, n, j) else j == 2 * i < buffer.Length - 1
      decreases |num| - i, !stop
    {
      NibbleAt(num, i);
      j, stop := PutDigit(buffer, j, High(num[i]), before, n);
      if !stop {
        j, stop := PutDigit(buffer, j, Low4(num[i]), before, n);
        i := i + 1;
      }
    }
    FinishedAtEnd(buffer.Length, n);
    ProgressEnds(before, buffer[..], num, j);
    Store(buffer, j, NUL);
  }

  lemma NothingWritten(before: seq<byte>, n: seq<byte>)
    requires |before| >= 2
    ensures Progress(before, before, n, 0)
  {
    assert n[0..] == n;
  }

  lemma FinishedAtEnd(size: nat, n: seq<byte>)
    ensures Finished(size, n, |n|)
  {
  }

  const NIBBLES: seq<byte> := [0, 1, 2, 3, 4, 5, 6, 7, 8, 9, 10, 11, 12, 13, 14, 15]

  /** The characters that nibbles are shown as. */
  lemma CharacterTable(n: nat)
    requires n < 16
    ensures ToChar(NIBBLES[n]) as int == "0123456789:;<=>?"[n] as int
  {
  }

  // ------------------------------------------------------------ the terminal id

  type IdText = t: seq<byte> | |t| == 11 witness seq(11, _ => 0)

  function Digit(c: byte): byte { c - ZERO_CHAR }

  function Pack(c: byte, d: byte): byte { (Digit(c) << 4) | Digit(d) }

  /** The five id bytes put in front of outgoing data. */
  function EncodeId(text: IdText): (r: seq<byte>)
    ensures |r| == 5
  {
    [Pack(text[0], text[1]), Pack(text[2], text[3]), Pack(text[4], text[5]), Pack(text[6], text[7]), Pack(text[8], text[9])]
  }

  function DecodeId(text: IdText, id: seq<byte>): IdText
    requires |id| == 5
  {
    Decoded(text, id)
  }

  /** The characters of an id without end marker: upper half of each byte first, then the lower half. */
  lemma IdCharacters(text: IdText, id: seq<byte>, k: nat)
    requires |id| == 5 && Clean(id) && k < 5
    ensures var d := DecodeId(text, id);
      d[2 * k] == (id[k] >> 4) + 0x30 && d[2 * k + 1] == (id[k] & 0x0f) + 0x30 && d[10] == 0
  {
    hide ToChar, Text, Nibbles, Clean;
    var n := Nibbles(id);
    TextAt(n, 10);
    TextEnd(id);
    NibbleAt(id, k);
    CleanText(id);
    CharacterOf(id[k] >> 4);
    CharacterOf(id[k] & 0x0f);
  }

  lemma CleanText(id: seq<byte>)
    requires |id| == 5 && Clean(id)
    ensures |Text(Nibbles(id), 10)| == 10
  {
    hide ToChar, High, Low4, Text, Nibbles;
    TextEnd(id);
    forall i | 0 <= i < 5
      ensures High(id[i]) != END_NIBBLE && Low4(id[i]) != END_NIBBLE
    {
      assert !HasEndNibble(id[i]);
    }
  }

  lemma CharacterOf(nibble: byte)
    ensures ToChar(nibble) == nibble + 0x30
  {
  }

  /** Every position holds NUL or a character that decoding can write. */
  predicate Decodable(text: IdText) {
    forall i :: 0 <= i < 11 ==> text[i] == NUL || ZERO_CHAR <= text[i] <= 0x3f
  }

  predicate HasEndNibble(b: byte) { High(b) == END_NIBBLE || Low4(b) == END_NIBBLE }

  predicate Clean(id: seq<byte>) {
    forall i :: 0 <= i < |id| ==> !HasEndNibble(id[i])
  }

  lemma PackExact(b: byte)
    ensures Pack(ToChar(High(b)), ToChar(Low4(b))) == b
  {
  }

  /** A cut-off number never encodes back to a byte with the end marker in the same place. */
  lemma PackCut(b: byte, c: byte)
    requires c == NUL || ZERO_CHAR <= c <= 0x3f
    ensures High(b) == END_NIBBLE ==> Pack(NUL, c) != b
    ensures Low4(b) == END_NIBBLE ==> Pack(ToChar(High(b)), NUL) != b
  {
  }

  lemma CharRange(b: byte)
    ensures ZERO_CHAR <= ToChar(High(b)) <= 0x3f && ZERO_CHAR <= ToChar(Low4(b)) <= 0x3f
  {
  }

  /** Position by position: text up to the first end marker, NUL there, old characters behind. */
  lemma {:induction false} TextAt(n: seq<byte>, room: nat)
    requires |n| <= room
    ensures var t := Text(n, room);
      && (forall i :: 0 <= i < |t| ==> n[i] != END_NIBBLE && t[i] == ToChar(n[i]))
      && (|t| < |n| ==> n[|t|] == END_NIBBLE)
  {
    hide ToChar;
    if n != [] && n[0] != END_NIBBLE {
      TextAt(n[1..], room - 1);
      assert forall i :: 1 <= i < |n| ==> n[i] == n[1..][i - 1];
    }
  }

  lemma DecodeKeepsDecodable(text: IdText, id: seq<byte>)
    requires |id| == 5 && Decodable(text)
    ensures Decodable(DecodeId(text, id))
  {
    hide ToChar, High, Low4, Text, Nibbles;
    var n := Nibbles(id);
    TextAt(n, 10);
    forall k | 0 <= k < 5 ensures ZERO_CHAR <= ToChar(n[2 * k]) <= 0x3f && ZERO_CHAR <= ToChar(n[2 * k + 1]) <= 0x3f {
      NibbleAt(id, k);
      CharRange(id[k]);
    }
    var d := DecodeId(text, id);
    forall i | 0 <= i < 11 ensures d[i] == NUL || ZERO_CHAR <= d[i] <= 0x3f {
      assert i == 2 * (i / 2) || i == 2 * (i / 2) + 1;
    }
  }

  /** The decoded text ends at the first end marker, or is complete if there is none. */
  lemma TextEnd(id: seq<byte>)
    requires |id| == 5
    ensures var m := |Text(Nibbles(id), 10)|;
      && (m == 10 ==> Clean(id))
      && (m < 10 ==> if m % 2 == 0 then High(id[m / 2]) == END_NIBBLE else Low4(id[m / 2]) == END_NIBBLE)
  {
    hide ToChar, High, Low4, Text, Nibbles;
    var n := Nibbles(id);
    var m := |Text(n, 10)|;
    TextAt(n, 10);
    if m < 10 {
      NibbleAt(id, m / 2);
      assert m == 2 * (m / 2) || m == 2 * (m / 2) + 1;
    } else {
      forall k | 0 <= k < 5 ensures !HasEndNibble(id[k]) {
        NibbleAt(id, k);
      }
    }
  }

  /** Decoding an id and encoding the text gives the same id if and only if it has no end marker. */
  lemma IdEcho(text: IdText, id: seq<byte>)
    requires |id| == 5 && Decodable(text)
    ensures EncodeId(DecodeId(text, id)) == id <==> Clean(id)
  {
    hide ToChar, High, Low4, Pack, Text, Nibbles;
    var n := Nibbles(id);
    var m := |Text(n, 10)|;
    var d := DecodeId(text, id);
    TextAt(n, 10);
    TextEnd(id);
    if m == 10 {
      forall k | 0 <= k < 5 ensures Pack(d[2 * k], d[2 * k + 1]) == id[k] {
        NibbleAt(id, k);
        PackExact(id[k]);
      }
    } else {
      var k := m / 2;
      NibbleAt(id, k);
      PackCut(id[k], text[2 * k + 1]);
      assert HasEndNibble(id[k]);
      assert EncodeId(d)[k] == Pack(d[2 * k], d[2 * k + 1]);
    }
  }
}
