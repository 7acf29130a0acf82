/** The area code table: one flag of four bits for every area code, written two to a byte, read with three-bit masks. */
module AreaCodes {
  import opened Basics
  import opened Crc
  import opened Lcd

  /** What the numbering plan report says about an area code. */
  datatype Row = Row(
    inService: bool, listedCountry: bool, noCountry: bool, premium: bool, tollFree: bool, assignable: bool, n11: bool)

  const NOT_AVAILABLE: byte := 0
  const SPECIAL: byte := 2
  const DOMESTIC: byte := 4
  const INTERNATIONAL: byte := 6

  /** The rules in their order: later ones override earlier ones. */
  function RowFlag(row: Row, index: nat): byte {
    if index == 800 then NOT_AVAILABLE
    else if !row.inService then if row.assignable || !row.n11 then SPECIAL else NOT_AVAILABLE
    else if row.tollFree then SPECIAL
    else if row.premium then NOT_AVAILABLE
    else if row.noCountry then SPECIAL
    else if row.listedCountry then DOMESTIC
    else INTERNATIONAL
  }

  function AreaFlag(report: map<nat, Row>, index: nat): byte {
    if index in report then RowFlag(report[index], index) else NOT_AVAILABLE
  }

  function AreaFlags(report: map<nat, Row>): (f: seq<byte>)
    ensures |f| == 800
  {
    seq(800, k requires 0 <= k < 800 => AreaFlag(report, FIRST + k))
  }

  method FlagForRow(row: Row, index: nat) returns (flag: byte)
    ensures flag == RowFlag(row, index)
  {
    if row.inService {
      flag := if row.listedCountry then DOMESTIC else INTERNATIONAL;
      if row.noCountry {
        flag := SPECIAL;
      }
      if row.premium {
        flag := NOT_AVAILABLE;
      }
      if row.tollFree {
        flag := SPECIAL;
      }
    } else if row.assignable || !row.n11 {
      flag := SPECIAL;
    } else {
      flag := NOT_AVAILABLE;
    }
    if index == 800 {
      flag := NOT_AVAILABLE;
    }
  }

  lemma AreaFlagAt(report: map<nat, Row>, index: nat)
    requires FIRST <= index < LIMIT
    ensures AreaFlags(report)[index - FIRST] == AreaFlag(report, index)
  {
    assert FIRST + (index - FIRST) == index;
  }

  /** The flag of an area code, told from what became of it: domestic, foreign, unassigned or invalid. */
  lemma FlagMeans(report: map<nat, Row>, index: nat)
    requires FIRST <= index < LIMIT
    ensures var flag := AreaFlags(report)[index - FIRST];
      if index !in report then flag == 0 else
      var row := report[index];
      var plain := row.inService && !row.premium && !row.tollFree && !row.noCountry && index != 800;
      && (flag == 4 <==> plain && row.listedCountry)
      && (flag == 6 <==> plain && !row.listedCountry)
      && (flag == 2 <==>
        index != 800 && if row.inService then row.tollFree || (row.noCountry && !row.premium) else !row.n11 || row.assignable)
      && (flag == 0 <==>
        index == 800 || if row.inService then row.premium && !row.tollFree else row.n11 && !row.assignable)
  {
    AreaFlagAt(report, index);
  }

  /** The table is written with the loop of the compressed form, without a header. */
  method GenerateNpa(report: map<nat, Row>) returns (file: Option<seq<byte>>)
    ensures file == Pack(2, AreaFlags(report))
  {
    hide PackFrom, Prefixed;
    ghost var flags := AreaFlags(report);
    var a: seq<byte>, stflag: bv16 := [], 0;
    PrefixNothing(Pack(2, flags));
    for index := FIRST to LIMIT
      invariant Prefixed(a, PackFrom(2, stflag, flags, index - FIRST)) == Pack(2, flags)
    {
      var flag := NOT_AVAILABLE;
      if index in report {
        flag := FlagForRow(report[index], index);
      }
      assert flag == AreaFlag(report, index);
      AreaFlagAt(report, index);
      var out, ok;
      stflag, out, ok := PackFlag(2, stflag, flag, index, flags, a);
      if !ok {
        return None;
      }
      a := a + out;
    }
    PackedAll(2, stflag, flags, a);
    file := Some(a);
  }

  /** The flags as the dump program reads them: of each half byte the lower three bits. */
  function Read(file: seq<byte>): Option<seq<byte>> {
    if |file| != 400 then None
    else Some(seq(800, k requires 0 <= k < 800 => ReadOne(file[k / 2], k % 2)))
  }

  function ReadOne(c: byte, k: nat): byte { if k == 0 then Masked(c, 0x70, 4) else Masked(c, 0x07, 0) }

  method DumpAreaCodes(file: seq<byte>) returns (flags: Option<seq<byte>>)
    ensures flags == Read(file)
  {
    if |file| != 400 {
      return None;
    }
    hide Masked;
    var codes: seq<byte> := [];
    for i := 0 to 400
      invariant codes == Read(file).value[..2 * i]
    {
      var c := file[i];
      var flags0 := Masked(c, 0x70, 4);
      var flags1 := Masked(c, 0x07, 0);
      assert Read(file).value[2 * i] == flags0 && Read(file).value[2 * i + 1] == flags1;
      codes := codes + [flags0, flags1];
    }
    assert Read(file).value[..2 * 400] == Read(file).value;
    flags := Some(codes);
  }

  predicate ThreeBits(flag: byte) { flag < 8 }

  predicate FourBits(flag: byte) { flag < 16 }

  lemma LowerThree(c: byte, k: nat)
    requires k < 2
    ensures ReadOne(c, k) == Unpack(2, c, k) <==> ThreeBits(Unpack(2, c, k))
    ensures ThreeBits(ReadOne(c, k))
  {
  }

  lemma FourBitsInRange(flag: byte)
    ensures FourBits(flag) <==> InRange(2, flag)
  {
  }

  /** Flags of four bits come back exactly if the top bit of every one is clear. */
  lemma AreaRoundTrip(flags: seq<byte>)
    requires |flags| == 800 && forall k :: 0 <= k < 800 ==> FourBits(flags[k])
    ensures var file := Pack(2, flags);
      && file.Some? && |file.value| == 400
      && (Read(file.value) == Some(flags) <==> forall k :: 0 <= k < 800 ==> ThreeBits(flags[k]))
  {
    forall k | 0 <= k < 800
      ensures InRange(2, flags[k])
    {
      FourBitsInRange(flags[k]);
    }
    hide PackFrom, ReadOne, Unpack, InRange, FourBits, ThreeBits;
    PackFits(2, flags, 0);
    var b := Pack(2, flags).value;
    forall k | 0 <= k < 800
      ensures Read(b).value[k] == flags[k] <==> ThreeBits(flags[k])
    {
      PackUnpacks(2, flags, 0, k);
      LowerThree(b[k / 2], k % 2);
    }
    assert forall k :: 0 <= k < 800 && ThreeBits(flags[k]) ==> Read(b).value[k] == flags[k];
    if forall k :: 0 <= k < 800 ==> ThreeBits(flags[k]) {
      assert Read(b).value == flags;
    }
  }

  lemma RowFlagSmall(row: Row, index: nat)
    ensures ThreeBits(RowFlag(row, index)) && FourBits(RowFlag(row, index))
  {
  }

  lemma AreaFlagSmall(report: map<nat, Row>, index: nat)
    ensures ThreeBits(AreaFlag(report, index)) && FourBits(AreaFlag(report, index))
  {
    if index in report {
      RowFlagSmall(report[index], index);
    }
  }

  /** Every table generated from a report is read back as it was meant. */
  lemma GeneratedReadBack(report: map<nat, Row>)
    ensures var file := Pack(2, AreaFlags(report));
      file.Some? && Read(file.value) == Some(AreaFlags(report))
  {
    forall k | 0 <= k < 800
      ensures ThreeBits(AreaFlags(report)[k]) && FourBits(AreaFlags(report)[k])
    {
      AreaFlagAt(report, FIRST + k);
      AreaFlagSmall(report, FIRST + k);
    }
    hide AreaFlags, Pack, Read, ThreeBits, FourBits, AreaFlag;
    AreaRoundTrip(AreaFlags(report));
  }
}
