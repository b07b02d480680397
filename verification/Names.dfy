/** File names: Unicode strings, their UTF-16 code units, and their order. */
module Names {
  import opened Bytes
  import opened Consts
  import opened Wrappers

  /** UTF-16 code units of one scalar value. */
  function UnitsOf(c: char): (units: seq<u16>) {
    var code := c as int;
    if code < 0x1_0000 then [code]
    else [0xD800 + (code - 0x1_0000) / 0x400, 0xDC00 + (code - 0x1_0000) % 0x400]
  }

  function Utf16(name: string): seq<u16> {
    if name == "" then [] else UnitsOf(name[0]) + Utf16(name[1..])
  }

  function JoinSurrogates(high: u16, low: u16): char
    requires 0xD800 <= high < 0xDC00 <= low < 0xE000
  {
    (0x1_0000 + (high as int - 0xD800) * 0x400 + (low as int - 0xDC00)) as char
  }

  /** The string that the units encode, unless a surrogate stands alone. */
  function FromUtf16(units: seq<u16>): Option<string> {
    if units == [] then Some("")
    else if 0xD800 <= units[0] < 0xDC00 then
      if |units| >= 2 && 0xDC00 <= units[1] < 0xE000 then
        match FromUtf16(units[2..])
        case None => None
        case Some(rest) =>
          Some([JoinSurrogates(units[0], units[1])] + rest)
      else None
    else if 0xDC00 <= units[0] < 0xE000 then None
    else
      match FromUtf16(units[1..])
      case None => None
      case Some(rest) => Some([units[0] as char] + rest)
  }

  lemma {:induction false} Utf16RoundTrip(name: string)
    ensures FromUtf16(Utf16(name)) == Some(name)
  {
    if name != "" {
      Utf16RoundTrip(name[1..]);
      var units := Utf16(name);
      var head := UnitsOf(name[0]);
      assert units[|head|..] == Utf16(name[1..]);
      assert name == [name[0]] + name[1..];
    }
  }

  /** `name.encode("utf-16-le")`. */
  function UnitBytes(units: seq<u16>): (b: seq<byte>)
    ensures |b| == 2 * |units|
  {
    seq(2 * |units|, k requires 0 <= k < 2 * |units| =>
      if k % 2 == 0 then units[k / 2] % 256 else units[k / 2] / 256)
  }

  /** The units that a byte string of even length holds. */
  function BytesToUnits(b: seq<byte>): (units: seq<u16>)
    ensures |units| == |b| / 2
  {
    seq(|b| / 2, k requires 0 <= k < |b| / 2 => Pair(b[2 * k], b[2 * k + 1]))
  }

  lemma UnitBytesRoundTrip(units: seq<u16>)
    ensures BytesToUnits(UnitBytes(units)) == units
  {
    hide Pair, UnitBytes, BytesToUnits;
    forall k | 0 <= k < |units| ensures BytesToUnits(UnitBytes(units))[k] == units[k] {
      BytesToUnitsAt(UnitBytes(units), k);
      UnitBytesAt(units, k);
      PairSplit(units[k]);
    }
  }

  lemma BytesToUnitsAt(b: seq<byte>, k: nat)
    requires k < |b| / 2
    ensures BytesToUnits(b)[k] == Pair(b[2 * k], b[2 * k + 1])
  {
    hide Pair;
  }

  lemma UnitBytesAt(units: seq<u16>, k: nat)
    requires k < |units|
    ensures UnitBytes(units)[2 * k] == units[k] % 256 && UnitBytes(units)[2 * k + 1] == units[k] / 256
  {
    assert 2 * k % 2 == 0 && 2 * k / 2 == k && (2 * k + 1) % 2 == 1 && (2 * k + 1) / 2 == k;
  }

  lemma PairSplit(unit: u16)
    ensures Pair(unit % 256, unit / 256) == unit
  {
  }

  function UnitCount(name: string): nat {
    |Utf16(name)|
  }

  /** Python's order on strings: by code points, first difference decides. */
  predicate NameLe(a: string, b: string) {
    a == "" || (b != "" && (a[0] < b[0] || (a[0] == b[0] && NameLe(a[1..], b[1..]))))
  }

  lemma {:induction false} NameLeTotal(a: string, b: string)
    ensures NameLe(a, b) || NameLe(b, a)
  {
    if a != "" && b != "" {
      NameLeTotal(a[1..], b[1..]);
    }
  }

  lemma {:induction false} NameLeTransitive(a: string, b: string, c: string)
    requires NameLe(a, b) && NameLe(b, c)
    ensures NameLe(a, c)
  {
    if a != "" && a[0] == b[0] == c[0] {
      NameLeTransitive(a[1..], b[1..], c[1..]);
    }
  }

  /** The first position at which two strings differ, or at which one of them ends. */
  ghost predicate FirstDifference(a: string, b: string, k: nat) {
    && k <= |a| && k <= |b| && a[..k] == b[..k]
    && (k < |a| && k < |b| ==> a[k] != b[k])
  }

  /** The string that ends there, or has the smaller code point there, comes first. */
  lemma {:induction false} NameLeIff(a: string, b: string, k: nat)
    requires FirstDifference(a, b, k)
    ensures NameLe(a, b) <==> k == |a| || (k < |b| && a[k] as int < b[k] as int)
  {
    if k > 0 {
      assert a[0] == a[..k][0] && b[0] == b[..k][0];
      assert a[1..][..k - 1] == a[..k][1..] && b[1..][..k - 1] == b[..k][1..];
      NameLeIff(a[1..], b[1..], k - 1);
    }
  }

  /** exFAT-compatible upper case of one UTF-16 unit, given Python's `str.upper` of one character. */
  function SimpleUpper(unit: u16, strUpper: u16 -> seq<nat>): u16 {
    var upper := strUpper(unit);
    if |upper| == 1 && upper[0] <= 0xFFFF then upper[0] else unit
  }

  /** The uncompressed table of all 65536 units. */
  function UpcaseTable(strUpper: u16 -> seq<nat>): (table: seq<byte>)
    ensures |table| == UPCASE_TABLE_BYTES
  {
    UnitBytes(seq(0x1_0000, unit requires 0 <= unit < 0x1_0000 => SimpleUpper(unit, strUpper)))
  }

  /** The bytes that the name hash runs over. */
  function UpperBytes(units: seq<u16>, strUpper: u16 -> seq<nat>): (b: seq<byte>)
    ensures |b| == 2 * |units|
  {
    UnitBytes(seq(|units|, k requires 0 <= k < |units| => SimpleUpper(units[k], strUpper)))
  }

  function NameHash(units: seq<u16>, strUpper: u16 -> seq<nat>): nat {
    Checksum(UpperBytes(units, strUpper), {}, 0x1_0000)
  }

  /** A reader's upper case: a lookup in the table it found on the volume. */
  function TableUpper(table: seq<byte>, unit: u16): u16
    requires |table| == UPCASE_TABLE_BYTES
  {
    Pair(table[2 * unit], table[2 * unit + 1])
  }

  function TableHash(table: seq<byte>, units: seq<u16>): nat
    requires |table| == UPCASE_TABLE_BYTES
  {
    Checksum(UnitBytes(seq(|units|, k requires 0 <= k < |units| => TableUpper(table, units[k]))), {}, 0x1_0000)
  }

  /** The table holds the upper case of every unit. */
  lemma TableUpperAt(unit: u16, strUpper: u16 -> seq<nat>)
    ensures TableUpper(UpcaseTable(strUpper), unit) == SimpleUpper(unit, strUpper)
  {
    hide SimpleUpper;
    var table, upper := UpcaseTable(strUpper), SimpleUpper(unit, strUpper);
    assert table[2 * unit] == upper % 256 && table[2 * unit + 1] == upper / 256;
  }

  /** The hash that the builder stores is the one a reader recomputes through the table. */
  lemma TableHashIsNameHash(units: seq<u16>, strUpper: u16 -> seq<nat>)
    ensures TableHash(UpcaseTable(strUpper), units) == NameHash(units, strUpper)
  {
    hide UpcaseTable, TableUpper, SimpleUpper, UnitBytes, Checksum;
    var table := UpcaseTable(strUpper);
    forall k | 0 <= k < |units| ensures TableUpper(table, units[k]) == SimpleUpper(units[k], strUpper) {
      TableUpperAt(units[k], strUpper);
    }
    assert seq(|units|, k requires 0 <= k < |units| => TableUpper(table, units[k]))
        == seq(|units|, k requires 0 <= k < |units| => SimpleUpper(units[k], strUpper));
  }

  /** `upper` is the upper case of a unit: what `str.upper` makes of it, if that is one unit, else the unit. */
  ghost predicate Uppers(unit: u16, upper: u16, strUpper: u16 -> seq<nat>) {
    || strUpper(unit) == [upper]
    || (upper == unit && forall other: u16 :: strUpper(unit) != [other])
  }

  /** Exactly that one is stored in the table, low byte first. */
  lemma TableUppers(unit: u16, upper: u16, strUpper: u16 -> seq<nat>)
    ensures var table := UpcaseTable(strUpper);
      Uppers(unit, upper, strUpper) <==> table[2 * unit] as int + 256 * table[2 * unit + 1] as int == upper
  {
    hide UpcaseTable;
    TableUpperAt(unit, strUpper);
    var all := strUpper(unit);
    assert forall other: u16 :: all == [other] ==> all[0] == other;
    assert |all| == 1 ==> all == [all[0]];
  }

  /** The hash is the checksum of the upper-cased units, two bytes each: names that differ in case only share it. */
  lemma NameHashOf(units: seq<u16>, uppers: seq<u16>, strUpper: u16 -> seq<nat>)
    requires |units| == |uppers| && forall i :: 0 <= i < |units| ==> Uppers(units[i], uppers[i], strUpper)
    ensures NameHash(units, strUpper) == Checksum(UnitBytes(uppers), {}, 0x1_0000)
  {
    hide SimpleUpper, UnitBytes, Checksum, Uppers;
    forall i | 0 <= i < |units| ensures SimpleUpper(units[i], strUpper) == uppers[i] {
      UpperIs(units[i], uppers[i], strUpper);
    }
    assert seq(|units|, k requires 0 <= k < |units| => SimpleUpper(units[k], strUpper)) == uppers;
  }

  lemma UpperIs(unit: u16, upper: u16, strUpper: u16 -> seq<nat>)
    requires Uppers(unit, upper, strUpper)
    ensures SimpleUpper(unit, strUpper) == upper
  {
    hide UpcaseTable;
    TableUppers(unit, upper, strUpper);
    TableUpperAt(unit, strUpper);
  }

  lemma NameHashStep(units: seq<u16>, i: nat, strUpper: u16 -> seq<nat>)
    requires i < |units|
    ensures var all := UpperBytes(units, strUpper);
      var upper := SimpleUpper(units[i], strUpper);
      var before := Checksum(all[..2 * i], {}, 0x1_0000);
      Checksum(all[..2 * (i + 1)], {}, 0x1_0000)
      == Round(Round(before, upper % 256, 0x1_0000), upper / 256, 0x1_0000)
  {
    var all := UpperBytes(units, strUpper);
    var upper := SimpleUpper(units[i], strUpper);
    assert all[2 * i] == upper % 256 && all[2 * i + 1] == upper / 256;
    hide UpperBytes, Checksum, Round;
    assert all[..2 * i + 1] == all[..2 * i] + [upper % 256];
    assert all[..2 * (i + 1)] == all[..2 * i + 1] + [upper / 256];
    ChecksumAppend(all[..2 * i], upper % 256, {}, 0x1_0000);
    ChecksumAppend(all[..2 * i + 1], upper / 256, {}, 0x1_0000);
  }

  /** The loop of the name hash: each unit is upper-cased, then its two bytes are folded in. */
  method ComputeNameHash(units: seq<u16>, strUpper: u16 -> seq<nat>) returns (value: nat)
    ensures value == NameHash(units, strUpper)
  {
    hide UpperBytes, Checksum, SimpleUpper;
    value := 0;
    ghost var all := UpperBytes(units, strUpper);
    ChecksumEmpty(all[..0], {}, 0x1_0000);
    for i := 0 to |units|
      invariant value == Checksum(all[..2 * i], {}, 0x1_0000)
    {
      var upper := SimpleUpper(units[i], strUpper);
      NameHashStep(units, i, strUpper);
      value := (value % 2 * 0x8000 + value / 2 + upper % 256) % 0x1_0000;
      value := (value % 2 * 0x8000 + value / 2 + upper / 256) % 0x1_0000;
    }
    assert all[..|all|] == all;
  }
}
