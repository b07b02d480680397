/** A reader of exFAT directories, and the proof that it undoes the printing. */
module DirectoryReader {
  import opened Bytes
  import opened Consts
  import opened Directory
  import opened Names
  import opened Sorting
  import opened Trees
  import opened Wrappers

  datatype Record = Record(name: string, isDirectory: bool, times: Times, first: nat, length: nat)

  /** An entry set that is long enough, with a stream entry followed by the right number of name entries. The flags of
      the stream entry say that its clusters are chained in the FAT. */
  predicate SetShape(s: seq<byte>) {
    && |s| >= 3 * ENTRY_SIZE
    && s[ENTRY_SIZE] == 0xC0
    && s[ENTRY_SIZE + 1] == 1
    && s[ENTRY_SIZE + 3] >= 1
    && |s| == ENTRY_SIZE * (2 + CeilDiv(s[ENTRY_SIZE + 3], 15))
    && forall i :: 2 <= i < |s| / ENTRY_SIZE ==> s[ENTRY_SIZE * i] == 0xC1 && s[ENTRY_SIZE * i + 1] == 0
  }

  /** The name units, gathered from 30 bytes of each name entry. */
  function GatheredUnits(s: seq<byte>): (units: seq<u16>)
    requires SetShape(s)
    ensures |units| == s[ENTRY_SIZE + 3]
  {
    BytesToUnits(seq(2 * s[ENTRY_SIZE + 3] as int, j requires 0 <= j < 2 * s[ENTRY_SIZE + 3] as int =>
      s[ENTRY_SIZE * (2 + j / 30) + 2 + j % 30]))
  }

  /** Decodes one entry set; None unless checksum, name hash, lengths and name are right. */
  function ParseSet(s: seq<byte>, table: seq<byte>): Option<Record>
    requires |table| == UPCASE_TABLE_BYTES
  {
    if !SetShape(s) || NumberAt(s, 2, 2) != Checksum(s, {2, 3}, 0x1_0000) then None
    else
      var units := GatheredUnits(s);
      if NumberAt(s, 36, 2) != TableHash(table, units) || NumberAt(s, 40, 8) != NumberAt(s, 56, 8) then None
      else
        match FromUtf16(units)
        case None => None
        case Some(name) =>
          Some(Record(name, NumberAt(s, 4, 2) / 16 % 2 == 1,
            ReadStamps(s[8..22]), NumberAt(s, 52, 4), NumberAt(s, 56, 8)))
  }

  /** Decodes a directory stream up to its end marker, or to its end. */
  function ParseEntries(stream: seq<byte>, table: seq<byte>): Option<seq<Record>>
    requires |table| == UPCASE_TABLE_BYTES
  {
    if |stream| < ENTRY_SIZE || stream[0] == 0 then Some([])
    else if stream[0] in {0x81, 0x82, 0x83} then ParseEntries(stream[ENTRY_SIZE..], table)
    else if stream[0] != 0x85 then None
    else
      var size := ENTRY_SIZE * (stream[1] as int + 1);
      if size > |stream| then None
      else
        match ParseSet(stream[..size], table)
        case None => None
        case Some(record) =>
          match ParseEntries(stream[size..], table)
          case None => None
          case Some(rest) => Some([record] + rest)
  }

  /** The first entry of the given type. */
  function FindEntry(stream: seq<byte>, kind: byte): (r: Option<seq<byte>>)
    ensures r.Some? ==> |r.value| == ENTRY_SIZE
  {
    if |stream| < ENTRY_SIZE || stream[0] == 0 then None
    else if stream[0] == kind then Some(stream[..ENTRY_SIZE])
    else FindEntry(stream[ENTRY_SIZE..], kind)
  }

  // The round trip of one entry set.

  /** A node whose entry set reads back: a name that a file system can deliver, and numbers that fit. */
  predicate Printable(t: Tree) {
    NameFits(t.item.name) && NumbersFit(t)
  }

  function RecordOf(t: Tree): Record {
    Record(t.item.name, t.item.isDirectory, StoredTimes(t.item.times), t.first, DataLength(t))
  }

  lemma PrimaryFields(t: Tree, checksum: nat)
    ensures var p := Primary(t, checksum);
      && p[0] == ENTRY_FILE
      && p[1] == NameEntryCount(|StoredUnits(t.item.name)|) + 1
      && p[2..4] == Le(checksum, 2)
      && p[4..6] == Le(if t.item.isDirectory then 0x10 else 0x20, 2)
      && p[8..22] == StampBytes(t.item.times)
      && p[22..25] == [0x80, 0x80, 0x80]
  {
    hide Le, NameEntryCount, StoredUnits, Zeros;
  }

  lemma StreamFields(t: Tree, strUpper: u16 -> seq<nat>)
    ensures var s := Stream(t, strUpper);
      var units := StoredUnits(t.item.name);
      && s[0] == ENTRY_STREAM && s[1] == 1
      && s[3] == |units|
      && s[4..6] == Le(NameHash(units, strUpper), 2)
      && s[8..16] == Le(DataLength(t), 8)
      && s[20..24] == Le(t.first, 4)
      && s[24..32] == Le(DataLength(t), 8)
  {
    hide Le, NameHash, DataLength, StoredUnits, Zeros;
  }

  /** Slices of a concatenation that lie within one part. */
  lemma PartSlices(p: seq<byte>, s: seq<byte>, n: seq<byte>, from: nat, to: nat)
    requires |p| == |s| == ENTRY_SIZE && from <= to <= ENTRY_SIZE
    ensures (p + s + n)[from..to] == p[from..to]
    ensures (p + s + n)[ENTRY_SIZE + from..ENTRY_SIZE + to] == s[from..to]
  {
  }

  /** A byte string with the stream entry and the name entries of `units`. */
  ghost predicate CarriesName(s: seq<byte>, units: seq<u16>) {
    && 1 <= |units| <= 255
    && |s| == ENTRY_SIZE * (2 + NameEntryCount(|units|))
    && s[ENTRY_SIZE] == 0xC0 && s[ENTRY_SIZE + 1] == 1 && s[ENTRY_SIZE + 3] == |units|
    && s[2 * ENTRY_SIZE..] == NameEntries(units)
  }

  /** The parts of a set carry its name. */
  lemma PartsCarry(p: seq<byte>, stream: seq<byte>, units: seq<u16>)
    requires |p| == |stream| == ENTRY_SIZE && 1 <= |units| <= 255
    requires stream[0] == 0xC0 && stream[1] == 1 && stream[3] == |units|
    ensures CarriesName(p + stream + NameEntries(units), units)
  {
    hide NameEntries, NameEntryCount;
    var s := p + stream + NameEntries(units);
    assert s[ENTRY_SIZE] == stream[0] && s[ENTRY_SIZE + 1] == stream[1] && s[ENTRY_SIZE + 3] == stream[3];
    assert s[2 * ENTRY_SIZE..] == NameEntries(units);
  }

  /** Where the stream entry and the name entries of a set start. */
  lemma SetLayout(t: Tree, strUpper: u16 -> seq<nat>)
    requires NameFits(t.item.name)
    ensures var s := EntrySet(t, strUpper);
      s[0] == 0x85 && s[1] == NameEntryCount(UnitCount(t.item.name)) + 1
      && CarriesName(s, Utf16(t.item.name))
  {
    hide Primary, Stream, NameEntries, CarriesName, UncheckedSet, Checksum, NameEntryCount, Utf16;
    var sum := Checksum(UncheckedSet(t, strUpper), {2, 3}, SET_MODULUS);
    PrimaryFields(t, sum);
    StreamFields(t, strUpper);
    assert StoredUnits(t.item.name) == Utf16(t.item.name);
    PartsCarry(Primary(t, sum), Stream(t, strUpper), Utf16(t.item.name));
  }

  lemma NamesShape(s: seq<byte>, units: seq<u16>)
    requires CarriesName(s, units)
    ensures SetShape(s)
  {
    forall i | 2 <= i < |s| / ENTRY_SIZE ensures s[ENTRY_SIZE * i] == 0xC1 && s[ENTRY_SIZE * i + 1] == 0 {
      NameEntryByte(units, i - 2, 0);
      NameEntryByte(units, i - 2, 1);
      assert s[ENTRY_SIZE * i] == s[2 * ENTRY_SIZE..][ENTRY_SIZE * (i - 2)];
      assert s[ENTRY_SIZE * i + 1] == s[2 * ENTRY_SIZE..][ENTRY_SIZE * (i - 2) + 1];
    }
  }

  /** Byte `m` of the name part of name entry `q`. */
  lemma GatheredByte(s: seq<byte>, units: seq<u16>, q: nat, m: nat)
    requires CarriesName(s, units) && m < 30 && 30 * q + m < 2 * |units|
    ensures ENTRY_SIZE * (2 + q) + 2 + m < |s|
    ensures s[ENTRY_SIZE * (2 + q) + 2 + m] == UnitBytes(units)[30 * q + m]
  {
    hide NameEntries, UnitBytes;
    assert q < NameEntryCount(|units|);
    NameEntryByte(units, q, 2 + m);
    assert s[ENTRY_SIZE * (2 + q) + 2 + m] == s[2 * ENTRY_SIZE..][ENTRY_SIZE * q + 2 + m];
  }

  lemma NamesGathered(s: seq<byte>, units: seq<u16>)
    requires CarriesName(s, units) && SetShape(s)
    ensures GatheredUnits(s) == units
  {
    hide NameEntries, UnitBytes, SetShape, CarriesName, BytesToUnits;
    CarriedCount(s, units);
    var gathered := seq(2 * |units|, j requires 0 <= j < 2 * |units| =>
      GatheredByte(s, units, j / 30, j % 30);
      s[ENTRY_SIZE * (2 + j / 30) + 2 + j % 30]);
    forall j | 0 <= j < 2 * |units| ensures gathered[j] == UnitBytes(units)[j] {
      GatheredByte(s, units, j / 30, j % 30);
      assert 30 * (j / 30) + j % 30 == j;
    }
    assert gathered == UnitBytes(units);
    UnitBytesRoundTrip(units);
  }

  lemma CarriedCount(s: seq<byte>, units: seq<u16>)
    requires CarriesName(s, units)
    ensures |s| >= 2 * ENTRY_SIZE && s[ENTRY_SIZE + 3] == |units|
  {
  }

  /** Patching the checksum in changes nothing but its two bytes. */
  lemma OnlyChecksumDiffers(t: Tree, strUpper: u16 -> seq<nat>)
    ensures var a, b := UncheckedSet(t, strUpper), EntrySet(t, strUpper);
      |a| == |b| && forall k: nat :: k < |a| && k !in {2, 3} ==> a[k] == b[k]
  {
    hide Le, StoredUnits, StampBytes, Stream, NameEntries, NameEntryCount, Checksum;
    var unchecked := UncheckedSet(t, strUpper);
    var p0, p := Primary(t, 0), Primary(t, Checksum(unchecked, {2, 3}, SET_MODULUS));
    assert forall k: nat :: k < ENTRY_SIZE && k !in {2, 3} ==> p0[k] == p[k];
  }

  /** The stored checksum verifies after it has been patched in. */
  lemma SetChecksumVerifies(t: Tree, strUpper: u16 -> seq<nat>)
    ensures NumberAt(EntrySet(t, strUpper), 2, 2) == Checksum(EntrySet(t, strUpper), {2, 3}, 0x1_0000)
  {
    OnlyChecksumDiffers(t, strUpper);
    hide Primary, Stream, NameEntries, UncheckedSet, Checksum, StoredUnits, NumberAt, Le;
    var sum := Checksum(UncheckedSet(t, strUpper), {2, 3}, SET_MODULUS);
    ChecksumSkips(UncheckedSet(t, strUpper), EntrySet(t, strUpper), {2, 3}, SET_MODULUS);
    PrimaryFields(t, sum);
    PartSlices(Primary(t, sum), Stream(t, strUpper), NameEntries(StoredUnits(t.item.name)), 2, 4);
    PowersOf256();
    NumberAtLe(EntrySet(t, strUpper), 2, 2, sum);
  }

  lemma SetNumbers(t: Tree, strUpper: u16 -> seq<nat>)
    requires Printable(t)
    ensures var s := EntrySet(t, strUpper);
      && NumberAt(s, 4, 2) == (if t.item.isDirectory then 0x10 else 0x20)
      && s[8..22] == StampBytes(t.item.times) && s[22..25] == [0x80, 0x80, 0x80]
      && s[33] == 1
      && NumberAt(s, 36, 2) == NameHash(Utf16(t.item.name), strUpper)
      && NumberAt(s, 40, 8) == NumberAt(s, 56, 8) == DataLength(t)
      && NumberAt(s, 52, 4) == t.first
  {
    hide Primary, Stream, NameEntries, UncheckedSet, NumberAt, Le;
    var sum := Checksum(UncheckedSet(t, strUpper), {2, 3}, SET_MODULUS);
    var p, s, n := Primary(t, sum), Stream(t, strUpper), NameEntries(StoredUnits(t.item.name));
    var e := EntrySet(t, strUpper);
    PrimaryFields(t, sum);
    StreamFields(t, strUpper);
    PowersOf256();
    PartSlices(p, s, n, 4, 6);
    PartSlices(p, s, n, 8, 22);
    PartSlices(p, s, n, 22, 25);
    assert e[33] == s[1];
    PartSlices(p, s, n, 8, 16);
    PartSlices(p, s, n, 20, 24);
    PartSlices(p, s, n, 24, 32);
    assert NameHash(Utf16(t.item.name), strUpper) < 0x1_0000;
    NumberAtLe(e, 4, 2, if t.item.isDirectory then 0x10 else 0x20);
    NumberAtLe(e, 36, 2, NameHash(Utf16(t.item.name), strUpper));
    NumberAtLe(e, 40, 8, DataLength(t));
    NumberAtLe(e, 52, 4, t.first);
    NumberAtLe(e, 56, 8, DataLength(t));
  }

  /** All reserved bytes of the first two entries of a set are zero. */
  lemma SetReserved(t: Tree, strUpper: u16 -> seq<nat>)
    ensures var s := EntrySet(t, strUpper);
      && s[6] == s[7] == 0 && (forall k :: 25 <= k < 32 ==> s[k] == 0)
      && s[34] == s[38] == s[39] == 0 && (forall k :: 48 <= k < 52 ==> s[k] == 0)
  {
    hide Le, NameHash, DataLength, StoredUnits, NameEntryCount, StampBytes, NameEntries, UncheckedSet, Checksum;
    var p, s := Primary(t, Checksum(UncheckedSet(t, strUpper), {2, 3}, SET_MODULUS)), Stream(t, strUpper);
    assert forall k :: 0 <= k < 32 ==> EntrySet(t, strUpper)[k] == p[k];
    assert forall k :: 0 <= k < 32 ==> EntrySet(t, strUpper)[32 + k] == s[k];
  }

  /** So are those of the special entries. */
  lemma SpecialReserved(x: Special)
    ensures forall k :: 1 <= k < 20 ==> BitmapEntry(x)[k] == 0
    ensures forall k :: 1 <= k < 4 || 8 <= k < 20 ==> UpcaseEntry(x)[k] == 0
  {
    hide Le;
  }

  /** The stored hash is the checksum of the upper-cased name. */
  lemma StoredHash(t: Tree, uppers: seq<u16>, strUpper: u16 -> seq<nat>)
    requires Printable(t) && |uppers| == UnitCount(t.item.name)
    requires forall i :: 0 <= i < |uppers| ==> Uppers(Utf16(t.item.name)[i], uppers[i], strUpper)
    ensures NumberAt(EntrySet(t, strUpper), 36, 2) == Checksum(UnitBytes(uppers), {}, 0x1_0000)
  {
    hide Utf16, EntrySet, NumberAt, Checksum, UnitBytes, Uppers, NameHash, Printable, StampBytes;
    SetNumbers(t, strUpper);
    NameHashOf(Utf16(t.item.name), uppers, strUpper);
  }

  lemma SetRoundTrip(t: Tree, strUpper: u16 -> seq<nat>)
    requires Printable(t)
    ensures ParseSet(EntrySet(t, strUpper), UpcaseTable(strUpper)) == Some(RecordOf(t))
  {
    hide EntrySet, SetShape, CarriesName, NumberAt, Checksum, GatheredUnits, UpcaseTable, TableHash, NameFits,
      StampBytes, ReadStamps;
    SetLayout(t, strUpper);
    NamesShape(EntrySet(t, strUpper), Utf16(t.item.name));
    NamesGathered(EntrySet(t, strUpper), Utf16(t.item.name));
    SetChecksumVerifies(t, strUpper);
    SetNumbers(t, strUpper);
    TableHashIsNameHash(Utf16(t.item.name), strUpper);
    Utf16RoundTrip(t.item.name);
    StampsRoundTrip(t.item.times);
  }

  // The round trip of a directory.

  function Records(children: seq<Tree>): (r: seq<Record>)
    ensures |r| == |children|
  {
    seq(|children|, i requires 0 <= i < |children| => RecordOf(children[i]))
  }

  ghost predicate AllPrintable(children: seq<Tree>) {
    forall t :: t in children ==> Printable(t)
  }

  /** One entry set in front of a stream is one record in front of the result. */
  lemma ParseOne(t: Tree, rest: seq<byte>, strUpper: u16 -> seq<nat>)
    requires Printable(t)
    ensures var table := UpcaseTable(strUpper);
      var r := ParseEntries(rest, table);
      ParseEntries(EntrySet(t, strUpper) + rest, table) == if r.Some? then Some([RecordOf(t)] + r.value) else None
  {
    var s := EntrySet(t, strUpper);
    SetLayout(t, strUpper);
    SetRoundTrip(t, strUpper);
    hide EntrySet, UpcaseTable, ParseSet, CarriesName, NameFits;
    assert (s + rest)[..|s|] == s && (s + rest)[|s|..] == rest;
    assert (s + rest)[0] == s[0] && (s + rest)[1] == s[1];
  }

  lemma {:induction false} ParseSets(children: seq<Tree>, rest: seq<byte>, strUpper: u16 -> seq<nat>)
    requires AllPrintable(children)
    ensures var table := UpcaseTable(strUpper);
      var r := ParseEntries(rest, table);
      ParseEntries(EntrySets(children, strUpper) + rest, table)
      == if r.Some? then Some(Records(children) + r.value) else None
  {
    hide ParseEntries, EntrySet, EntrySets, UpcaseTable, Printable, AllPrintable, RecordOf;
    SetsUnfold(children, strUpper);
    if children == [] {
      assert EntrySets(children, strUpper) + rest == rest;
      var r := ParseEntries(rest, UpcaseTable(strUpper));
      assert r.Some? ==> Records(children) + r.value == r.value;
    } else {
      ParseSets(children[1..], rest, strUpper);
      ParseFirst(children, rest, strUpper);
      var r := ParseEntries(rest, UpcaseTable(strUpper));
      if r.Some? {
        assert [RecordOf(children[0])] + (Records(children[1..]) + r.value) == Records(children) + r.value;
      }
    }
  }

  lemma SetsUnfold(children: seq<Tree>, strUpper: u16 -> seq<nat>)
    requires AllPrintable(children)
    ensures children == [] ==> EntrySets(children, strUpper) == []
    ensures children != [] ==>
      && Printable(children[0]) && AllPrintable(children[1..])
      && EntrySets(children, strUpper) == EntrySet(children[0], strUpper) + EntrySets(children[1..], strUpper)
  {
  }

  lemma ParseFirst(children: seq<Tree>, rest: seq<byte>, strUpper: u16 -> seq<nat>)
    requires children != [] && Printable(children[0])
    ensures var table := UpcaseTable(strUpper);
      var r := ParseEntries(EntrySets(children[1..], strUpper) + rest, table);
      ParseEntries(EntrySets(children, strUpper) + rest, table)
      == if r.Some? then Some([RecordOf(children[0])] + r.value) else None
  {
    hide ParseEntries, EntrySet, UpcaseTable, Printable, RecordOf;
    var s, others := EntrySet(children[0], strUpper), EntrySets(children[1..], strUpper);
    ParseOne(children[0], others + rest, strUpper);
    assert EntrySets(children, strUpper) + rest == s + (others + rest);
  }

  lemma SetSizeMultiple(t: Tree, strUpper: u16 -> seq<nat>)
    ensures |EntrySet(t, strUpper)| % ENTRY_SIZE == 0
  {
    hide EntrySet;
  }

  lemma ParseShort(stream: seq<byte>, table: seq<byte>)
    requires |table| == UPCASE_TABLE_BYTES && |stream| >= ENTRY_SIZE
    requires stream[0] == 0x85 && ENTRY_SIZE * (stream[1] as int + 1) > |stream|
    ensures ParseEntries(stream, table) == None
  {
  }

  lemma ParseBroken(t: Tree, keep: nat, strUpper: u16 -> seq<nat>)
    requires Printable(t) && keep < |EntrySet(t, strUpper)| && keep % ENTRY_SIZE == 0
    ensures var r := ParseEntries(EntrySet(t, strUpper)[..keep], UpcaseTable(strUpper));
      r.Some? ==> |r.value| == 0
  {
    var s := EntrySet(t, strUpper);
    if keep >= ENTRY_SIZE {
      SetLayout(t, strUpper);
      hide EntrySet, UpcaseTable, ParseEntries;
      assert s[..keep][0] == s[0] && s[..keep][1] == s[1];
      ParseShort(s[..keep], UpcaseTable(strUpper));
    }
  }

  /** A stream that breaks off inside the entry sets yields fewer records, or none. */
  lemma {:induction false} ParseTruncated(children: seq<Tree>, keep: nat, strUpper: u16 -> seq<nat>)
    requires AllPrintable(children)
    requires keep < |EntrySets(children, strUpper)| && keep % ENTRY_SIZE == 0
    ensures var r := ParseEntries(EntrySets(children, strUpper)[..keep], UpcaseTable(strUpper));
      r.Some? ==> |r.value| < |children|
  {
    hide Printable, AllPrintable, EntrySets, EntrySet, UpcaseTable, ParseEntries, RecordOf;
    SetsUnfold(children, strUpper);
    var s, others := EntrySet(children[0], strUpper), EntrySets(children[1..], strUpper);
    SetSizeMultiple(children[0], strUpper);
    if |s| <= keep {
      ParseTruncated(children[1..], keep - |s|, strUpper);
      ParseOne(children[0], others[..keep - |s|], strUpper);
      assert EntrySets(children, strUpper)[..keep] == s + others[..keep - |s|];
    } else {
      ParseBroken(children[0], keep, strUpper);
      assert EntrySets(children, strUpper)[..keep] == s[..keep];
    }
  }

  lemma ParseZeros(n: nat, table: seq<byte>)
    requires |table| == UPCASE_TABLE_BYTES
    ensures ParseEntries(Zeros(n), table) == Some([])
  {
  }

  lemma ParseSkips(e: seq<byte>, rest: seq<byte>, table: seq<byte>)
    requires |table| == UPCASE_TABLE_BYTES && |e| == ENTRY_SIZE
    requires e[0] in {0x81, 0x82, 0x83}
    ensures ParseEntries(e + rest, table) == ParseEntries(rest, table)
  {
    assert (e + rest)[ENTRY_SIZE..] == rest;
  }

  /** The lead of a directory: nothing, or the three special entries of the root. */
  predicate LeadOk(lead: seq<byte>, x: Special) {
    lead == [] || lead == SpecialEntries(x)
  }

  lemma SpecialTypes(x: Special)
    ensures LabelEntry(x.volumeLabel)[0] == 0x83
    ensures BitmapEntry(x)[0] == 0x81 && BitmapEntry(x)[1] == 0
    ensures UpcaseEntry(x)[0] == 0x82
  {
  }

  lemma SpecialParts(x: Special, rest: seq<byte>)
    ensures SpecialEntries(x) + rest == LabelEntry(x.volumeLabel) + (BitmapEntry(x) + (UpcaseEntry(x) + rest))
  {
    hide LabelEntry, BitmapEntry, UpcaseEntry;
  }

  lemma ParseSkipsLead(lead: seq<byte>, x: Special, rest: seq<byte>, table: seq<byte>)
    requires |table| == UPCASE_TABLE_BYTES && LeadOk(lead, x)
    ensures ParseEntries(lead + rest, table) == ParseEntries(rest, table)
  {
    SpecialTypes(x);
    SpecialParts(x, rest);
    hide LabelEntry, BitmapEntry, UpcaseEntry, ParseEntries, SpecialEntries;
    var a, b, c := LabelEntry(x.volumeLabel), BitmapEntry(x), UpcaseEntry(x);
    ParseSkips(c, rest, table);
    ParseSkips(b, c + rest, table);
    ParseSkips(a, b + (c + rest), table);
    assert lead == [] ==> lead + rest == rest;
  }

  lemma SortedPrintable(children: seq<Tree>)
    requires AllPrintable(children)
    ensures AllPrintable(Sort(children, ByName))
  {
    forall t | t in Sort(children, ByName) ensures Printable(t) {
      assert t in multiset(Sort(children, ByName));
    }
  }

  /** The first `keep` bytes of a printed directory. */
  lemma DirectoryPrefix(t: Tree, lead: seq<byte>, keep: nat, strUpper: u16 -> seq<nat>)
    requires keep <= |DirectoryBytes(t, lead, strUpper)|
    ensures var body := DirectoryBody(t, lead, strUpper);
      DirectoryBytes(t, lead, strUpper)[..keep]
      == if |body| <= keep then body + Zeros(keep - |body|) else body[..keep]
  {
    hide DirectoryBody;
  }

  lemma LeadSize(lead: seq<byte>, x: Special, keep: nat)
    requires LeadOk(lead, x) && keep >= |lead| && keep % ENTRY_SIZE == 0
    ensures (keep - |lead|) % ENTRY_SIZE == 0
  {
    hide SpecialEntries;
  }

  lemma CutStream(children: seq<Tree>, lead: seq<byte>, x: Special, keep: nat, strUpper: u16 -> seq<nat>)
    requires AllPrintable(children) && LeadOk(lead, x)
    requires |lead| <= keep < |lead + EntrySets(children, strUpper)| && keep % ENTRY_SIZE == 0
    ensures var r := ParseEntries((lead + EntrySets(children, strUpper))[..keep], UpcaseTable(strUpper));
      r.Some? ==> |r.value| < |children|
  {
    hide ParseEntries, UpcaseTable, EntrySets, AllPrintable, LeadOk;
    var sets := EntrySets(children, strUpper);
    var cut := keep - |lead|;
    LeadSize(lead, x, keep);
    assert (lead + sets)[..keep] == lead + sets[..cut];
    ParseSkipsLead(lead, x, sets[..cut], UpcaseTable(strUpper));
    ParseTruncated(children, cut, strUpper);
  }

  /** Reading the first `keep` bytes of a printed directory gives exactly its sorted children
      when every entry set lies within them, and cannot give as many records otherwise. */
  lemma DirectoryRoundTrip(t: Tree, lead: seq<byte>, x: Special, keep: nat, strUpper: u16 -> seq<nat>)
    requires AllPrintable(t.children) && LeadOk(lead, x)
    requires |lead| <= keep <= |DirectoryBytes(t, lead, strUpper)| && keep % ENTRY_SIZE == 0
    ensures var r := ParseEntries(DirectoryBytes(t, lead, strUpper)[..keep], UpcaseTable(strUpper));
      if |DirectoryBody(t, lead, strUpper)| <= keep then r == Some(Records(Sort(t.children, ByName)))
      else r.Some? ==> |r.value| < |t.children|
  {
    hide ParseEntries, UpcaseTable, EntrySets, AllPrintable, DirectoryBytes, Sort, Records, Zeros, LeadOk,
      WholeClusters;
    DirectoryPrefix(t, lead, keep, strUpper);
    SortedPrintable(t.children);
    var sorted := Sort(t.children, ByName);
    var sets := EntrySets(sorted, strUpper);
    if |lead + sets| <= keep {
      FullStream(sorted, lead, x, keep - |lead + sets|, strUpper);
      assert lead + sets + Zeros(keep - |lead + sets|) == lead + (sets + Zeros(keep - |lead + sets|));
    } else {
      CutStream(sorted, lead, x, keep, strUpper);
    }
  }

  lemma FullStream(children: seq<Tree>, lead: seq<byte>, x: Special, padding: nat, strUpper: u16 -> seq<nat>)
    requires AllPrintable(children) && LeadOk(lead, x)
    ensures ParseEntries(lead + (EntrySets(children, strUpper) + Zeros(padding)), UpcaseTable(strUpper))
      == Some(Records(children))
  {
    hide ParseEntries, UpcaseTable, EntrySets, AllPrintable, LeadOk, Records;
    ParseSkipsLead(lead, x, EntrySets(children, strUpper) + Zeros(padding), UpcaseTable(strUpper));
    ParseSets(children, Zeros(padding), strUpper);
    ParseZeros(padding, UpcaseTable(strUpper));
    assert Records(children) + [] == Records(children);
  }

  // The special entries of the root directory.

  lemma FindStep(e: seq<byte>, rest: seq<byte>, kind: byte)
    requires |e| == ENTRY_SIZE && e[0] != 0
    ensures FindEntry(e + rest, kind) == if e[0] == kind then Some(e) else FindEntry(rest, kind)
  {
    assert (e + rest)[..ENTRY_SIZE] == e && (e + rest)[ENTRY_SIZE..] == rest;
  }

  lemma FindSpecials(x: Special, rest: seq<byte>)
    ensures FindEntry(SpecialEntries(x) + rest, 0x83) == Some(LabelEntry(x.volumeLabel))
    ensures FindEntry(SpecialEntries(x) + rest, 0x81) == Some(BitmapEntry(x)) && BitmapEntry(x)[1] == 0
    ensures FindEntry(SpecialEntries(x) + rest, 0x82) == Some(UpcaseEntry(x))
  {
    var a, b, c := LabelEntry(x.volumeLabel), BitmapEntry(x), UpcaseEntry(x);
    SpecialTypes(x);
    SpecialParts(x, rest);
    hide LabelEntry, BitmapEntry, UpcaseEntry, FindEntry, SpecialEntries;
    FindStep(a, b + (c + rest), 0x83);
    FindStep(a, b + (c + rest), 0x81);
    FindStep(a, b + (c + rest), 0x82);
    FindStep(b, c + rest, 0x81);
    FindStep(b, c + rest, 0x82);
    FindStep(c, rest, 0x82);
  }

  lemma SpecialNumbers(x: Special)
    requires x.bitmapCluster < 0x1_0000_0000 && x.upcaseCluster < 0x1_0000_0000 && x.upcaseChecksum < 0x1_0000_0000
    requires x.bitmapLength < 0x1_0000_0000_0000_0000 && x.upcaseLength < 0x1_0000_0000_0000_0000
    ensures NumberAt(BitmapEntry(x), 20, 4) == x.bitmapCluster
    ensures NumberAt(BitmapEntry(x), 24, 8) == x.bitmapLength
    ensures NumberAt(UpcaseEntry(x), 4, 4) == x.upcaseChecksum
    ensures NumberAt(UpcaseEntry(x), 20, 4) == x.upcaseCluster
    ensures NumberAt(UpcaseEntry(x), 24, 8) == x.upcaseLength
  {
    PowersOf256();
    var u := UpcaseEntry(x);
    assert u[4..8] == Le(x.upcaseChecksum, 4) && u[20..24] == Le(x.upcaseCluster, 4);
    assert u[24..32] == Le(x.upcaseLength, 8);
    NumberAtLe(BitmapEntry(x), 20, 4, x.bitmapCluster);
    NumberAtLe(BitmapEntry(x), 24, 8, x.bitmapLength);
    NumberAtLe(UpcaseEntry(x), 4, 4, x.upcaseChecksum);
    NumberAtLe(UpcaseEntry(x), 20, 4, x.upcaseCluster);
    NumberAtLe(UpcaseEntry(x), 24, 8, x.upcaseLength);
  }

  /** The first eleven units of a label are stored, and zeros behind them. */
  lemma LabelStored(volumeLabel: string)
    ensures var e, units := LabelEntry(volumeLabel), Utf16(volumeLabel);
      && e[0] == 0x83 && e[1] == Min(11, |units|)
      && (forall k :: 0 <= k < e[1] ==> e[2 + 2 * k] as int + 256 * e[3 + 2 * k] as int == units[k])
      && (forall k :: 2 + 2 * e[1] as int <= k < 32 ==> e[k] == 0)
  {
    hide Utf16, UnitBytes;
    var e, units := LabelEntry(volumeLabel), Utf16(volumeLabel);
    forall k | 0 <= k < e[1] ensures e[2 + 2 * k] as int + 256 * e[3 + 2 * k] as int == units[k] {
      UnitBytesAt(units, k);
    }
  }

  /** A label of at most 11 units reads back. */
  lemma LabelRoundTrip(volumeLabel: string)
    requires UnitCount(volumeLabel) <= 11
    ensures var e := LabelEntry(volumeLabel);
      e[1] <= 11 && FromUtf16(BytesToUnits(e[2..2 + 2 * e[1] as int])) == Some(volumeLabel)
  {
    var e := LabelEntry(volumeLabel);
    assert e[2..2 + 2 * e[1] as int] == UnitBytes(Utf16(volumeLabel));
    UnitBytesRoundTrip(Utf16(volumeLabel));
    Utf16RoundTrip(volumeLabel);
  }
}
