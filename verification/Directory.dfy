/** Directory entry sets as the builder prints them (sections 6.3.3, 7.4, 7.6 and 7.7 of the exFAT specification). */
module Directory {
  import opened Bytes
  import opened Consts
  import opened Names
  import opened Sorting
  import opened Trees

  const ENTRY_SIZE: int := 32
  const SET_MODULUS: nat := 0x1_0000

  /** The name as stored: at most 255 UTF-16 units. */
  function StoredUnits(name: string): (units: seq<u16>)
    ensures |units| == Min(255, UnitCount(name)) && units <= Utf16(name)
  {
    var units := Utf16(name);
    if |units| <= 255 then units else units[..255]
  }

  /** File name entries of a set; an empty name still has one. */
  function NameEntryCount(units: nat): (n: nat)
    ensures n >= 1
  {
    Max(1, CeilDiv(units, 15))
  }

  function DataLength(t: Tree): nat {
    if t.item.isDirectory then t.count * CLUSTER_SIZE else t.item.size
  }

  /** The 0x85 entry. */
  function Primary(t: Tree, checksum: nat): (s: seq<byte>)
    ensures |s| == ENTRY_SIZE
  {
    [ENTRY_FILE, NameEntryCount(|StoredUnits(t.item.name)|) + 1]
    + Le(checksum, 2)
    + Le(if t.item.isDirectory then 0x10 else 0x20, 2)
    + [0, 0]
    + StampBytes(t.item.times)
    + [0x80, 0x80, 0x80]
    + Zeros(7)
  }

  /** The 0xC0 entry; its flags byte says that the cluster chain is in the FAT. */
  function Stream(t: Tree, strUpper: u16 -> seq<nat>): (s: seq<byte>)
    ensures |s| == ENTRY_SIZE
  {
    var units := StoredUnits(t.item.name);
    [ENTRY_STREAM, 1, 0, |units|]
    + Le(NameHash(units, strUpper), 2)
    + [0, 0]
    + Le(DataLength(t), 8)
    + Zeros(4)
    + Le(t.first, 4)
    + Le(DataLength(t), 8)
  }

  /** The 0xC1 entries: two leading bytes, then 15 units each, zero-padded. */
  function NameEntries(units: seq<u16>): (s: seq<byte>)
    ensures |s| == ENTRY_SIZE * NameEntryCount(|units|)
  {
    var encoded := UnitBytes(units);
    seq(ENTRY_SIZE * NameEntryCount(|units|), k requires 0 <= k =>
      var within := k % ENTRY_SIZE;
      var at := 30 * (k / ENTRY_SIZE) + within - 2;
      if within == 0 then ENTRY_FILENAME
      else if within == 1 then 0
      else if at < |encoded| then encoded[at]
      else 0)
  }

  /** Byte `m` of name entry `i`. */
  lemma NameEntryByte(units: seq<u16>, i: nat, m: nat)
    requires i < NameEntryCount(|units|) && m < ENTRY_SIZE
    ensures NameEntries(units)[ENTRY_SIZE * i + m] ==
      if m == 0 then ENTRY_FILENAME
      else if m == 1 then 0
      else if 30 * i + m - 2 < 2 * |units| then UnitBytes(units)[30 * i + m - 2]
      else 0
  {
    assert (ENTRY_SIZE * i + m) / ENTRY_SIZE == i && (ENTRY_SIZE * i + m) % ENTRY_SIZE == m;
  }

  function UncheckedSet(t: Tree, strUpper: u16 -> seq<nat>): seq<byte> {
    Primary(t, 0) + Stream(t, strUpper) + NameEntries(StoredUnits(t.item.name))
  }

  /** The whole entry set, with its checksum patched into bytes 2 and 3. */
  function EntrySet(t: Tree, strUpper: u16 -> seq<nat>): (s: seq<byte>)
    ensures |s| == SetSize(t)
  {
    Primary(t, Checksum(UncheckedSet(t, strUpper), {2, 3}, SET_MODULUS))
    + Stream(t, strUpper) + NameEntries(StoredUnits(t.item.name))
  }

  function SetSize(t: Tree): nat {
    ENTRY_SIZE * (2 + NameEntryCount(|StoredUnits(t.item.name)|))
  }

  function EntrySets(children: seq<Tree>, strUpper: u16 -> seq<nat>): seq<byte> {
    if children == [] then []
    else EntrySet(children[0], strUpper) + EntrySets(children[1..], strUpper)
  }

  /** The printed children are the given ones, in ascending order of their names. */
  lemma ListingSorted(children: seq<Tree>)
    ensures var listing := Sort(children, ByName);
      && multiset(listing) == multiset(children)
      && forall i, j :: 0 <= i < j < |listing| ==> NameLe(listing[i].item.name, listing[j].item.name)
  {
    forall a: Tree, b: Tree ensures ByName(a, b) || ByName(b, a) {
      NameLeTotal(a.item.name, b.item.name);
    }
    forall a: Tree, b: Tree, c: Tree | ByName(a, b) && ByName(b, c) ensures ByName(a, c) {
      NameLeTransitive(a.item.name, b.item.name, c.item.name);
    }
    hide NameLe, Sort;
    SortAscending(children, ByName);
    var listing := Sort(children, ByName);
    assert forall i, j :: 0 <= i < j < |listing| ==> ByName(listing[i], listing[j]);
  }

  /** What the three special entries of the root directory announce. */
  datatype Special = Special(
    volumeLabel: string,
    bitmapCluster: nat,
    bitmapLength: nat,
    upcaseCluster: nat,
    upcaseLength: nat,
    upcaseChecksum: nat)

  function LabelEntry(volumeLabel: string): (s: seq<byte>)
    ensures |s| == ENTRY_SIZE
  {
    var encoded := UnitBytes(Utf16(volumeLabel));
    var kept := Min(|encoded|, 22);
    [ENTRY_VOLUME_LABEL, Min(|encoded| / 2, 11)] + encoded[..kept] + Zeros(30 - kept)
  }

  function BitmapEntry(x: Special): (s: seq<byte>)
    ensures |s| == ENTRY_SIZE
  {
    [ENTRY_BITMAP, 0] + Zeros(18) + Le(x.bitmapCluster, 4) + Le(x.bitmapLength, 8)
  }

  function UpcaseEntry(x: Special): (s: seq<byte>)
    ensures |s| == ENTRY_SIZE
  {
    [ENTRY_UPCASE, 0, 0, 0] + Le(x.upcaseChecksum, 4) + Zeros(12) + Le(x.upcaseCluster, 4) + Le(x.upcaseLength, 8)
  }

  function SpecialEntries(x: Special): (s: seq<byte>)
    ensures |s| == 3 * ENTRY_SIZE
  {
    LabelEntry(x.volumeLabel) + BitmapEntry(x) + UpcaseEntry(x)
  }

  /** The entries of a directory before its end marker; `lead` is non-empty for the root only. */
  function DirectoryBody(t: Tree, lead: seq<byte>, strUpper: u16 -> seq<nat>): seq<byte> {
    lead + EntrySets(Sort(t.children, ByName), strUpper)
  }

  /** `n` bytes rounded up to whole clusters. */
  function WholeClusters(n: nat): (r: nat)
    ensures n <= r < n + CLUSTER_SIZE
  {
    CeilDiv(n, CLUSTER_SIZE) * CLUSTER_SIZE
  }

  /** The directory as printed: body, end marker, zeros up to a whole cluster. */
  function DirectoryBytes(t: Tree, lead: seq<byte>, strUpper: u16 -> seq<nat>): (s: seq<byte>)
    ensures |s| == WholeClusters(|DirectoryBody(t, lead, strUpper)| + ENTRY_SIZE)
  {
    var body := DirectoryBody(t, lead, strUpper);
    body + Zeros(WholeClusters(|body| + ENTRY_SIZE) - |body|)
  }

  // Sizes: what is reserved against what is printed.

  function NamesOf(ts: seq<Tree>): (names: seq<string>)
    ensures |names| == |ts|
    ensures forall i :: 0 <= i < |ts| ==> names[i] == ts[i].item.name
  {
    seq(|ts|, i requires 0 <= i < |ts| => ts[i].item.name)
  }

  function EntriesReserved(names: seq<string>): nat {
    if names == [] then 0
    else 1 + CeilDiv(UnitCount(names[0]), 15) + EntriesReserved(names[1..])
  }

  /** The entries that the builder counts before it reserves clusters. */
  function EntriesFor(path: string, names: seq<string>): (n: nat)
    ensures n >= 1
  {
    (if path == "" then 3 else 0) + 1 + EntriesReserved(names)
  }

  function EntryClusters(entries: nat): (n: nat)
    ensures n >= 1
  {
    Max(1, CeilDiv(entries * ENTRY_SIZE, CLUSTER_SIZE))
  }

  function EntryCount(t: Tree): (n: nat)
    ensures n >= 1
  {
    EntriesFor(t.item.path, NamesOf(t.children))
  }

  function DirectoryClusters(t: Tree): (n: nat)
    ensures n >= 1
  {
    EntryClusters(EntryCount(t))
  }

  lemma ReservedUnfold(ts: seq<Tree>)
    requires ts != []
    ensures EntriesReserved(NamesOf(ts))
      == 1 + CeilDiv(UnitCount(ts[0].item.name), 15) + EntriesReserved(NamesOf(ts[1..]))
  {
    assert NamesOf(ts)[1..] == NamesOf(ts[1..]);
  }

  /** The numbers of a node fit the fixed-width fields of its entry set. */
  predicate NumbersFit(t: Tree) {
    t.first < 0x1_0000_0000 && DataLength(t) < 0x1_0000_0000_0000_0000
  }

  /** Names that a POSIX file system and the configuration can deliver. */
  predicate NameFits(name: string) {
    1 <= UnitCount(name) <= 255
  }

  lemma {:induction false} SetsLength(children: seq<Tree>, strUpper: u16 -> seq<nat>)
    requires forall t :: t in children ==> NameFits(t.item.name)
    ensures |EntrySets(children, strUpper)| == ENTRY_SIZE * (EntriesReserved(NamesOf(children)) + |children|)
  {
    if children != [] {
      ReservedUnfold(children);
      hide EntriesReserved, NamesOf;
      SetsLength(children[1..], strUpper);
      assert NameFits(children[0].item.name);
    }
  }

  lemma {:induction false} InsertReserved(t: Tree, s: seq<Tree>)
    ensures EntriesReserved(NamesOf(Insert(t, s, ByName))) == EntriesReserved(NamesOf([t] + s))
  {
    hide EntriesReserved, NamesOf;
    if s != [] && !ByName(t, s[0]) {
      InsertReserved(t, s[1..]);
      var r := Insert(t, s[1..], ByName);
      ReservedUnfold([t] + s);
      ReservedUnfold(s);
      ReservedUnfold([t] + s[1..]);
      ReservedUnfold([s[0]] + r);
      assert ([t] + s)[1..] == s && ([t] + s[1..])[1..] == s[1..] && ([s[0]] + r)[1..] == r;
    }
  }

  lemma {:induction false} SortReserved(s: seq<Tree>)
    ensures EntriesReserved(NamesOf(Sort(s, ByName))) == EntriesReserved(NamesOf(s))
  {
    if s == [] {
      assert NamesOf(s) == [];
    } else {
      hide EntriesReserved, NamesOf;
      SortReserved(s[1..]);
      var r := Sort(s[1..], ByName);
      InsertReserved(s[0], r);
      ReservedUnfold([s[0]] + r);
      ReservedUnfold(s);
      assert ([s[0]] + r)[1..] == r;
    }
  }

  lemma BodyLength(t: Tree, lead: seq<byte>, strUpper: u16 -> seq<nat>)
    requires forall c :: c in t.children ==> NameFits(c.item.name)
    ensures |DirectoryBody(t, lead, strUpper)| ==
      |lead| + ENTRY_SIZE * (EntriesReserved(NamesOf(t.children)) + |t.children|)
  {
    var sorted := Sort(t.children, ByName);
    forall c | c in sorted ensures NameFits(c.item.name) {
      assert c in multiset(sorted);
    }
    SetsLength(sorted, strUpper);
    SortReserved(t.children);
  }

  /** The exact relation: the printed entries are the counted ones plus one for each child. */
  lemma ExactDirectorySize(t: Tree, lead: seq<byte>, strUpper: u16 -> seq<nat>)
    requires forall c :: c in t.children ==> NameFits(c.item.name)
    requires |lead| == if t.item.path == "" then 3 * ENTRY_SIZE else 0
    ensures |DirectoryBody(t, lead, strUpper)| == ENTRY_SIZE * (EntryCount(t) + |t.children| - 1)
    ensures |DirectoryBytes(t, lead, strUpper)| == WholeClusters(ENTRY_SIZE * (EntryCount(t) + |t.children|))
  {
    hide DirectoryBody, NameFits, WholeClusters;
    BodyLength(t, lead, strUpper);
  }

  /** Clusters that the printed directory needs. */
  function PrintedClusters(t: Tree): nat {
    CeilDiv(ENTRY_SIZE * (EntryCount(t) + |t.children|), CLUSTER_SIZE)
  }

  lemma PrintedSize(t: Tree, lead: seq<byte>, strUpper: u16 -> seq<nat>)
    requires forall c :: c in t.children ==> NameFits(c.item.name)
    requires |lead| == if t.item.path == "" then 3 * ENTRY_SIZE else 0
    ensures |DirectoryBytes(t, lead, strUpper)| == PrintedClusters(t) * CLUSTER_SIZE
    ensures DirectoryClusters(t) <= PrintedClusters(t)
  {
    hide EntryCount, DirectoryBody, NameFits, DirectoryBytes;
    ExactDirectorySize(t, lead, strUpper);
  }

  /** The printed directory stays within its reservation. */
  predicate DirectoryFits(t: Tree) {
    PrintedClusters(t) <= DirectoryClusters(t)
  }

  /** No entry set of the directory lies behind the reservation; its end marker may. */
  predicate NoEntryLost(t: Tree) {
    ENTRY_SIZE * (EntryCount(t) + |t.children| - 1) <= DirectoryClusters(t) * CLUSTER_SIZE
  }

  lemma DirectoryFitsIff(t: Tree, lead: seq<byte>, strUpper: u16 -> seq<nat>)
    requires forall c :: c in t.children ==> NameFits(c.item.name)
    requires |lead| == if t.item.path == "" then 3 * ENTRY_SIZE else 0
    ensures |DirectoryBytes(t, lead, strUpper)| <= DirectoryClusters(t) * CLUSTER_SIZE
      <==> PrintedClusters(t) == DirectoryClusters(t)
    ensures DirectoryFits(t) <==> PrintedClusters(t) == DirectoryClusters(t)
    ensures NoEntryLost(t) ==> PrintedClusters(t) <= DirectoryClusters(t) + 1
  {
    hide EntryCount, DirectoryBody, NameFits, DirectoryBytes;
    ExactDirectorySize(t, lead, strUpper);
  }
}
