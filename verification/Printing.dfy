/** The encoding methods of the builder: entry sets and directories, written field by field. */
module Printing {
  import opened Bytes
  import opened Consts
  import opened Directory
  import opened Filling
  import opened Names
  import opened Nodes
  import opened Sorting
  import opened Trees

  /** The node as far as its own entry set is concerned. */
  function Bare(item: Item, first: nat, count: nat): Tree {
    Tree(item, first, count, [])
  }

  /** An entry set does not depend on what is below the node. */
  lemma SetOfBare(t: Tree, strUpper: u16 -> seq<nat>)
    ensures EntrySet(t, strUpper) == EntrySet(Bare(t.item, t.first, t.count), strUpper)
  {
    hide Checksum, NameEntries, NameHash, Le, StoredUnits, NameEntryCount;
    var b := Bare(t.item, t.first, t.count);
    assert UncheckedSet(t, strUpper) == UncheckedSet(b, strUpper);
    assert Stream(t, strUpper) == Stream(b, strUpper);
  }

  /** Creation, modification and access times, and three zone bytes that say UTC. */
  method PutTimestamps(primary: array<byte>, times: Times)
    requires primary.Length == ENTRY_SIZE
    modifies primary
    ensures primary[..] == Patch(Patch(old(primary[..]), 8, StampBytes(times)), 22, [0x80, 0x80, 0x80])
  {
    PowersOf256();
    hide Le, Pow256, Patch;
    ghost var before := primary[..];
    Pack(primary, 8, times.created.time, 2);
    Pack(primary, 10, times.created.date, 2);
    Pack(primary, 12, times.modified.time, 2);
    Pack(primary, 14, times.modified.date, 2);
    Pack(primary, 16, times.accessed.time, 2);
    Pack(primary, 18, times.accessed.date, 2);
    CopyInto(primary, 20, [times.created.increment, times.modified.increment]);
    StampsPatched(before, times);
    CopyInto(primary, 22, [0x80, 0x80, 0x80]);
  }

  /** Seven adjoining writes are the fourteen timestamp bytes. */
  lemma StampsPatched(s: seq<byte>, t: Times)
    requires |s| == ENTRY_SIZE
    ensures var a := Patch(Patch(Patch(s, 8, Le(t.created.time, 2)), 10, Le(t.created.date, 2)),
      12, Le(t.modified.time, 2));
      var b := Patch(Patch(Patch(a, 14, Le(t.modified.date, 2)), 16, Le(t.accessed.time, 2)),
        18, Le(t.accessed.date, 2));
      Patch(b, 20, [t.created.increment, t.modified.increment]) == Patch(s, 8, StampBytes(t))
  {
    hide Le, Patch;
    var p := Le(t.created.time, 2) + Le(t.created.date, 2);
    PatchTwice(s, 8, Le(t.created.time, 2), Le(t.created.date, 2));
    PatchTwice(s, 8, p, Le(t.modified.time, 2));
    p := p + Le(t.modified.time, 2);
    PatchTwice(s, 8, p, Le(t.modified.date, 2));
    p := p + Le(t.modified.date, 2);
    PatchTwice(s, 8, p, Le(t.accessed.time, 2));
    p := p + Le(t.accessed.time, 2);
    PatchTwice(s, 8, p, Le(t.accessed.date, 2));
    p := p + Le(t.accessed.date, 2);
    PatchTwice(s, 8, p, [t.created.increment, t.modified.increment]);
  }

  /** The field writes that make up a primary entry. */
  function PatchedPrimary(t: Tree): (s: seq<byte>)
    ensures |s| == ENTRY_SIZE
  {
    var s := Patch(Zeros(ENTRY_SIZE), 0, [ENTRY_FILE, NameEntryCount(|StoredUnits(t.item.name)|) + 1]);
    var s := Patch(s, 4, Le(if t.item.isDirectory then 0x10 else 0x20, 2));
    var s := Patch(s, 8, StampBytes(t.item.times));
    Patch(s, 22, [0x80, 0x80, 0x80])
  }

  lemma ZeroBytes()
    ensures Le(0, 2) == [0, 0]
  {
  }

  lemma PatchedPrimaryIs(t: Tree)
    ensures PatchedPrimary(t) == Primary(t, 0)
  {
    ZeroBytes();
    hide Le, NameEntryCount, StoredUnits;
  }

  lemma PatchedChecksum(t: Tree, sum: nat)
    ensures Patch(Primary(t, 0), 2, Le(sum, 2)) == Primary(t, sum)
  {
    hide Le, NameEntryCount, StoredUnits, Zeros;
  }

  lemma SmallCount(units: seq<u16>)
    requires |units| <= 255
    ensures NameEntryCount(|units|) + 1 < 256
  {
  }

  method PrimaryEntry(item: Item) returns (primary: array<byte>)
    ensures fresh(primary) && primary[..] == Primary(Bare(item, 0, 0), 0)
  {
    var units := StoredUnits(item.name);
    primary := new byte[ENTRY_SIZE](_ => 0);
    assert primary[..] == Zeros(ENTRY_SIZE);
    SmallCount(units);
    PowersOf256();
    hide Le, Patch, StoredUnits, NameEntryCount, Primary, Pow256, Zeros, StampBytes;
    CopyInto(primary, 0, [ENTRY_FILE, NameEntryCount(|units|) + 1]);
    Pack(primary, 4, if item.isDirectory then 0x10 else 0x20, 2);
    PutTimestamps(primary, item.times);
    PatchedPrimaryIs(Bare(item, 0, 0));
  }

  /** The field writes that make up a stream entry. */
  function PatchedStream(t: Tree, strUpper: u16 -> seq<nat>): (s: seq<byte>)
    ensures |s| == ENTRY_SIZE
  {
    var units := StoredUnits(t.item.name);
    var s := Patch(Zeros(ENTRY_SIZE), 0, [ENTRY_STREAM]);
    var s := Patch(s, 3, [|units|]);
    var s := Patch(s, 4, Le(NameHash(units, strUpper), 2));
    var s := Patch(s, 1, [1]);
    var s := Patch(s, 8, Le(DataLength(t), 8));
    var s := Patch(s, 20, Le(t.first, 4));
    Patch(s, 24, Le(DataLength(t), 8))
  }

  lemma PatchedStreamIs(t: Tree, strUpper: u16 -> seq<nat>)
    ensures PatchedStream(t, strUpper) == Stream(t, strUpper)
  {
    hide Le, NameHash, StoredUnits, DataLength;
  }

  method StreamEntry(item: Item, first: nat, count: nat, strUpper: u16 -> seq<nat>) returns (s: seq<byte>)
    requires NumbersFit(Bare(item, first, count))
    ensures s == Stream(Bare(item, first, count), strUpper)
  {
    var units := StoredUnits(item.name);
    var dataLength := if item.isDirectory then count * CLUSTER_SIZE else item.size;
    assert dataLength == DataLength(Bare(item, first, count));
    var stream := new byte[ENTRY_SIZE](_ => 0);
    assert stream[..] == Zeros(ENTRY_SIZE);
    PowersOf256();
    hide Le, Patch, StoredUnits, Stream, Pow256, Checksum, DataLength;
    CopyInto(stream, 0, [ENTRY_STREAM]);
    CopyInto(stream, 3, [|units|]);
    var nameHash := ComputeNameHash(units, strUpper);
    Pack(stream, 4, nameHash, 2);
    CopyInto(stream, 1, [1]);
    Pack(stream, 8, dataLength, 8);
    Pack(stream, 20, first, 4);
    Pack(stream, 24, dataLength, 8);
    PatchedStreamIs(Bare(item, first, count), strUpper);
    s := stream[..];
  }

  /** Up to 30 bytes of the encoded name. */
  function Chunk(encoded: seq<byte>, i: nat): (c: seq<byte>)
    ensures |c| <= 30
  {
    encoded[Min(30 * i, |encoded|)..Min(30 * i + 30, |encoded|)]
  }

  /** Byte `m` of the entry that the loop appends for chunk `i`. */
  lemma ChunkByte(units: seq<u16>, i: nat, m: nat)
    requires i < NameEntryCount(|units|) && m < ENTRY_SIZE
    ensures var chunk := Chunk(UnitBytes(units), i);
      NameEntries(units)[ENTRY_SIZE * i + m] == ([ENTRY_FILENAME, 0] + chunk + Zeros(30 - |chunk|))[m]
  {
    hide NameEntries, UnitBytes;
    NameEntryByte(units, i, m);
  }

  lemma ChunkIsEntry(units: seq<u16>, i: nat)
    requires i < NameEntryCount(|units|)
    ensures var chunk := Chunk(UnitBytes(units), i);
      NameEntries(units)[..ENTRY_SIZE * (i + 1)]
      == NameEntries(units)[..ENTRY_SIZE * i] + [ENTRY_FILENAME, 0] + chunk + Zeros(30 - |chunk|)
  {
    hide NameEntries, UnitBytes, Chunk;
    var entries := NameEntries(units);
    var chunk := Chunk(UnitBytes(units), i);
    var entry := [ENTRY_FILENAME, 0] + chunk + Zeros(30 - |chunk|);
    forall m | 0 <= m < ENTRY_SIZE ensures entries[ENTRY_SIZE * i + m] == entry[m] {
      ChunkByte(units, i, m);
    }
    assert entries[ENTRY_SIZE * i..ENTRY_SIZE * (i + 1)] == entry;
    assert entries[..ENTRY_SIZE * (i + 1)] == entries[..ENTRY_SIZE * i] + entries[ENTRY_SIZE * i..ENTRY_SIZE * (i + 1)];
  }

  /** The name entries, one for each chunk of 15 units; an empty name still has one. */
  method NameChunks(units: seq<u16>) returns (s: seq<byte>)
    ensures s == NameEntries(units)
  {
    var encoded := UnitBytes(units);
    hide NameEntries, UnitBytes;
    s := [];
    var i := 0;
    while 30 * i < |encoded|
      invariant i <= NameEntryCount(|units|) && (i > 0 ==> 30 * (i - 1) < |encoded|)
      invariant s == NameEntries(units)[..ENTRY_SIZE * i]
    {
      ChunkIsEntry(units, i);
      var chunk := encoded[30 * i..Min(30 * i + 30, |encoded|)];
      s := s + [ENTRY_FILENAME, 0] + chunk + Zeros(30 - |chunk|);
      i := i + 1;
    }
    if i == 0 {
      ChunkIsEntry(units, 0);
      assert Chunk(encoded, 0) == [];
      s := s + [ENTRY_FILENAME, 0] + [] + Zeros(30);
      i := 1;
    }
    assert i == NameEntryCount(|units|);
    assert NameEntries(units)[..|NameEntries(units)|] == NameEntries(units);
  }

  /** One entry set: the checksum is computed over the whole set and then patched in. */
  method FileEntrySet(item: Item, first: nat, count: nat, strUpper: u16 -> seq<nat>) returns (s: seq<byte>)
    requires NumbersFit(Bare(item, first, count))
    ensures s == EntrySet(Bare(item, first, count), strUpper)
  {
    hide NumbersFit, NameEntries, Stream, Primary, Patch, Checksum, Pow256, Le;
    ghost var t := Bare(item, first, count);
    var primary := PrimaryEntry(item);
    PrimaryOfItem(item, first, count);
    var stream := StreamEntry(item, first, count, strUpper);
    var names := NameChunks(StoredUnits(item.name));
    var raw := primary[..] + stream + names;
    assert raw == UncheckedSet(t, strUpper);
    var checksum := ComputeChecksum(raw, {2, 3}, SET_MODULUS);
    PowersOf256();
    Pack(primary, 2, checksum, 2);
    PatchedChecksum(t, checksum);
    s := primary[..] + stream + names;
  }

  lemma PrimaryOfItem(item: Item, first: nat, count: nat)
    ensures Primary(Bare(item, 0, 0), 0) == Primary(Bare(item, first, count), 0)
  {
    hide Le, NameEntryCount, StoredUnits, Zeros;
  }

  // Directories.

  method LabelBytes(volumeLabel: string) returns (s: seq<byte>)
    ensures s == LabelEntry(volumeLabel)
  {
    var encoded := UnitBytes(Utf16(volumeLabel));
    var item := new byte[ENTRY_SIZE](_ => 0);
    item[0] := ENTRY_VOLUME_LABEL;
    item[1] := Min(|encoded| / 2, 11);
    CopyInto(item, 2, encoded[..Min(|encoded|, 22)]);
    s := item[..];
  }

  method BitmapBytes(bitmapCluster: nat, bitmapLength: nat, ghost x: Special) returns (s: seq<byte>)
    requires bitmapCluster == x.bitmapCluster < 0x1_0000_0000
    requires bitmapLength == x.bitmapLength < 0x1_0000_0000_0000_0000
    ensures s == BitmapEntry(x)
  {
    PowersOf256();
    hide Le, Pow256;
    var bitmap := new byte[ENTRY_SIZE](_ => 0);
    bitmap[0] := ENTRY_BITMAP;
    bitmap[1] := 0;
    Pack(bitmap, 20, bitmapCluster, 4);
    Pack(bitmap, 24, bitmapLength, 8);
    s := bitmap[..];
  }

  method UpcaseBytes(upcaseCluster: nat, upcaseLength: nat, table: seq<byte>, ghost x: Special) returns (s: seq<byte>)
    requires upcaseCluster == x.upcaseCluster < 0x1_0000_0000
    requires upcaseLength == x.upcaseLength < 0x1_0000_0000_0000_0000
    requires x.upcaseChecksum == Checksum(table, {}, 0x1_0000_0000)
    ensures s == UpcaseEntry(x)
  {
    PowersOf256();
    hide Le, Pow256, Checksum;
    var checksum := ComputeChecksum(table, {}, 0x1_0000_0000);
    var upcase := new byte[ENTRY_SIZE](_ => 0);
    upcase[0] := ENTRY_UPCASE;
    Pack(upcase, 4, checksum, 4);
    Pack(upcase, 20, upcaseCluster, 4);
    Pack(upcase, 24, upcaseLength, 8);
    s := upcase[..];
  }

  /** The three entries that only the root directory has. */
  method RootEntries(volumeLabel: string, bitmapCluster: nat, bitmapLength: nat, upcaseCluster: nat,
          upcaseLength: nat, table: seq<byte>)
    returns (s: seq<byte>)
    requires bitmapCluster < 0x1_0000_0000 && upcaseCluster < 0x1_0000_0000
    requires bitmapLength < 0x1_0000_0000_0000_0000 && upcaseLength < 0x1_0000_0000_0000_0000
    ensures s == SpecialEntries(Special(volumeLabel, bitmapCluster, bitmapLength, upcaseCluster, upcaseLength,
                                        Checksum(table, {}, 0x1_0000_0000)))
  {
    hide LabelEntry, BitmapEntry, UpcaseEntry, Checksum;
    ghost var x := Special(volumeLabel, bitmapCluster, bitmapLength, upcaseCluster, upcaseLength,
      Checksum(table, {}, 0x1_0000_0000));
    var item := LabelBytes(volumeLabel);
    var bitmap := BitmapBytes(bitmapCluster, bitmapLength, x);
    var upcase := UpcaseBytes(upcaseCluster, upcaseLength, table, x);
    s := item + bitmap + upcase;
  }

  /** The children carry the numbers of the snapshot, and their fields can be printed. */
  ghost predicate Ready(nodes: seq<Node>, m: map<Node, Numbers>)
    reads nodes
  {
    AllMirror(nodes) && forall i :: 0 <= i < |nodes| ==> ReadyNode(nodes[i], m)
  }

  ghost predicate ReadyNode(n: Node, m: map<Node, Numbers>)
    requires Mirrors(n)
    reads n
  {
    NumbersOf(m, n) == Numbers(n.firstCluster, n.clusterCount) && NumbersFit(Filled(n, m))
  }

  lemma ReadySorted(nodes: seq<Node>, m: map<Node, Numbers>)
    requires Ready(nodes, m)
    ensures Ready(Sort(nodes, NodeByName), m)
  {
    hide ReadyNode, Sort, NodeByName;
    SortFilled(nodes, m);
    var sorted := Sort(nodes, NodeByName);
    forall i | 0 <= i < |sorted| ensures ReadyNode(sorted[i], m) {
      assert sorted[i] in multiset(sorted);
      assert sorted[i] in nodes;
    }
  }

  lemma NextSet(nodes: seq<Node>, m: map<Node, Numbers>, k: nat, strUpper: u16 -> seq<nat>)
    requires Ready(nodes, m) && k < |nodes|
    ensures var n := nodes[k];
      var bare := Bare(n.item, n.firstCluster, n.clusterCount);
      && NumbersFit(bare)
      && EntrySets(FilledAll(nodes, m)[k..], strUpper)
         == EntrySet(bare, strUpper) + EntrySets(FilledAll(nodes, m)[k + 1..], strUpper)
  {
    var n := nodes[k];
    FilledFields(n, m);
    SetOfBare(Filled(n, m), strUpper);
    hide Filled, EntrySet;
    var rest := FilledAll(nodes, m)[k..];
    assert rest[1..] == FilledAll(nodes, m)[k + 1..];
  }

  /** The entry sets of the children, in the order of their names. */
  method ChildSets(node: Node, ghost m: map<Node, Numbers>, strUpper: u16 -> seq<nat>) returns (s: seq<byte>)
    requires Mirrors(node) && node.item.isDirectory && Ready(node.children, m)
    ensures s == EntrySets(Sort(Filled(node, m).children, ByName), strUpper)
  {
    hide *;
    var sorted := Sort(node.children, NodeByName);
    ReadySorted(node.children, m);
    FilledChildren(node, m);
    SortFilled(node.children, m);
    ghost var trees := FilledAll(sorted, m);
    s := [];
    for k := 0 to |sorted|
      invariant s + EntrySets(trees[k..], strUpper) == EntrySets(trees, strUpper)
    {
      NextSet(sorted, m, k, strUpper);
      var entries := FileEntrySet(sorted[k].item, sorted[k].firstCluster, sorted[k].clusterCount, strUpper);
      s := s + entries;
    }
    NoSets(trees[|sorted|..], strUpper);
  }

  lemma NoSets(ts: seq<Tree>, strUpper: u16 -> seq<nat>)
    requires |ts| == 0
    ensures EntrySets(ts, strUpper) == []
  {
  }

  /** A whole directory: entries, end marker, zeros up to a whole cluster. */
  method PrintDirectory(node: Node, lead: seq<byte>, ghost m: map<Node, Numbers>, strUpper: u16 -> seq<nat>)
    returns (s: seq<byte>)
    requires Mirrors(node) && node.item.isDirectory && Ready(node.children, m)
    ensures s == DirectoryBytes(Filled(node, m), lead, strUpper)
  {
    hide Ready, EntrySets, Filled, Mirrors, Sort;
    var sets := ChildSets(node, m, strUpper);
    var entries := lead + sets + Zeros(ENTRY_SIZE);
    s := entries + Zeros(Max(ENTRY_SIZE, CeilDiv(|entries|, CLUSTER_SIZE) * CLUSTER_SIZE) - |entries|);
  }
}
