/** Inputs on which the guarantees of the build end, and how far they reach. */
module Limits {
  import opened Allocation
  import opened Consts
  import opened Directory
  import opened EndToEnd
  import opened Geometry
  import opened Layouts
  import opened Mapper
  import opened Mounting
  import opened Names
  import opened Plan
  import opened Prefetch
  import opened Ranges
  import opened Reader
  import opened RoundTrip
  import opened Served
  import Streams
  import opened Trees
  import opened Wrappers

  // How many children a directory can keep.

  /** All names need the same number of entries, as the builder counts them. */
  predicate EachReserves(children: seq<Tree>, entries: nat) {
    forall i :: 0 <= i < |children| ==> 1 + CeilDiv(UnitCount(children[i].item.name), 15) == entries
  }

  lemma {:induction false} ReservedEach(children: seq<Tree>, entries: nat)
    requires EachReserves(children, entries) && entries in {2, 3}
    ensures EntriesReserved(NamesOf(children)) == entries * |children|
  {
    if children != [] {
      ReservedUnfold(children);
      ReservedEach(children[1..], entries);
    }
  }

  predicate ShortName(name: string) {
    1 <= UnitCount(name) <= 15
  }

  /** A directory below the root whose names have at most 15 units keeps its entries, and its end marker, for exactly
      these numbers of children. */
  lemma ShortNamesKept(t: Tree)
    requires t.item.path != ""
    requires forall c :: c in t.children ==> ShortName(c.item.name)
    ensures var n := |t.children|;
      && (NoEntryLost(t) <==> n <= 1365 || 2048 <= n <= 2730 || n == 4096)
      && (DirectoryFits(t) <==> n <= 1365 || 2048 <= n <= 2730)
  {
    forall i | 0 <= i < |t.children| ensures 1 + CeilDiv(UnitCount(t.children[i].item.name), 15) == 2 {
      assert ShortName(t.children[i].item.name);
    }
    ReservedEach(t.children, 2);
  }

  // Sample trees.

  const NO_TIMES: Times := Times(Stamp(0, 0, 0), Stamp(0, 0, 0), Stamp(0, 0, 0))

  /** An image of 4 GiB and 2 MiB. */
  predicate FourGiB(config: Config) {
    config.totalBytes == SECTOR_SIZE * (4096 + 32768 * 256)
  }

  function Pow10(width: nat): nat {
    if width == 0 then 1 else 10 * Pow10(width - 1)
  }

  /** The last `width` decimal digits. */
  function Decimal(n: nat, width: nat): (digits: string)
    ensures |digits| == width
    ensures forall i :: 0 <= i < width ==> 48 <= digits[i] as int < 58
  {
    if width == 0 then "" else Decimal(n / 10, width - 1) + [(48 + n % 10) as char]
  }

  lemma {:induction false} DecimalDistinct(a: nat, b: nat, width: nat)
    requires a < Pow10(width) && b < Pow10(width) && Decimal(a, width) == Decimal(b, width)
    ensures a == b
  {
    if width > 0 {
      var x, y := Decimal(a, width), Decimal(b, width);
      assert x[..width - 1] == Decimal(a / 10, width - 1) && y[..width - 1] == Decimal(b / 10, width - 1);
      assert x[width - 1] == y[width - 1];
      DecimalDistinct(a / 10, b / 10, width - 1);
    }
  }

  /** Five digits. */
  function Digits(n: nat): (name: string)
    ensures |name| == 5
    ensures forall i :: 0 <= i < 5 ==> 48 <= name[i] as int < 58
  {
    Decimal(n, 5)
  }

  lemma DigitsDistinct(a: nat, b: nat)
    requires a < 100000 && b < 100000 && Digits(a) == Digits(b)
    ensures a == b
  {
    assert Pow10(3) == 1000;
    DecimalDistinct(a, b, 5);
  }

  lemma {:induction false} AsciiUnits(name: string)
    requires forall i :: 0 <= i < |name| ==> name[i] as int < 128
    ensures UnitCount(name) == |name|
  {
    if name != "" {
      AsciiUnits(name[1..]);
    }
  }

  function Sample(path: string, name: string, size: nat, directory: bool, children: seq<Tree>): Tree {
    Tree(Item(name, path, path, directory, size, NO_TIMES), 0, 0, children)
  }

  function RootWith(children: seq<Tree>): Tree {
    Sample("", "", 0, true, children)
  }

  /** Nodes without children and with numbered names. */
  function Row(parent: string, prefix: string, count: nat, size: nat, directory: bool): (row: seq<Tree>)
    ensures |row| == count
  {
    seq(count, i requires 0 <= i < count =>
      Sample(parent + prefix + Digits(i), prefix + Digits(i), size, directory, []))
  }

  predicate DistinctNames(children: seq<Tree>) {
    forall i, j :: 0 <= i < j < |children| ==> children[i].item.name != children[j].item.name
  }

  lemma RowDistinct(parent: string, prefix: string, count: nat, size: nat, directory: bool)
    requires count <= 100000
    ensures DistinctNames(Row(parent, prefix, count, size, directory))
  {
    hide Digits;
    var row := Row(parent, prefix, count, size, directory);
    forall i, j | 0 <= i < j < |row| ensures row[i].item.name != row[j].item.name {
      assert row[i].item.name[|prefix|..] == Digits(i) && row[j].item.name[|prefix|..] == Digits(j);
      if Digits(i) == Digits(j) {
        DigitsDistinct(i, j);
      }
    }
  }

  predicate Ascii(prefix: string) {
    forall i :: 0 <= i < |prefix| ==> prefix[i] as int < 128
  }

  /** Every node of a row: one cluster, a name of the prefix and five digits, nothing below it. */
  lemma RowMembers(parent: string, prefix: string, count: nat, size: nat, directory: bool)
    requires Ascii(prefix) && |prefix| <= 250 && size <= CLUSTER_SIZE
    ensures forall t :: t in Row(parent, prefix, count, size, directory) ==>
      && UnitCount(t.item.name) == |prefix| + 5 && t.item.path != "" && t.children == []
      && t.item.isDirectory == directory && ClustersOf(t) == 1
  {
    var row := Row(parent, prefix, count, size, directory);
    forall t | t in row
      ensures UnitCount(t.item.name) == |prefix| + 5 && t.item.path != "" && t.children == []
      ensures t.item.isDirectory == directory && ClustersOf(t) == 1
    {
      var i :| 0 <= i < |row| && row[i] == t;
      AsciiUnits(prefix + Digits(i));
      assert |t.item.path| >= 5;
      LeafClusters(t);
    }
  }

  lemma LeafClusters(t: Tree)
    requires t.children == [] && t.item.path != "" && t.item.size <= CLUSTER_SIZE
    ensures ClustersOf(t) == 1
  {
    assert NamesOf([]) == [];
  }

  lemma {:induction false} WalkLeaves(forest: seq<Tree>)
    requires forall t :: t in forest ==> t.children == []
    ensures Walk(forest) == forest
  {
    if forest != [] {
      WalkUnfold(forest);
      WalkLeaves(forest[1..]);
      assert forest == [forest[0]] + forest[1..];
    }
  }

  lemma {:induction false} SelectAll(ts: seq<Tree>, directories: bool)
    requires forall t :: t in ts ==> t.item.isDirectory == directories
    ensures Select(ts, directories) == ts && Select(ts, !directories) == []
  {
    if ts != [] {
      hide Select;
      SelectUnfold(ts, directories);
      SelectUnfold(ts, !directories);
      SelectAll(ts[..|ts| - 1], directories);
      assert ts[|ts| - 1] in ts && ts == ts[..|ts| - 1] + [ts[|ts| - 1]];
    }
  }

  lemma {:induction false} TotalOnes(ts: seq<Tree>)
    requires forall t :: t in ts ==> ClustersOf(t) == 1
    ensures TotalClusters(ts) == |ts|
  {
    if ts != [] {
      TotalOnes(ts[..|ts| - 1]);
    }
  }

  lemma OneTotal(t: Tree)
    ensures TotalClusters([t]) == ClustersOf(t)
  {
    assert [t][..0] == [];
  }

  lemma SmallGeometry(config: Config)
    requires FourGiB(config)
    ensures Geo(config) == Geometry(256, 4096, 32768) && BaseOf(config) == 4
  {
    assert HeapFor(256) == 4096;
    assert ClustersFor(config.totalBytes / SECTOR_SIZE, 4096) == 32768;
    assert FatFor(32768) == 256;
  }

  lemma AcceptedRoot(config: Config, children: seq<Tree>)
    requires FourGiB(config)
    requires forall t :: t in Walk(children) ==> NameFits(t.item.name) && t.item.path != ""
    ensures Accepted(config, RootWith(children))
  {
  }

  // One directory with many files.

  function Crowd(prefix: string, count: nat, size: nat): Tree {
    Sample("games", "games", 0, true, Row("games/", prefix, count, size, false))
  }

  function Crowded(prefix: string, count: nat, size: nat): Tree {
    RootWith([Crowd(prefix, count, size)])
  }

  lemma CrowdedWalk(prefix: string, count: nat, size: nat)
    requires Ascii(prefix) && |prefix| <= 250 && size <= CLUSTER_SIZE
    ensures var root, d := Crowded(prefix, count, size), Crowd(prefix, count, size);
      && Walk(root.children) == [d] + d.children
      && DirsOf(root) == [root, d] && FilesOf(root) == d.children
  {
    hide Row, Select, Walk;
    var root, d := Crowded(prefix, count, size), Crowd(prefix, count, size);
    RowMembers("games/", prefix, count, size, false);
    WalkLeaves(d.children);
    SelectAll(d.children, false);
    WalkOne(d);
    RootFirst(root);
    SelectCons(d, d.children, true);
    SelectCons(d, d.children, false);
    assert [d] + [] == [d] && [root] + [d] == [root, d] && [] + d.children == d.children;
  }

  lemma RootClusters(root: Tree, d: Tree)
    requires root == RootWith([d]) && d.item.name == "games"
    ensures EntryCount(root) == 6 && ClustersOf(root) == 1 && NoEntryLost(root)
  {
    AsciiUnits("games");
    ReservedUnfold([d]);
    assert NamesOf([d][1..]) == [];
  }

  lemma CrowdedAccepted(config: Config, prefix: string, count: nat, size: nat)
    requires FourGiB(config) && Ascii(prefix) && |prefix| <= 250 && size <= CLUSTER_SIZE
    ensures Accepted(config, Crowded(prefix, count, size))
  {
    hide Row, Walk, FourGiB;
    var d := Crowd(prefix, count, size);
    CrowdedWalk(prefix, count, size);
    RowMembers("games/", prefix, count, size, false);
    AsciiUnits("games");
    AcceptedRoot(config, [d]);
  }

  /** The directories take one cluster each, and so do the files. */
  lemma CrowdedTotals(prefix: string, count: nat, size: nat)
    requires Ascii(prefix) && |prefix| <= 250 && size <= CLUSTER_SIZE
    requires ClustersOf(Crowd(prefix, count, size)) == 1
    ensures var root := Crowded(prefix, count, size);
      TotalClusters(DirsOf(root)) == 2 && TotalClusters(FilesOf(root)) == count
  {
    hide Row, Walk, Select, ClustersOf, TotalClusters, UnitCount;
    var root, d := Crowded(prefix, count, size), Crowd(prefix, count, size);
    CrowdedWalk(prefix, count, size);
    RowMembers("games/", prefix, count, size, false);
    RootClusters(root, d);
    TotalOnes([root, d]);
    TotalOnes(d.children);
  }

  /** An accepted tree that fits, when its files and the directory itself need one cluster each. */
  lemma CrowdedFits(config: Config, prefix: string, count: nat, size: nat)
    requires FourGiB(config) && Ascii(prefix) && |prefix| <= 250 && size <= CLUSTER_SIZE && count <= 32000
    requires ClustersOf(Crowd(prefix, count, size)) == 1
    ensures var root := Crowded(prefix, count, size);
      && Accepted(config, root) && FitsImage(config, root) && FatRoom(config, root)
      && FileBase(config, root) == 6
    ensures DistinctNames(Crowd(prefix, count, size).children)
  {
    hide Row, Walk, Select, GeometryOf, Accepted, DistinctNames, TotalClusters, ClustersOf;
    RowDistinct("games/", prefix, count, size, false);
    SmallGeometry(config);
    CrowdedAccepted(config, prefix, count, size);
    CrowdedTotals(prefix, count, size);
  }

  lemma CrowdEntries(prefix: string, count: nat, size: nat, entries: nat)
    requires Ascii(prefix) && |prefix| <= 250 && size <= CLUSTER_SIZE && entries in {2, 3}
    requires 1 + CeilDiv(|prefix| + 5, 15) == entries
    ensures EntryCount(Crowd(prefix, count, size)) == 1 + entries * count
  {
    hide Row, UnitCount;
    var row := Row("games/", prefix, count, size, false);
    RowMembers("games/", prefix, count, size, false);
    assert forall i :: 0 <= i < |row| ==> row[i] in row;
    ReservedEach(row, entries);
  }

  lemma CrowdClusters(d: Tree)
    requires d.item.isDirectory && EntryCount(d) <= 4096
    ensures ClustersOf(d) == DirectoryClusters(d) == 1
  {
    hide EntryCount;
  }

  lemma CrowdKept(d: Tree)
    requires |d.children| <= 2047 && EntryCount(d) == 1 + 2 * |d.children|
    ensures NoEntryLost(d) <==> |d.children| <= 1365
    ensures DirectoryFits(d) <==> |d.children| <= 1365
  {
    hide EntryCount;
  }

  /** The build accepts a directory of up to 2047 files with different names of five units. The volume reads back for
      all contents of the files, if and only if there are at most 1365 of them. */
  lemma CrowdedMountsIff(config: Config, hot: seq<Range>, count: nat)
    requires FourGiB(config) && count <= 2047
    ensures DistinctNames(Crowd("", count, 1).children)
    ensures var root := Crowded("", count, 1);
      && Accepted(config, root) && FitsImage(config, root)
      && FatRoom(config, root) && (EntriesKept(root) <==> count <= 1365)
      && (Mountable(config, root) <==> count <= 1365)
      && ((forall sources: Sources :: Complete(root, sources) ==>
          Mount(LayoutOf(config, PlacedRoot(config, root), hot).Image(sources)) == Some(ExpectedVolume(root, sources)))
        <==> count <= 1365)
  {
    hide GeometryOf, LayoutOf, Layout.Image, Mount, ExpectedVolume, Complete, Accepted, FitsImage, PlacedRoot,
      FatRoom, Row, Walk, EntryCount, FileBase, DistinctNames, NoEntryLost, DirectoryFits;
    var root, d := Crowded("", count, 1), Crowd("", count, 1);
    CrowdEntries("", count, 1, 2);
    CrowdedWalk("", count, 1);
    CrowdClusters(d);
    CrowdedFits(config, "", count, 1);
    CrowdKept(d);
    RootClusters(root, d);
    assert DirsOf(root)[1] == d;
    ServedTreeMountsIff(config, root, hot);
  }

  /** The build accepts a directory of 1366 files with different names of five units, but not all of them can be
      listed: the volume does not read back. */
  lemma CrowdedLosesEntries(config: Config, hot: seq<Range>)
    requires FourGiB(config)
    ensures DistinctNames(Crowd("", 1366, 1).children)
    ensures var root := Crowded("", 1366, 1);
      && Accepted(config, root) && FitsImage(config, root) && FatRoom(config, root) && !EntriesKept(root)
      && exists sources: Sources :: (
        && Complete(root, sources)
        && Mount(LayoutOf(config, PlacedRoot(config, root), hot).Image(sources)) != Some(ExpectedVolume(root, sources)))
  {
    hide *;
    CrowdedMountsIff(config, hot, 1366);
  }

  /** The build accepts a directory of 1024 files with different names of 16 units. All entries are kept, but the end
      marker overflows: the first cluster of the first file reads as zeros, and the volume does not read back. */
  lemma CrowdedCoversFile(config: Config, hot: seq<Range>)
    requires FourGiB(config)
    ensures DistinctNames(Crowd("screenshot-", 1024, 1).children)
    ensures var root := Crowded("screenshot-", 1024, 1);
      && Accepted(config, root) && FitsImage(config, root)
      && FatRoom(config, root) && EntriesKept(root) && !FilesUncovered(root)
    ensures var root := Crowded("screenshot-", 1024, 1);
      var l := LayoutOf(config, PlacedRoot(config, root), hot);
      && FirstFile(PlacedRoot(config, root), 6)
      && (forall sources: Sources :: ReadsZero(l, sources, HeapSector(Geo(config), 6)))
      && exists sources: Sources ::
           Complete(root, sources) && Mount(l.Image(sources)) != Some(ExpectedVolume(root, sources))
  {
    hide GeometryOf, LayoutOf, Layout.Image, Layout.SectorBytes, Mount, ExpectedVolume, Complete, Accepted, FitsImage,
      PlacedRoot, FatRoom, Row, Walk, EntryCount, FileBase, HeapSector, FilesUncovered, EntriesKept, ReadsZero,
      DistinctNames, FirstFile;
    var root, d := Crowded("screenshot-", 1024, 1), Crowd("screenshot-", 1024, 1);
    CrowdEntries("screenshot-", 1024, 1, 3);
    CrowdClusters(d);
    CrowdedFits(config, "screenshot-", 1024, 1);
    CrowdedOverflows(root, d);
    CrowdedWalk("screenshot-", 1024, 1);
    assert |d.children| == 1024;
    FirstFileAt(config, root);
    forall sources: Sources
      ensures ReadsZero(LayoutOf(config, PlacedRoot(config, root), hot), sources, HeapSector(Geo(config), 6))
    {
      CoveredClusterIsZero(config, root, hot, sources);
    }
    ServedTreeMountsIff(config, root, hot);
  }

  /** The first file of a tree starts at a cluster. */
  predicate FirstFile(root: Tree, cluster: nat) {
    FilesOf(root) != [] && FilesOf(root)[0].first == cluster
  }

  /** The first file starts right behind the directories. */
  lemma FirstFileAt(config: Config, root: Tree)
    requires Accepted(config, root) && FitsImage(config, root) && FilesOf(root) != []
    ensures FirstFile(PlacedRoot(config, root), FileBase(config, root))
  {
    hide GeometryOf, Accepted, FitsImage, PlacedRoot, Built, DirsOf, FilesOf, FileBase, Next;
    var placed := PlacedRoot(config, root);
    PlacingBuilds(config, root);
    KindsUnchanged(config, root);
    Streams.FileOrder(config, placed, 0);
  }

  lemma CrowdOverflows(d: Tree)
    requires |d.children| == 1024 && EntryCount(d) == 1 + 3 * 1024
    ensures NoEntryLost(d) && !DirectoryFits(d)
  {
    hide EntryCount;
  }

  lemma CrowdedOverflows(root: Tree, d: Tree)
    requires root == Crowded("screenshot-", 1024, 1) && d == Crowd("screenshot-", 1024, 1)
    requires EntryCount(d) == 1 + 3 * 1024
    ensures EntriesKept(root) && !FilesUncovered(root)
  {
    hide Row, Walk, EntryCount, Select, NoEntryLost, DirectoryFits;
    CrowdedWalk("screenshot-", 1024, 1);
    RootClusters(root, d);
    CrowdOverflows(d);
    RowSizes("games/", "screenshot-", 1024, 1);
  }

  lemma RowSizes(parent: string, prefix: string, count: nat, size: nat)
    ensures forall i :: 0 <= i < count ==> Row(parent, prefix, count, size, false)[i].item.size == size
  {
  }

  // A FAT that is too short.

  /** A root with one file that fills every cluster. */
  function FullRoot(): Tree {
    RootWith([Sample("games", "games", 32765 * CLUSTER_SIZE, false, [])])
  }

  lemma FullRootWalk()
    ensures var root := FullRoot();
      && Walk(root.children) == root.children
      && DirsOf(root) == [root] && FilesOf(root) == root.children
  {
    var root := FullRoot();
    hide Walk, Select;
    WalkLeaves(root.children);
    SelectAll(root.children, false);
    RootFirst(root);
    assert [root] + [] == [root];
  }

  /** The build accepts this tree, but whatever the file holds, nothing can be mounted: the FAT has no entry for the
      last two clusters of the file. */
  lemma FullImageDoesNotMount(config: Config, hot: seq<Range>, sources: Sources)
    requires FourGiB(config)
    ensures Accepted(config, FullRoot()) && FitsImage(config, FullRoot())
    ensures EntriesKept(FullRoot()) && !FatRoom(config, FullRoot())
    ensures Mount(LayoutOf(config, PlacedRoot(config, FullRoot()), hot).Image(sources)) == None
  {
    hide GeometryOf, Walk, LayoutOf, Layout.Image, Mount, PlacedRoot, Select, EntryCount, NoEntryLost;
    var root := FullRoot();
    var file := root.children[0];
    SmallGeometry(config);
    FullRootWalk();
    AsciiUnits("games");
    AcceptedRoot(config, root.children);
    RootClusters(root, file);
    OneTotal(root);
    OneTotal(file);
    assert root.children == [file];
    ShortFatServesNothing(config, root, hot, sources);
  }

  // Prefetching behind the FAT.

  /** A root with so many empty directories that their clusters fill the image. */
  function WideRoot(): Tree {
    RootWith(Row("", "", 32750, 0, true))
  }

  lemma WideRootWalk()
    ensures var root := WideRoot();
      && Walk(root.children) == root.children
      && DirsOf(root) == [root] + root.children && FilesOf(root) == []
  {
    var root := WideRoot();
    hide Walk, Select, Row;
    RowMembers("", "", 32750, 0, true);
    WalkLeaves(root.children);
    SelectAll(root.children, true);
    RootFirst(root);
  }

  lemma WideRootClusters()
    ensures ClustersOf(WideRoot()) == 16
  {
    hide Row, UnitCount, EntriesReserved;
    var row := WideRoot().children;
    RowMembers("", "", 32750, 0, true);
    RowReserves(row);
    WideEntries(WideRoot());
  }

  lemma RowReserves(row: seq<Tree>)
    requires forall t :: t in row ==> UnitCount(t.item.name) == 5
    ensures EntriesReserved(NamesOf(row)) == 2 * |row|
  {
    hide UnitCount, EntriesReserved, NamesOf;
    assert forall i :: 0 <= i < |row| ==> row[i] in row;
    ReservedEach(row, 2);
  }

  lemma WideEntries(root: Tree)
    requires root.item.isDirectory && root.item.path == ""
    requires |root.children| == 32750 && EntriesReserved(NamesOf(root.children)) == 2 * 32750
    ensures ClustersOf(root) == 16
  {
    hide EntriesReserved, NamesOf;
  }

  lemma WideRootFits(config: Config)
    requires FourGiB(config)
    ensures var root := WideRoot();
      Accepted(config, root) && FitsImage(config, root) && FileBase(config, root) == 32770 && |DirsOf(root)| == 32751
    ensures DistinctNames(WideRoot().children)
  {
    RowDistinct("", "", 32750, 0, true);
    hide GeometryOf, Walk, Select, Row, ClustersOf;
    var root := WideRoot();
    SmallGeometry(config);
    WideRootWalk();
    WideRootClusters();
    RowMembers("", "", 32750, 0, true);
    AcceptedRoot(config, root.children);
    TotalOnes(root.children);
    TotalCons(root, root.children);
    NoTotal();
  }

  lemma NoTotal()
    ensures TotalClusters([]) == 0
  {
  }

  lemma {:induction false} TotalCons(t: Tree, ts: seq<Tree>)
    ensures TotalClusters([t] + ts) == ClustersOf(t) + TotalClusters(ts)
  {
    hide ClustersOf;
    var all := [t] + ts;
    if ts == [] {
      OneTotal(t);
      assert all == [t];
    } else {
      TotalCons(t, ts[..|ts| - 1]);
      assert all[..|all| - 1] == [t] + ts[..|ts| - 1];
    }
  }

  /** The build accepts this tree; the FAT sectors that are read ahead for its last directory lie behind the FAT, and
      a byte of them is no metadata. */
  lemma WidePrefetchInexact(config: Config, hot: seq<Range>, ranges: seq<Range>)
    requires FourGiB(config)
    requires var l := LayoutOf(config, PlacedRoot(config, WideRoot()), hot);
      ExactlySectors(hot, l.metadata.Keys) && SameCover(ranges, Selected(l, true, true))
    ensures Accepted(config, WideRoot()) && FitsImage(config, WideRoot()) && DistinctNames(WideRoot().children)
    ensures !DirectoriesInFat(config, WideRoot())
    ensures exists at: int ::
      CoveredBy(ranges, at)
      && LayoutOf(config, PlacedRoot(config, WideRoot()), hot).MetadataSector(at / SECTOR_SIZE) == None
  {
    hide GeometryOf, Walk, LayoutOf, Layout.MetadataSector, PlacedRoot, Accepted, FitsImage, WideRoot, CoveredBy,
      Selected, ExactlySectors, SameCover, FileBase, DirsOf, DistinctNames;
    var placed := PlacedRoot(config, WideRoot());
    SmallGeometry(config);
    WideRootFits(config);
    PlacingBuilds(config, WideRoot());
    KindsUnchanged(config, WideRoot());
    assert !DirectoriesInFat(config, placed);
    GapPrefetched(config, placed, hot, true, ranges);
  }
}
