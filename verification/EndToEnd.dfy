/** From the scanned tree to what a console reads: the round trip, stated without cluster numbers. */
module EndToEnd {
  import opened Allocation
  import opened Breaks
  import opened Bytes
  import opened Consts
  import opened Directory
  import opened Geometry
  import opened Layouts
  import opened Mounting
  import opened Plan
  import opened Reader
  import opened RoundTrip
  import opened Served
  import opened ServedImage
  import opened Sorting
  import opened Trees
  import opened Wrappers

  // What a console should see does not depend on cluster numbers.

  ghost predicate Alike(a: seq<Tree>, b: seq<Tree>, sources: Sources) {
    && |a| == |b|
    && forall i :: 0 <= i < |a| ==> a[i].item == b[i].item && Expected(a[i], sources) == Expected(b[i], sources)
  }

  lemma AlikeFront(x: Tree, y: Tree, a: seq<Tree>, b: seq<Tree>, sources: Sources)
    requires x.item == y.item && Expected(x, sources) == Expected(y, sources) && Alike(a, b, sources)
    ensures Alike([x] + a, [y] + b, sources)
  {
    hide Expected;
  }

  lemma {:induction false} InsertAlike(x: Tree, y: Tree, a: seq<Tree>, b: seq<Tree>, sources: Sources)
    requires x.item == y.item && Expected(x, sources) == Expected(y, sources) && Alike(a, b, sources)
    ensures Alike(Insert(x, a, ByName), Insert(y, b, ByName), sources)
  {
    hide Expected;
    if a == [] || ByName(x, a[0]) {
      AlikeFront(x, y, a, b, sources);
    } else {
      InsertAlike(x, y, a[1..], b[1..], sources);
      AlikeFront(a[0], b[0], Insert(x, a[1..], ByName), Insert(y, b[1..], ByName), sources);
    }
  }

  lemma {:induction false} SortAlike(a: seq<Tree>, b: seq<Tree>, sources: Sources)
    requires Alike(a, b, sources)
    ensures Alike(Sort(a, ByName), Sort(b, ByName), sources)
  {
    hide Expected;
    if a != [] {
      SortAlike(a[1..], b[1..], sources);
      InsertAlike(a[0], b[0], Sort(a[1..], ByName), Sort(b[1..], ByName), sources);
    }
  }

  lemma ExpectedAlike(a: seq<Tree>, b: seq<Tree>, sources: Sources)
    requires Alike(a, b, sources)
    ensures ExpectedAll(Sort(a, ByName), sources) == ExpectedAll(Sort(b, ByName), sources)
  {
    hide Expected, Sort;
    SortAlike(a, b, sources);
  }

  lemma NodeAlike(p: Tree, t: Tree, sources: Sources)
    requires p.item == t.item
    requires t.item.isDirectory ==> Alike(p.children, t.children, sources)
    ensures Expected(p, sources) == Expected(t, sources)
  {
    hide Sort, ExpectedAll, Alike;
    if t.item.isDirectory {
      ExpectedDir(p, sources);
      ExpectedDir(t, sources);
      ExpectedAlike(p.children, t.children, sources);
    }
  }

  lemma AlikeCons(a: seq<Tree>, b: seq<Tree>, sources: Sources)
    requires a != [] && b != [] && a[0].item == b[0].item && Expected(a[0], sources) == Expected(b[0], sources)
    requires Alike(a[1..], b[1..], sources)
    ensures Alike(a, b, sources)
  {
    hide Expected;
    forall i | 0 <= i < |a| ensures a[i].item == b[i].item && Expected(a[i], sources) == Expected(b[i], sources) {
      if i > 0 {
        assert a[i] == a[1..][i - 1] && b[i] == b[1..][i - 1];
      }
    }
  }

  lemma {:induction false} PlaceAlike(forest: seq<Tree>, walk: seq<Tree>, k: nat, base: nat, sources: Sources)
    requires k + |Walk(forest)| <= |walk|
    ensures Alike(Place(forest, walk, k, base), forest, sources)
    decreases forest
  {
    hide Expected, Walk, Place, FirstFor, ClustersOf, Below;
    if forest != [] {
      hide Alike;
      var t, placed := forest[0], Place(forest, walk, k, base);
      WalkUnfold(forest);
      PlaceUnfold(forest, walk, k, base);
      if t.item.isDirectory {
        PlaceAlike(t.children, walk, k + 1, base, sources);
      }
      NodeAlike(placed[0], t, sources);
      PlaceAlike(forest[1..], walk, k + 1 + |Below(t)|, base, sources);
      AlikeCons(placed, forest, sources);
    }
  }

  lemma ExpectedUnchanged(config: Config, root: Tree, sources: Sources)
    requires root.item.isDirectory
    ensures ExpectedVolume(PlacedRoot(config, root), sources) == ExpectedVolume(root, sources)
  {
    hide Walk, GeometryOf, Place, Expected, Sort, ExpectedAll;
    PlaceAlike([root], Walk([root]), 0, BaseOf(config), sources);
    var placed := PlacedRoot(config, root);
    ExpectedDir(placed, sources);
    ExpectedDir(root, sources);
  }

  // Neither does the condition for the round trip.

  lemma {:induction false} SelectSame(a: seq<Tree>, b: seq<Tree>, directories: bool)
    requires SameNodes(a, b)
    ensures SameNodes(Select(a, directories), Select(b, directories))
  {
    hide SameNode;
    if a != [] {
      SelectSame(a[..|a| - 1], b[..|b| - 1], directories);
      assert SameNode(a[|a| - 1], b[|b| - 1]);
      SameItem(a[|a| - 1], b[|b| - 1]);
    }
  }

  lemma SameDirectory(a: Tree, b: Tree)
    requires SameNode(a, b)
    ensures a.item == b.item && NoEntryLost(a) == NoEntryLost(b) && DirectoryFits(a) == DirectoryFits(b)
  {
    hide DirectoryClusters, EntryCount;
    SameClusters(a, b);
    SameReservation(a, b);
  }

  lemma SameReservation(a: Tree, b: Tree)
    requires EntryCount(a) == EntryCount(b)
    ensures DirectoryClusters(a) == DirectoryClusters(b)
  {
    hide EntryCount;
  }

  lemma KindsUnchanged(config: Config, root: Tree)
    requires Accepted(config, root) && FitsImage(config, root)
    ensures var placed := PlacedRoot(config, root);
      && SameNodes(DirsOf(placed), DirsOf(root)) && SameNodes(FilesOf(placed), FilesOf(root))
      && Next(config, placed) == Next(config, root) && FileBase(config, placed) == FileBase(config, root)
  {
    hide Walk, GeometryOf, Place, Accepted, SameNode, Select, NextCluster, TotalClusters;
    var placed := PlacedRoot(config, root);
    PlacingBuilds(config, root);
    PlacedTree(root, BaseOf(config));
    SelectSame(Walk([placed]), Walk([root]), true);
    SelectSame(Walk([placed]), Walk([root]), false);
    var a, b := Walk([placed]), Walk([root]);
    assert a[..|a|] == a && b[..|b|] == b;
    SameTotals(a, b, |a|, true);
  }

  /** The three conditions of the round trip are about the scanned tree. */
  lemma ConditionsUnchanged(config: Config, root: Tree)
    requires Accepted(config, root) && FitsImage(config, root)
    ensures FatRoom(config, PlacedRoot(config, root)) <==> FatRoom(config, root)
    ensures EntriesKept(PlacedRoot(config, root)) <==> EntriesKept(root)
    ensures FilesUncovered(PlacedRoot(config, root)) <==> FilesUncovered(root)
    ensures forall sources: Sources :: Complete(PlacedRoot(config, root), sources) <==> Complete(root, sources)
  {
    hide GeometryOf, Accepted, SameNode, NoEntryLost, DirectoryFits, Next, FileBase, PlacedRoot, DirsOf, FilesOf,
      FitsImage;
    var placed := PlacedRoot(config, root);
    KindsUnchanged(config, root);
    forall i | 0 <= i < |DirsOf(root)|
      ensures NoEntryLost(DirsOf(placed)[i]) == NoEntryLost(DirsOf(root)[i])
      ensures DirectoryFits(DirsOf(placed)[i]) == DirectoryFits(DirsOf(root)[i])
    {
      SameDirectory(DirsOf(placed)[i], DirsOf(root)[i]);
    }
    forall i | 0 <= i < |FilesOf(root)| ensures FilesOf(placed)[i].item == FilesOf(root)[i].item {
      SameItem(FilesOf(placed)[i], FilesOf(root)[i]);
    }
  }

  lemma MountableUnchanged(config: Config, root: Tree)
    requires Accepted(config, root) && FitsImage(config, root)
    ensures Mountable(config, PlacedRoot(config, root)) <==> Mountable(config, root)
  {
    hide GeometryOf, Accepted, FatRoom, EntriesKept, FilesUncovered, PlacedRoot, FitsImage;
    ConditionsUnchanged(config, root);
  }

  /** Every byte string that the served image of an accepted tree can be is read back as that tree, for all
      contents of the source files, if and only if the FAT reaches the last allocated cluster, every directory
      keeps its entries within its reservation, and no file byte lies under the last end marker. */
  lemma ServedTreeMountsIff(config: Config, root: Tree, hot: seq<Range>)
    requires Accepted(config, root) && FitsImage(config, root)
    ensures LayoutOf(config, PlacedRoot(config, root), hot).Servable()
    ensures (forall sources: Sources :: Complete(root, sources) ==>
        Mount(LayoutOf(config, PlacedRoot(config, root), hot).Image(sources)) == Some(ExpectedVolume(root, sources)))
      <==> Mountable(config, root)
  {
    hide Walk, GeometryOf, Place, Accepted, Mount, LayoutOf, Layout.Image, ExpectedVolume, Complete, Mountable, Built,
      FitsImage, PlacedRoot, FatRoom, EntriesKept, FilesUncovered;
    PlacingBuilds(config, root);
    var placed := PlacedRoot(config, root);
    LayoutNumbers(config, placed, hot);
    MountRoundTripIff(config, placed, hot);
    MountableUnchanged(config, root);
    ConditionsUnchanged(config, root);
    IsDirectory(config, root);
    forall sources: Sources ensures ExpectedVolume(placed, sources) == ExpectedVolume(root, sources) {
      ExpectedUnchanged(config, root, sources);
    }
    assert forall sources: Sources ::
      ImageOf(config, placed, hot, sources) == LayoutOf(config, placed, hot).Image(sources);
  }

  /** When all directories keep their entries but the FAT does not reach the last allocated cluster, the served image
      cannot be mounted at all. */
  lemma ShortFatServesNothing(config: Config, root: Tree, hot: seq<Range>, sources: Sources)
    requires Accepted(config, root) && FitsImage(config, root) && EntriesKept(root) && !FatRoom(config, root)
    ensures Mount(LayoutOf(config, PlacedRoot(config, root), hot).Image(sources)) == None
  {
    hide Walk, GeometryOf, Accepted, Mount, LayoutOf, Layout.Image, Built, FitsImage, PlacedRoot, FatRoom, EntriesKept,
      FilesUncovered;
    PlacingBuilds(config, root);
    ConditionsUnchanged(config, root);
    ShortFatUnmounts(config, PlacedRoot(config, root), hot, sources);
  }

  /** The cluster that starts at the given sector reads as zeros. */
  ghost predicate ReadsZero(l: Layout, sources: Sources, first: int) {
    forall sector :: first <= sector < first + SECTORS_PER_CLUSTER ==>
      l.SectorBytes(sources, sector) == Zeros(SECTOR_SIZE)
  }

  /** When the last end marker overflows while all entries are kept, the first cluster behind the directories reads
      as zeros, whatever file owns it. */
  lemma CoveredClusterIsZero(config: Config, root: Tree, hot: seq<Range>, sources: Sources)
    requires Accepted(config, root) && FitsImage(config, root) && EntriesKept(root) && !FilesUncovered(root)
    ensures ReadsZero(LayoutOf(config, PlacedRoot(config, root), hot), sources,
                      HeapSector(Geo(config), FileBase(config, root)))
  {
    hide Walk, GeometryOf, Accepted, LayoutOf, Layout.SectorBytes, Built, FitsImage, PlacedRoot, EntriesKept, FileBase,
      DirsOf, FilesOf, DirectoryFits, Next, HeapSector;
    var placed := PlacedRoot(config, root);
    PlacingBuilds(config, root);
    ConditionsUnchanged(config, root);
    KindsUnchanged(config, root);
    LastEnd(config, placed);
    var l := LayoutOf(config, placed, hot);
    var first := HeapSector(Geo(config), FileBase(config, placed));
    forall sector | first <= sector < first + SECTORS_PER_CLUSTER
      ensures l.SectorBytes(sources, sector) == Zeros(SECTOR_SIZE)
    {
      forall m | 0 <= m < SECTOR_SIZE ensures l.SectorBytes(sources, sector)[m] == 0 {
        CoveredSector(config, placed, hot, sources, sector - first, m);
      }
    }
  }
}
