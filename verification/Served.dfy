/** What the sectors of a built layout hold. */
module Served {
  import opened Allocation
  import opened Boot
  import opened Bytes
  import opened Consts
  import opened Directory
  import opened Geometry
  import opened Layouts
  import opened Names
  import opened Plan
  import opened Runs
  import opened Trees

  /** What configuration and scan deliver: a sector-aligned image of supported size, and a tree
      under a root with the empty path, whose other nodes have non-empty paths and storable names. */
  ghost predicate Accepted(config: Config, root: Tree) {
    && config.totalBytes % SECTOR_SIZE == 0
    && 2 * REGION_BYTES < config.totalBytes <= MAX_IMAGE_BYTES
    && root.item.isDirectory && root.item.path == ""
    && forall t :: t in Walk(root.children) ==> NameFits(t.item.name) && t.item.path != ""
  }

  /** A root whose tree is placed and fits: the state of the builder once it has assigned clusters. */
  ghost predicate Built(config: Config, root: Tree) {
    && Accepted(config, root)
    && Placed(Walk([root]), BaseOf(config))
    && FitsImage(config, root)
  }

  function DirsOf(root: Tree): seq<Tree> {
    Dirs(Walk([root]))
  }

  function FilesOf(root: Tree): seq<Tree> {
    Files(Walk([root]))
  }

  /** First cluster behind the directories. */
  function FileBase(config: Config, root: Tree): nat {
    BaseOf(config) + TotalClusters(DirsOf(root))
  }

  /** First free cluster. */
  function Next(config: Config, root: Tree): nat {
    NextCluster(Walk([root]), BaseOf(config))
  }

  function RunsFor(config: Config, root: Tree): seq<Run> {
    AllocatedRuns(Walk([root]), Geo(config).clusterCount)
  }

  lemma SameAccepted(config: Config, placed: Tree, root: Tree)
    requires Accepted(config, root)
    requires SameNodes(Walk([placed]), Walk([root]))
    requires Walk([root]) == [root] + Walk(root.children)
    requires placed.item.isDirectory ==> Walk([placed]) == [placed] + Walk(placed.children)
    requires Walk([placed]) != [] && Walk([placed])[0] == placed
    ensures Accepted(config, placed)
  {
    hide Walk, SameNode, NameFits;
    var a, b := Walk([placed]), Walk([root]);
    assert SameNode(a[0], b[0]);
    SameItem(a[0], b[0]);
    forall t | t in Walk(placed.children) ensures NameFits(t.item.name) && t.item.path != "" {
      var i :| 0 <= i < |Walk(placed.children)| && Walk(placed.children)[i] == t;
      assert a[i + 1] == t && b[i + 1] == Walk(root.children)[i];
      assert SameNode(a[i + 1], b[i + 1]);
      SameItem(a[i + 1], b[i + 1]);
      assert b[i + 1] in Walk(root.children);
    }
  }

  lemma WalkOne(t: Tree)
    ensures Walk([t]) == [t] + Below(t)
  {
    assert [t][1..] == [];
  }

  /** A placed scan is a built tree, and every accepted tree that fits can be placed. */
  lemma PlacingBuilds(config: Config, root: Tree)
    requires Accepted(config, root) && FitsImage(config, root)
    ensures Built(config, PlacedRoot(config, root))
    ensures SameNodes(Walk([PlacedRoot(config, root)]), Walk([root]))
  {
    hide Place, Placed, NextCluster, BaseCluster, GeometryOf, Accepted, Walk, SameNode;
    var placed := PlacedRoot(config, root);
    PlacedTree(root, BaseOf(config));
    WalkOne(root);
    WalkOne(placed);
    IsDirectory(config, root);
    SameAccepted(config, placed, root);
  }

  lemma IsDirectory(config: Config, root: Tree)
    requires Accepted(config, root)
    ensures root.item.isDirectory
  {
  }

  lemma GeoNumbers(config: Config, root: Tree)
    requires Built(config, root)
    ensures var g := Geo(config);
      && 2 <= g.clusterCount < 0x100_0000
      && g.fatLength == SECTORS_PER_CLUSTER * CeilDiv(g.clusterCount, 32768)
      && SECTORS_PER_CLUSTER <= g.fatLength <= 0x2_0000
      && FAT_OFFSET + g.fatLength <= g.heapOffset
      && g.heapOffset + SECTORS_PER_CLUSTER * g.clusterCount <= config.totalBytes / SECTOR_SIZE < 0x1_0000_0000
      && BitmapLength(g.clusterCount) <= BitmapClusters(g.clusterCount) * CLUSTER_SIZE
      && UpcaseClusters() == 1
  {
    hide GeometryOf, Walk, TotalClusters, Select, Placed;
    GeometrySafe(config.totalBytes / SECTOR_SIZE);
  }

  /** Directories, files and all runs lie one behind the other in the heap. */
  lemma Tilings(config: Config, root: Tree)
    requires Built(config, root)
    ensures DirsOf(root) != [] && DirsOf(root)[0] == root
    ensures Tiles(RunsFor(config, root), BITMAP_CLUSTER, Next(config, root))
    ensures Tiles(RunsOf(DirsOf(root)), BaseOf(config), FileBase(config, root))
    ensures Tiles(RunsOf(FilesOf(root)), FileBase(config, root), Next(config, root))
    ensures Next(config, root) - 2 <= Geo(config).clusterCount
  {
    hide GeometryOf, Walk, TotalClusters, Select, Placed, Tiles;
    var walk := Walk([root]);
    var base := BaseOf(config);
    RootFirst(root);
    AllocationTiles(walk, Geo(config).clusterCount);
    assert walk[..|walk|] == walk;
    KindTiles(walk, |walk|, true, base);
    KindTiles(walk, |walk|, false, base);
  }

  // Nodes.

  lemma CountOf(config: Config, root: Tree, t: Tree)
    requires Built(config, root) && t in Walk([root])
    ensures t.count == ClustersOf(t)
  {
    hide Walk, ClustersOf, Accepted, FitsImage;
    var k :| 0 <= k < |Walk([root])| && Walk([root])[k] == t;
    PlacedAt(Walk([root]), k, BaseOf(config));
  }

  /** A visited node below the root. */
  lemma Visited(config: Config, root: Tree, directories: bool, i: nat)
    requires Built(config, root) && i < |Select(Walk([root]), directories)|
    ensures var t := Select(Walk([root]), directories)[i];
      && t in Walk([root]) && t.item.isDirectory == directories
      && t.count == ClustersOf(t)
      && (i > 0 || !directories ==> t in Walk(root.children) && t.item.path != "")
  {
    hide ClustersOf, NameFits, FitsImage, Placed;
    var t := Select(Walk([root]), directories)[i];
    SelectMembers(Walk([root]), directories);
    CountOf(config, root, t);
    RootFirst(root);
    hide Walk, Select;
    if i > 0 || !directories {
      var below := Select(Walk(root.children), directories);
      assert t == below[if directories then i - 1 else i];
      SelectMembers(Walk(root.children), directories);
    }
  }

  lemma ChildNames(config: Config, root: Tree, i: nat)
    requires Built(config, root) && i < |DirsOf(root)|
    ensures forall c :: c in DirsOf(root)[i].children ==> c in Walk(root.children) && NameFits(c.item.name)
  {
    Tilings(config, root);
    Visited(config, root, true, i);
    ChildrenVisited(root, i);
    hide Walk, NameFits, FitsImage, Placed, Select;
  }

  lemma ChildrenVisited(root: Tree, i: nat)
    requires i < |DirsOf(root)| && DirsOf(root)[0] == root && DirsOf(root)[i].item.isDirectory
    requires i > 0 ==> DirsOf(root)[i] in Walk(root.children)
    ensures forall c :: c in DirsOf(root)[i].children ==> c in Walk(root.children)
  {
    hide Walk, DirsOf;
    var t := DirsOf(root)[i];
    forall c | c in t.children ensures c in Walk(root.children) {
      if i == 0 {
        var k :| 0 <= k < |root.children| && root.children[k] == c;
        WalkContains(root.children, k);
      } else {
        VisitedChild(root.children, t, c);
      }
    }
  }

  // Writes.

  function PutsFor(config: Config, root: Tree): (puts: seq<Put>)
    requires DirsOf(root) != []
  {
    Puts(config, Geo(config), DirsOf(root))
  }

  function BytesOf(config: Config, root: Tree, i: nat): seq<byte>
    requires i < |DirsOf(root)|
  {
    DirectoryBytes(DirsOf(root)[i], Lead(config, Geo(config), i == 0), config.strUpper)
  }

  function PutIndex(i: nat): nat {
    if i == 0 then 2 else i + 3
  }

  lemma LayoutMetadata(config: Config, root: Tree, hot: seq<Range>)
    requires Built(config, root)
    ensures DirsOf(root) != []
    ensures LayoutOf(config, root, hot).metadata == Stored(PutsFor(config, root))
  {
    hide Stored, Puts, GeometryOf, Walk, Dirs;
    RootFirst(root);
  }

  lemma DirectoryPutAt(config: Config, g: Geometry, dirs: seq<Tree>, i: nat)
    requires i < |dirs|
    ensures Puts(config, g, dirs)[PutIndex(i)] == DirectoryPut(config, g, dirs[i], i == 0)
  {
    hide DirectoryPut, BootRegion, UpcaseTable, VolumeOf, HeapSector;
  }

  lemma DirectorySize(config: Config, root: Tree, i: nat)
    requires Built(config, root) && i < |DirsOf(root)|
    ensures |BytesOf(config, root, i)| == PrintedClusters(DirsOf(root)[i]) * CLUSTER_SIZE
    ensures DirsOf(root)[i].count == DirectoryClusters(DirsOf(root)[i]) <= PrintedClusters(DirsOf(root)[i])
  {
    hide GeometryOf, Walk, Select, Placed, FitsImage, DirectoryBytes, PrintedClusters, DirectoryClusters, Lead,
      NameFits;
    Tilings(config, root);
    Visited(config, root, true, i);
    ChildNames(config, root, i);
    RootPath(config, root);
    PrintedSize(DirsOf(root)[i], Lead(config, Geo(config), i == 0), config.strUpper);
  }

  lemma RootPath(config: Config, root: Tree)
    requires Accepted(config, root)
    ensures root.item.path == "" && root.item.isDirectory
  {
  }

  /** The write of directory `i`: at its first cluster, at least as long as its reservation. */
  lemma DirectoryWrite(config: Config, root: Tree, i: nat)
    requires Built(config, root) && i < |DirsOf(root)|
    ensures var t := DirsOf(root)[i];
      var p := PutsFor(config, root)[PutIndex(i)];
      && p.start == HeapSector(Geo(config), t.first)
      && p.data == BytesOf(config, root, i)
      && p.Sectors() == PrintedClusters(t) * SECTORS_PER_CLUSTER
      && t.count == DirectoryClusters(t) <= PrintedClusters(t)
  {
    hide GeometryOf, Built, DirsOf, Puts, DirectoryBytes, HeapSector, PrintedClusters, DirectoryClusters;
    DirectoryPutAt(config, Geo(config), DirsOf(root), i);
    DirectorySize(config, root, i);
  }

  /** The other four writes. */
  lemma FixedWrites(config: Config, root: Tree)
    requires Built(config, root)
    ensures DirsOf(root) != []
    ensures var puts := PutsFor(config, root);
      var region := BootRegion(VolumeOf(config, Geo(config), root.first), config.Serial());
      && |puts| == 3 + |DirsOf(root)|
      && puts[0] == Put(0, region) && puts[0].Sectors() == BOOT_SECTORS
      && puts[1] == Put(BOOT_SECTORS, region) && puts[1].Sectors() == BOOT_SECTORS
      && puts[3] == Put(HeapSector(Geo(config), UpcaseCluster(Geo(config).clusterCount)), UpcaseTable(config.strUpper))
      && puts[3].Sectors() == SECTORS_PER_CLUSTER
  {
    hide GeometryOf, Walk, Select, Placed, FitsImage, DirectoryBytes, BootRegion, UpcaseTable, HeapSector, VolumeOf;
    Tilings(config, root);
  }

  /** Directory `i` lies between the up-case table and the files, behind all earlier directories. */
  lemma DirectoryOrder(config: Config, root: Tree, i: nat)
    requires Built(config, root) && i < |DirsOf(root)|
    ensures var dirs := DirsOf(root);
      && BaseOf(config) <= dirs[i].first < dirs[i].first + dirs[i].count <= FileBase(config, root)
      && forall k :: 0 <= k < i ==> dirs[k].first + dirs[k].count <= dirs[i].first
  {
    hide GeometryOf, Built, DirsOf, Tiles, FileBase, BaseCluster;
    Tilings(config, root);
    var dirs := DirsOf(root);
    var runs := RunsOf(dirs);
    TilesInOrder(runs, BaseOf(config), FileBase(config, root));
    assert runs[i] == RunOf(dirs[i]);
    forall k | 0 <= k < i ensures dirs[k].first + dirs[k].count <= dirs[i].first {
      assert runs[k] == RunOf(dirs[k]);
    }
  }

  /** Which directory the write at position `j` belongs to. */
  function DirectoryAt(j: nat): nat
    requires j >= 2
  {
    if j == 2 then 0 else j - 3
  }

  lemma WriteStarts(config: Config, root: Tree, j: nat)
    requires Built(config, root) && j < |DirsOf(root)| + 3
    ensures DirsOf(root) != []
    ensures var p := PutsFor(config, root)[j];
      && (j < 2 ==> p.start == BOOT_SECTORS * j && p.Sectors() == BOOT_SECTORS)
      && (j == 3 ==> p.start == HeapSector(Geo(config), UpcaseCluster(Geo(config).clusterCount))
                     && p.start + p.Sectors() == HeapSector(Geo(config), BaseOf(config)))
      && (j >= 2 && j != 3 ==>
          var t := DirsOf(root)[DirectoryAt(j)];
          p.start == HeapSector(Geo(config), t.first) >= HeapSector(Geo(config), BaseOf(config))
          && p.Sectors() == PrintedClusters(t) * SECTORS_PER_CLUSTER)
  {
    hide GeometryOf, Built, DirsOf, PutsFor, PrintedClusters, Put.Sectors, BytesOf, BootRegion, UpcaseTable, VolumeOf,
      DirectoryClusters;
    Tilings(config, root);
    FixedWrites(config, root);
    if j >= 2 && j != 3 {
      DirectoryWrite(config, root, DirectoryAt(j));
      DirectoryOrder(config, root, DirectoryAt(j));
    }
  }

  // Lookups.

  /** Sector `k` of the main boot region (copy 0) or of its backup (copy 1). */
  lemma BootSector(config: Config, root: Tree, hot: seq<Range>, copy: nat, k: nat)
    requires Built(config, root) && copy < 2 && k < BOOT_SECTORS
    ensures var metadata := LayoutOf(config, root, hot).metadata;
      && BOOT_SECTORS * copy + k in metadata
      && metadata[BOOT_SECTORS * copy + k]
         == SectorOf(BootRegion(VolumeOf(config, Geo(config), root.first), config.Serial()), k)
  {
    hide GeometryOf, Built, DirsOf, PutsFor, BootRegion, VolumeOf, Stored, SectorOf, HeapSector, Put.Sectors, LayoutOf;
    LayoutMetadata(config, root, hot);
    FixedWrites(config, root);
    HeapBehindBoot(config, root);
    var puts := PutsFor(config, root);
    var sector := BOOT_SECTORS * copy + k;
    forall j | copy < j < |puts| ensures !puts[j].Covers(sector) {
      WriteStarts(config, root, j);
    }
    StoredAt(puts, copy, sector);
  }

  /** The heap starts behind boot regions and FAT; its first clusters are in order. */
  lemma HeapBehindBoot(config: Config, root: Tree)
    requires Built(config, root)
    ensures var g := Geo(config);
      && 2 * BOOT_SECTORS < FAT_OFFSET <= FAT_OFFSET + g.fatLength <= HeapSector(g, BITMAP_CLUSTER)
      && HeapSector(g, BITMAP_CLUSTER) + BitmapClusters(g.clusterCount) * SECTORS_PER_CLUSTER
         == HeapSector(g, UpcaseCluster(g.clusterCount)) < HeapSector(g, BaseOf(config))
      && 0 < CeilDiv(BitmapLength(g.clusterCount), SECTOR_SIZE) <= BitmapClusters(g.clusterCount) * SECTORS_PER_CLUSTER
  {
    hide GeometryOf, Built;
    GeoNumbers(config, root);
  }

  /** Between the boot regions and the up-case table nothing is stored: FAT and bitmap are lazy. */
  lemma FreeSector(config: Config, root: Tree, hot: seq<Range>, sector: int)
    requires Built(config, root)
    requires sector < 0 || 2 * BOOT_SECTORS <= sector < HeapSector(Geo(config), UpcaseCluster(Geo(config).clusterCount))
    ensures sector !in LayoutOf(config, root, hot).metadata
  {
    hide GeometryOf, Built, DirsOf, PutsFor, Stored, HeapSector, Put.Sectors;
    LayoutMetadata(config, root, hot);
    FixedWrites(config, root);
    HeapBehindBoot(config, root);
    var puts := PutsFor(config, root);
    forall j | 0 <= j < |puts| ensures !puts[j].Covers(sector) {
      WriteStarts(config, root, j);
    }
    StoredKeys(puts, sector);
  }

  lemma UpcaseSector(config: Config, root: Tree, hot: seq<Range>, sector: int)
    requires Built(config, root)
    requires var start := HeapSector(Geo(config), UpcaseCluster(Geo(config).clusterCount));
      start <= sector < start + SECTORS_PER_CLUSTER
    ensures var metadata := LayoutOf(config, root, hot).metadata;
      && sector in metadata
      && metadata[sector] == SectorOf(UpcaseTable(config.strUpper),
           sector - HeapSector(Geo(config), UpcaseCluster(Geo(config).clusterCount)))
  {
    hide GeometryOf, Built, DirsOf, PutsFor, Stored, HeapSector, UpcaseTable, SectorOf, Put.Sectors;
    LayoutMetadata(config, root, hot);
    FixedWrites(config, root);
    var puts := PutsFor(config, root);
    WriteStarts(config, root, 3);
    forall j | 3 < j < |puts| ensures !puts[j].Covers(sector) {
      WriteStarts(config, root, j);
    }
    StoredAt(puts, 3, sector);
  }

  /** The reserved clusters of a directory hold the beginning of what was printed for it. */
  lemma DirectorySector(config: Config, root: Tree, hot: seq<Range>, i: nat, sector: int)
    requires Built(config, root) && i < |DirsOf(root)|
    requires var t := DirsOf(root)[i];
      HeapSector(Geo(config), t.first) <= sector < HeapSector(Geo(config), t.first + t.count)
    ensures var metadata := LayoutOf(config, root, hot).metadata;
      && sector in metadata
      && metadata[sector] == SectorOf(BytesOf(config, root, i), sector - HeapSector(Geo(config), DirsOf(root)[i].first))
  {
    hide GeometryOf, Built, DirsOf, PutsFor, Stored, BytesOf, SectorOf, PrintedClusters, DirectoryClusters, Put.Sectors;
    LayoutMetadata(config, root, hot);
    FixedWrites(config, root);
    var puts := PutsFor(config, root);
    DirectoryWrite(config, root, i);
    DirectoryOrder(config, root, i);
    HeapBehindBoot(config, root);
    assert puts[PutIndex(i)].Covers(sector);
    forall j | PutIndex(i) < j < |puts| ensures !puts[j].Covers(sector) {
      WriteStarts(config, root, j);
      if j != 3 {
        DirectoryOrder(config, root, DirectoryAt(j));
      }
    }
    StoredAt(puts, PutIndex(i), sector);
  }

  /** Behind the directories, a sector is stored only if some directory was printed that far. */
  lemma OverflowSector(config: Config, root: Tree, hot: seq<Range>, sector: int)
    requires Built(config, root) && sector >= HeapSector(Geo(config), FileBase(config, root))
    ensures sector in LayoutOf(config, root, hot).metadata <==>
      exists i :: 0 <= i < |DirsOf(root)| &&
        sector < HeapSector(Geo(config), DirsOf(root)[i].first + PrintedClusters(DirsOf(root)[i]))
  {
    hide GeometryOf, Built, DirsOf, PutsFor, Stored, FileBase, PrintedClusters, Put.Sectors;
    LayoutMetadata(config, root, hot);
    FixedWrites(config, root);
    HeapBehindBoot(config, root);
    var puts := PutsFor(config, root);
    var dirs := DirsOf(root);
    StoredKeys(puts, sector);
    if j :| 0 <= j < |puts| && puts[j].Covers(sector) {
      CoveringWrite(config, root, j, sector);
      var i := DirectoryAt(j);
      assert sector < HeapSector(Geo(config), dirs[i].first + PrintedClusters(dirs[i]));
    }
    if i :| 0 <= i < |dirs| && sector < HeapSector(Geo(config), dirs[i].first + PrintedClusters(dirs[i])) {
      OverflowCovers(config, root, i, sector);
    }
  }

  lemma OverflowCovers(config: Config, root: Tree, i: nat, sector: int)
    requires Built(config, root) && i < |DirsOf(root)|
    requires var t := DirsOf(root)[i];
      HeapSector(Geo(config), FileBase(config, root)) <= sector < HeapSector(Geo(config), t.first + PrintedClusters(t))
    ensures PutIndex(i) < |PutsFor(config, root)| && PutsFor(config, root)[PutIndex(i)].Covers(sector)
  {
    hide GeometryOf, Built, DirsOf, PutsFor, FileBase, PrintedClusters, Put.Sectors;
    FixedWrites(config, root);
    DirectoryWrite(config, root, i);
    DirectoryOrder(config, root, i);
  }

  lemma CoveringWrite(config: Config, root: Tree, j: nat, sector: int)
    requires Built(config, root) && DirsOf(root) != [] && j < |DirsOf(root)| + 3
    requires sector >= HeapSector(Geo(config), FileBase(config, root)) && PutsFor(config, root)[j].Covers(sector)
    ensures j >= 2 && DirectoryAt(j) < |DirsOf(root)|
    ensures var t := DirsOf(root)[DirectoryAt(j)];
      sector < HeapSector(Geo(config), t.first + PrintedClusters(t))
  {
    hide GeometryOf, Built, DirsOf, PutsFor, FileBase, PrintedClusters, Put.Sectors;
    Tilings(config, root);
    HeapBehindBoot(config, root);
    DirectoryOrder(config, root, 0);
    WriteStarts(config, root, j);
  }
}
