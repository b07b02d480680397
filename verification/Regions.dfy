/** Regions of the image: they never collide, and bitmap, FAT and runs agree. */
module Regions {
  import opened Bitmap
  import opened Bits
  import opened Boot
  import opened Bytes
  import opened Consts
  import opened Directory
  import opened Fat
  import opened Geometry
  import opened Layouts
  import opened Plan
  import opened Reader
  import opened RoundTrip
  import opened Runs
  import opened Served
  import opened ServedImage
  import opened Streams
  import opened Trees
  import opened Wrappers

  // Bitmap.

  lemma BitmapSectorServed(config: Config, root: Tree, hot: seq<Range>, sources: Sources, index: nat)
    requires Built(config, root) && index < CeilDiv(BitmapLength(Geo(config).clusterCount), SECTOR_SIZE)
    ensures LayoutOf(config, root, hot).SectorBytes(sources, HeapSector(Geo(config), BITMAP_CLUSTER) + index)
      == BitmapSector(RunsFor(config, root), index)
  {
    hide LayoutOf, GeometryOf, RunsFor, BitmapSector, Built, HeapSector, FatSector;
    LayoutNumbers(config, root, hot);
    HeapBehindBoot(config, root);
    FreeSector(config, root, hot, HeapSector(Geo(config), BITMAP_CLUSTER) + index);
  }

  /** Byte of the image that holds bit `b` of the bitmap. */
  function BitmapAddress(config: Config, b: nat): int {
    SECTOR_SIZE * HeapSector(Geo(config), BITMAP_CLUSTER) + b / 8
  }

  /** Bit `b` of the bitmap, as read from the image. */
  ghost predicate BitmapBit(config: Config, root: Tree, hot: seq<Range>, sources: Sources, b: nat)
    requires 0 <= BitmapAddress(config, b) < config.totalBytes
  {
    Bit(ImageOf(config, root, hot, sources)[BitmapAddress(config, b)], b % 8)
  }

  lemma BitmapInImage(config: Config, root: Tree, b: nat)
    requires Built(config, root) && b < 8 * SECTOR_SIZE * CeilDiv(BitmapLength(Geo(config).clusterCount), SECTOR_SIZE)
    ensures 0 <= BitmapAddress(config, b) < config.totalBytes
    ensures HeapSector(Geo(config), BITMAP_CLUSTER) >= 0
  {
    hide Built, GeometryOf;
    GeoNumbers(config, root);
    HeapBehindBoot(config, root);
  }

  /** The served bitmap marks exactly the allocated clusters, over all of its sectors. */
  lemma BitmapServed(config: Config, root: Tree, hot: seq<Range>, sources: Sources, b: nat)
    requires Built(config, root) && b < 8 * SECTOR_SIZE * CeilDiv(BitmapLength(Geo(config).clusterCount), SECTOR_SIZE)
    requires 0 <= BitmapAddress(config, b) < config.totalBytes
    ensures BitmapBit(config, root, hot, sources, b) <==> Covered(RunsFor(config, root), b + 2)
  {
    hide LayoutOf, GeometryOf, RunsFor, BitmapSector, Built, HeapSector, Layout.Image, Layout.SectorBytes, Bit, Covered;
    var l := LayoutOf(config, root, hot);
    var index, m := b / (8 * SECTOR_SIZE), b % (8 * SECTOR_SIZE);
    LayoutNumbers(config, root, hot);
    BitmapInImage(config, root, b);
    BitmapSectorServed(config, root, hot, sources, index);
    ImageAt(l, sources, HeapSector(Geo(config), BITMAP_CLUSTER) + index, m / 8);
    BitmapSectorBit(RunsFor(config, root), index, m);
    assert b % 8 == m % 8 && b / 8 == SECTOR_SIZE * index + m / 8;
  }

  /** A cluster of the heap is marked in the bitmap exactly when a run holds it, that is, exactly when it
      lies below the first free cluster; where the FAT reaches, exactly when its FAT entry is not zero. */
  lemma BitmapAndFatAgree(config: Config, root: Tree, hot: seq<Range>, sources: Sources, cluster: nat)
    requires Built(config, root) && 2 <= cluster < Geo(config).clusterCount + 2
    ensures Plausible(VolumeFor(config, root), config.totalBytes)
    ensures 0 <= BitmapAddress(config, cluster - 2) < config.totalBytes
    ensures BitmapBit(config, root, hot, sources, cluster - 2) <==> Covered(RunsFor(config, root), cluster)
    ensures Covered(RunsFor(config, root), cluster) <==> cluster < Next(config, root)
    ensures cluster < FAT_ENTRIES_PER_SECTOR * Geo(config).fatLength ==>
      (Covered(RunsFor(config, root), cluster)
       <==> FatEntryAt(ImageOf(config, root, hot, sources), VolumeFor(config, root), cluster) != Some(0))
  {
    hide GeometryOf, RunsFor, Built, HeapSector, Covered, Plausible, VolumeOf, ImageOf, Next, Tiles, FatEntryAt,
      FatEntry, BitmapBit;
    BitmapLongEnough(config, root, cluster - 2);
    BitmapInImage(config, root, cluster - 2);
    BitmapServed(config, root, hot, sources, cluster - 2);
    Tilings(config, root);
    TilesCover(RunsFor(config, root), BITMAP_CLUSTER, Next(config, root), cluster);
    VolumeNumbers(config, root);
    if cluster < FAT_ENTRIES_PER_SECTOR * Geo(config).fatLength {
      FatServed(config, root, hot, sources, cluster);
      TilesDisjoint(RunsFor(config, root), BITMAP_CLUSTER, Next(config, root));
      EntryIffAllocated(RunsFor(config, root), cluster);
    }
  }

  lemma BitmapLongEnough(config: Config, root: Tree, b: nat)
    requires Built(config, root) && b < Geo(config).clusterCount
    ensures b < 8 * SECTOR_SIZE * CeilDiv(BitmapLength(Geo(config).clusterCount), SECTOR_SIZE)
  {
    hide Built, GeometryOf;
    GeoNumbers(config, root);
  }

  /** Number of bits in the served sectors of the bitmap. */
  function BitmapBits(config: Config): int {
    8 * SECTOR_SIZE * CeilDiv(BitmapLength(Geo(config).clusterCount), SECTOR_SIZE)
  }

  /** The bits below `limit` that a reader of the image finds set. */
  ghost function MarkedBits(config: Config, root: Tree, hot: seq<Range>, sources: Sources, limit: nat): set<int>
    requires forall b: nat :: b < limit ==> 0 <= BitmapAddress(config, b) < config.totalBytes
  {
    set b: int | 0 <= b < limit && BitmapBit(config, root, hot, sources, b)
  }

  /** The number of set bits in the whole served bitmap is the sum of the run lengths; no bit behind
      the last allocated cluster is set. */
  lemma BitmapCounts(config: Config, root: Tree, hot: seq<Range>, sources: Sources)
    requires Built(config, root)
    ensures BitmapBits(config) >= Geo(config).clusterCount >= Next(config, root) - 2
    ensures forall b: nat :: b < BitmapBits(config) ==> 0 <= BitmapAddress(config, b) < config.totalBytes
    ensures |MarkedBits(config, root, hot, sources, BitmapBits(config))|
      == TotalCount(RunsFor(config, root)) == Next(config, root) - 2
    ensures forall b :: b in MarkedBits(config, root, hot, sources, BitmapBits(config)) ==> b < Next(config, root) - 2
  {
    hide GeometryOf, RunsFor, Built, HeapSector, Covered, Next, Tiles, BitmapBit, BitmapAddress;
    var runs := RunsFor(config, root);
    var limit := BitmapBits(config);
    Tilings(config, root);
    BitmapRoom(config, root);
    TilesInOrder(runs, BITMAP_CLUSTER, Next(config, root));
    TilesDisjoint(runs, BITMAP_CLUSTER, Next(config, root));
    TilesTotal(runs, BITMAP_CLUSTER, Next(config, root));
    AllocatedBitsCount(runs, limit);
    forall b: nat | b < limit ensures 0 <= BitmapAddress(config, b) < config.totalBytes {
      BitmapInImage(config, root, b);
    }
    forall b: nat | b < limit
      ensures BitmapBit(config, root, hot, sources, b) <==> BitAllocated(runs, b)
      ensures BitAllocated(runs, b) <==> b < Next(config, root) - 2
    {
      BitmapServed(config, root, hot, sources, b);
      TilesCover(runs, BITMAP_CLUSTER, Next(config, root), b + 2);
    }
    assert MarkedBits(config, root, hot, sources, limit) == AllocatedBits(runs, limit);
  }

  lemma BitmapRoom(config: Config, root: Tree)
    requires Built(config, root)
    ensures BitmapBits(config) >= Geo(config).clusterCount
  {
    hide Built, GeometryOf;
    GeoNumbers(config, root);
  }

  // Regions.

  /** A stretch of sectors. */
  datatype Region = Region(start: int, length: int) {
    function End(): int {
      start + length
    }
  }

  function RunRegion(g: Geometry, r: Run): Region {
    Region(HeapSector(g, r.start), r.count * SECTORS_PER_CLUSTER)
  }

  /** Boot region, backup, FAT, and one region for each allocated run. */
  function RegionsOf(config: Config, root: Tree): seq<Region> {
    var runs := RunsFor(config, root);
    [Region(0, BOOT_SECTORS), Region(BOOT_SECTORS, BOOT_SECTORS), Region(FAT_OFFSET, Geo(config).fatLength)]
    + seq(|runs|, i requires 0 <= i < |runs| => RunRegion(Geo(config), runs[i]))
  }

  /** The regions are in ascending order, apart from each other, and inside the image. */
  lemma RegionsApart(config: Config, root: Tree, i: nat, j: nat)
    requires Built(config, root) && i < j < |RegionsOf(config, root)|
    ensures var regions := RegionsOf(config, root);
      && 0 <= regions[i].start < regions[i].End() <= regions[j].start
      && regions[j].start < regions[j].End() <= config.totalBytes / SECTOR_SIZE
  {
    hide GeometryOf, RunsFor, Built, Tiles, Next;
    var runs := RunsFor(config, root);
    Tilings(config, root);
    GeoNumbers(config, root);
    TilesInOrder(runs, BITMAP_CLUSTER, Next(config, root));
  }

  /** Every directory is printed within its reservation. */
  predicate AllDirectoriesFit(root: Tree) {
    forall i :: 0 <= i < |DirsOf(root)| ==> DirectoryFits(DirsOf(root)[i])
  }

  /** No directory is printed into the clusters of the files. */
  predicate DirectoriesBeforeFiles(config: Config, root: Tree) {
    FilesOf(root) == []
    || forall i :: 0 <= i < |DirsOf(root)| ==>
         DirsOf(root)[i].first + PrintedClusters(DirsOf(root)[i]) <= FileBase(config, root)
  }

  lemma FittingBeforeFiles(config: Config, root: Tree)
    requires Built(config, root) && AllDirectoriesFit(root)
    ensures DirectoriesBeforeFiles(config, root)
  {
    hide GeometryOf, Built, DirsOf, FileBase, PrintedClusters, DirectoryClusters, FilesOf;
    forall i | 0 <= i < |DirsOf(root)|
      ensures DirsOf(root)[i].first + PrintedClusters(DirsOf(root)[i]) <= FileBase(config, root)
    {
      DirectorySize(config, root, i);
      DirectoryOrder(config, root, i);
    }
  }

  /** At most one of the places in which the mapper looks for a sector has it: the stored sectors, the FAT, the
      bitmap, and one file mapping. */
  predicate OneOrigin(l: Layout, sector: int) {
    var stored := sector in l.metadata;
    var fat := l.FatStart() <= sector < l.FatStart() + l.fatLength;
    var bitmap := l.StartSector(l.bitmapCluster) <= sector < l.StartSector(l.bitmapCluster) + l.BitmapSectors();
    && !(stored && fat) && !(stored && bitmap) && !(fat && bitmap)
    && forall i :: 0 <= i < |l.mappings| && l.Backs(l.mappings[i], sector) ==>
        !stored && !fat && !bitmap && forall k :: 0 <= k < |l.mappings| && k != i ==> !l.Backs(l.mappings[k], sector)
  }

  /** The order in which the mapper looks never matters, exactly when there are no files or no directory is
      printed into their clusters. */
  lemma OneOriginIff(config: Config, root: Tree, hot: seq<Range>)
    requires Built(config, root)
    ensures (forall sector: int :: OneOrigin(LayoutOf(config, root, hot), sector))
      <==> DirectoriesBeforeFiles(config, root)
  {
    hide GeometryOf, Built, LayoutOf, OneOrigin, DirectoriesBeforeFiles;
    if DirectoriesBeforeFiles(config, root) {
      forall sector: int ensures OneOrigin(LayoutOf(config, root, hot), sector) {
        OriginExclusive(config, root, hot, sector);
      }
    } else {
      FileSectorStored(config, root, hot);
    }
  }

  lemma OriginExclusive(config: Config, root: Tree, hot: seq<Range>, sector: int)
    requires Built(config, root) && DirectoriesBeforeFiles(config, root)
    ensures OneOrigin(LayoutOf(config, root, hot), sector)
  {
    hide GeometryOf, Built, LayoutOf, FilesOf, DirsOf, HeapSector, FileBase, DirectoriesBeforeFiles;
    var l := LayoutOf(config, root, hot);
    LayoutNumbers(config, root, hot);
    HeapBehindBoot(config, root);
    if sector !in l.metadata || sector >= HeapSector(Geo(config), UpcaseCluster(Geo(config).clusterCount)) {
    } else if sector < 0 || sector >= 2 * BOOT_SECTORS {
      FreeSector(config, root, hot, sector);
    }
    forall i | 0 <= i < |l.mappings| && l.Backs(l.mappings[i], sector)
      ensures sector !in l.metadata && sector >= HeapSector(Geo(config), BaseOf(config))
      ensures forall k :: 0 <= k < |l.mappings| && k != i ==> !l.Backs(l.mappings[k], sector)
    {
      BackedSector(config, root, hot, i, sector);
    }
  }

  lemma BackedSector(config: Config, root: Tree, hot: seq<Range>, i: nat, sector: int)
    requires Built(config, root) && DirectoriesBeforeFiles(config, root)
    requires i < |LayoutOf(config, root, hot).mappings|
    requires LayoutOf(config, root, hot).Backs(LayoutOf(config, root, hot).mappings[i], sector)
    ensures var l := LayoutOf(config, root, hot);
      && sector !in l.metadata && sector >= HeapSector(Geo(config), BaseOf(config))
      && forall k :: 0 <= k < |l.mappings| && k != i ==> !l.Backs(l.mappings[k], sector)
  {
    hide GeometryOf, Built, LayoutOf, FilesOf, DirsOf, FileBase, PrintedClusters;
    var l := LayoutOf(config, root, hot);
    LayoutNumbers(config, root, hot);
    FileOrder(config, root, i);
    OverflowSector(config, root, hot, sector);
    forall k | 0 <= k < |l.mappings| && k != i ensures !l.Backs(l.mappings[k], sector) {
      FilesApart(config, root, i, k);
    }
  }

  /** Otherwise the first sector of the first file is stored as well. */
  lemma FileSectorStored(config: Config, root: Tree, hot: seq<Range>)
    requires Built(config, root) && !DirectoriesBeforeFiles(config, root)
    ensures !OneOrigin(LayoutOf(config, root, hot), HeapSector(Geo(config), FileBase(config, root)))
  {
    hide GeometryOf, Built, LayoutOf, FilesOf, DirsOf, FileBase, PrintedClusters;
    var l := LayoutOf(config, root, hot);
    var sector := HeapSector(Geo(config), FileBase(config, root));
    LayoutNumbers(config, root, hot);
    FileOrder(config, root, 0);
    OverflowSector(config, root, hot, sector);
    assert l.mappings[0] == MappingOf(FilesOf(root)[0]);
    assert l.Backs(l.mappings[0], sector);
    assert sector in l.metadata;
  }

  // Writes.

  predicate WritesApart(puts: seq<Put>, i: int, j: int)
    requires 0 <= i < |puts| && 0 <= j < |puts|
  {
    puts[i].start + puts[i].Sectors() <= puts[j].start || puts[j].start + puts[j].Sectors() <= puts[i].start
  }

  /** Every directory but the last is printed within its reservation. */
  predicate InnerDirectoriesFit(root: Tree) {
    forall i :: 0 <= i < |DirsOf(root)| - 1 ==> DirectoryFits(DirsOf(root)[i])
  }

  lemma DirectoryWritesApart(config: Config, root: Tree, i: nat, j: nat)
    requires Built(config, root) && InnerDirectoriesFit(root) && i < j < |DirsOf(root)|
    ensures WritesApart(PutsFor(config, root), PutIndex(i), PutIndex(j))
  {
    hide GeometryOf, Built, DirsOf, PutsFor, Put.Sectors, BytesOf, PrintedClusters, DirectoryClusters;
    FixedWrites(config, root);
    DirectoryWrite(config, root, i);
    DirectoryWrite(config, root, j);
    DirectoryOrder(config, root, j);
  }

  lemma FixedWritesApart(config: Config, root: Tree, i: nat, j: nat)
    requires Built(config, root) && i < j < |DirsOf(root)| + 3
    requires i < 2 || i == 3 || j == 3
    ensures DirsOf(root) != [] && WritesApart(PutsFor(config, root), i, j)
  {
    hide GeometryOf, Built, DirsOf, PutsFor, Put.Sectors, PrintedClusters, HeapSector;
    FixedWrites(config, root);
    HeapBehindBoot(config, root);
    WriteStarts(config, root, i);
    WriteStarts(config, root, j);
    if j > 3 || i == 2 {
      DirectoryBehindUpcase(config, root, DirectoryAt(if i == 2 then i else j));
    }
  }

  lemma DirectoryBehindUpcase(config: Config, root: Tree, i: nat)
    requires Built(config, root) && i < |DirsOf(root)|
    ensures HeapSector(Geo(config), BaseOf(config)) <= HeapSector(Geo(config), DirsOf(root)[i].first)
  {
    hide GeometryOf, Built, DirsOf;
    DirectoryOrder(config, root, i);
  }

  /** No metadata write overwrites a sector of another one, exactly when every directory that has a successor
      is printed within its reservation. */
  lemma WritesApartIff(config: Config, root: Tree)
    requires Built(config, root)
    ensures DirsOf(root) != [] && |PutsFor(config, root)| == |DirsOf(root)| + 3
    ensures (forall i, j :: 0 <= i < j < |PutsFor(config, root)| ==> WritesApart(PutsFor(config, root), i, j))
      <==> InnerDirectoriesFit(root)
  {
    hide GeometryOf, Built, DirsOf, PutsFor, InnerDirectoriesFit, WritesApart;
    FixedWrites(config, root);
    if InnerDirectoriesFit(root) {
      forall i, j | 0 <= i < j < |PutsFor(config, root)| ensures WritesApart(PutsFor(config, root), i, j) {
        if i < 2 || i == 3 || j == 3 {
          FixedWritesApart(config, root, i, j);
        } else {
          DirectoryWritesApart(config, root, DirectoryAt(i), DirectoryAt(j));
        }
      }
    } else {
      OverflowingDirectory(config, root);
    }
  }

  lemma OverflowingDirectory(config: Config, root: Tree)
    requires Built(config, root) && !InnerDirectoriesFit(root)
    ensures DirsOf(root) != [] && |PutsFor(config, root)| == |DirsOf(root)| + 3
    ensures exists i, j :: 0 <= i < j < |PutsFor(config, root)| && !WritesApart(PutsFor(config, root), i, j)
  {
    hide GeometryOf, Built, DirsOf, PutsFor, Put.Sectors, BytesOf, PrintedClusters, DirectoryClusters;
    FixedWrites(config, root);
    var i :| 0 <= i < |DirsOf(root)| - 1 && !DirectoryFits(DirsOf(root)[i]);
    DirectoryWrite(config, root, i);
    DirectoryWrite(config, root, i + 1);
    DirectoryOrder(config, root, i);
    DirectoryOrder(config, root, i + 1);
    NextDirectory(config, root, i);
    assert !WritesApart(PutsFor(config, root), PutIndex(i), PutIndex(i + 1));
  }

  lemma NextDirectory(config: Config, root: Tree, i: nat)
    requires Built(config, root) && i + 1 < |DirsOf(root)|
    ensures DirsOf(root)[i].first + DirsOf(root)[i].count == DirsOf(root)[i + 1].first
    ensures DirsOf(root)[i + 1].count >= 1
  {
    hide GeometryOf, Built, DirsOf, Tiles, FileBase;
    Tilings(config, root);
    var runs := RunsOf(DirsOf(root));
    TilesInOrder(runs, BaseOf(config), FileBase(config, root));
    assert runs[i] == RunOf(DirsOf(root)[i]) && runs[i + 1] == RunOf(DirsOf(root)[i + 1]);
  }

  // Chains.

  /** Following the FAT of the image from the first cluster of an allocated run visits the run, in order, and
      ends; the chains of two runs have no cluster in common. */
  lemma ChainsNeverMeet(config: Config, root: Tree, hot: seq<Range>, sources: Sources, i: nat, j: nat)
    requires Built(config, root) && i < |RunsFor(config, root)| && j < |RunsFor(config, root)| && i != j
    ensures Plausible(VolumeFor(config, root), config.totalBytes)
    ensures var image := ImageOf(config, root, hot, sources);
      var v := VolumeFor(config, root);
      var a := Chain(image, v, RunsFor(config, root)[i].start, v.clusterCount);
      var b := Chain(image, v, RunsFor(config, root)[j].start, v.clusterCount);
      && (RunsFor(config, root)[i].End() <= FAT_ENTRIES_PER_SECTOR * v.fatLength ==>
            a == Some(Span(RunsFor(config, root)[i].start, RunsFor(config, root)[i].End())))
      && (a.Some? && b.Some? ==> forall c :: c in a.value ==> c !in b.value)
  {
    hide Built, GeometryOf, RunsFor, ImageOf, Plausible, VolumeOf, Linked, Chain, Tiles;
    RunServed(config, root, hot, sources, i);
    RunServed(config, root, hot, sources, j);
    var v := VolumeFor(config, root);
    var a, b := RunsFor(config, root)[i], RunsFor(config, root)[j];
    ChainOfRun(ImageOf(config, root, hot, sources), v, a, a.start, v.clusterCount);
    ChainOfRun(ImageOf(config, root, hot, sources), v, b, b.start, v.clusterCount);
    Tilings(config, root);
    TilesInOrder(RunsFor(config, root), BITMAP_CLUSTER, Next(config, root));
    assert if i < j then a.End() <= b.start else b.End() <= a.start;
  }

  // The eager FAT.

  /** The eager construction raises exactly when the FAT does not reach the last allocated cluster. */
  lemma EagerFatFitsIff(config: Config, root: Tree)
    requires Built(config, root)
    ensures (forall i :: 0 <= i < |RunsFor(config, root)| ==>
        RunsFor(config, root)[i].count >= 1 &&
        RunsFor(config, root)[i].End() <= FAT_ENTRIES_PER_SECTOR * Geo(config).fatLength)
      <==> FatRoom(config, root)
  {
    hide Built, GeometryOf, RunsFor, Tiles, Next;
    Tilings(config, root);
    UpcaseRunFirst(config, root);
    TilesInOrder(RunsFor(config, root), BITMAP_CLUSTER, Next(config, root));
  }

  lemma UpcaseRunFirst(config: Config, root: Tree)
    ensures |RunsFor(config, root)| >= 2
  {
    UpcaseRun(config, root);
  }

  /** Where it does not raise, the FAT region of the served image is the eager FAT, byte for byte. */
  lemma EagerFatServed(config: Config, root: Tree, hot: seq<Range>, sources: Sources, fat: seq<byte>)
    requires Built(config, root) && |fat| == SECTOR_SIZE * Geo(config).fatLength
    requires forall c: nat :: c < FAT_ENTRIES_PER_SECTOR * Geo(config).fatLength ==>
      Holds(fat, c, EagerEntry(RunsFor(config, root), c))
    ensures SECTOR_SIZE * FAT_OFFSET + |fat| <= config.totalBytes
    ensures ImageOf(config, root, hot, sources)[SECTOR_SIZE * FAT_OFFSET..SECTOR_SIZE * FAT_OFFSET + |fat|] == fat
  {
    hide Built, GeometryOf, RunsFor, Tiles, Next, LayoutOf, Layout.Image, Layout.SectorBytes, Holds, EagerEntry,
      FatSector;
    Tilings(config, root);
    GeoNumbers(config, root);
    LayoutNumbers(config, root, hot);
    TilesDisjoint(RunsFor(config, root), BITMAP_CLUSTER, Next(config, root));
    forall i | 0 <= i < Geo(config).fatLength
      ensures LayoutOf(config, root, hot).SectorBytes(sources, FAT_OFFSET + i)
        == fat[SECTOR_SIZE * i..SECTOR_SIZE * i + SECTOR_SIZE]
    {
      FatSectorServed(config, root, hot, sources, i);
      LazyRefinesEager(RunsFor(config, root), fat, Geo(config).fatLength, i);
    }
    ImageSlice(LayoutOf(config, root, hot), sources, FAT_OFFSET, Geo(config).fatLength, fat);
  }
}
