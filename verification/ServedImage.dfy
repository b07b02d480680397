/** What a reader of the image finds: boot fields, FAT chains, bitmap bits, and the streams of the clusters. */
module ServedImage {
  import opened Allocation
  import opened Boot
  import opened Bytes
  import opened Consts
  import opened Fat
  import opened Geometry
  import opened Layouts
  import opened Plan
  import opened Reader
  import opened Runs
  import opened Served
  import opened Trees
  import opened Wrappers

  function ImageOf(config: Config, root: Tree, hot: seq<Range>, sources: Sources): (image: seq<byte>)
    ensures |image| == config.totalBytes
  {
    LayoutOf(config, root, hot).Image(sources)
  }

  function VolumeFor(config: Config, root: Tree): Volume {
    VolumeOf(config, Geo(config), root.first)
  }

  lemma LayoutNumbers(config: Config, root: Tree, hot: seq<Range>)
    requires Built(config, root)
    ensures var l := LayoutOf(config, root, hot);
      var g := Geo(config);
      && l.Servable()
      && l.totalBytes == config.totalBytes
      && l.totalSectors == config.totalBytes / SECTOR_SIZE
      && l.FatStart() == FAT_OFFSET && l.fatLength == g.fatLength
      && l.StartSector(l.bitmapCluster) == HeapSector(g, BITMAP_CLUSTER)
      && l.BitmapSectors() == CeilDiv(BitmapLength(g.clusterCount), SECTOR_SIZE)
      && l.runs == RunsFor(config, root)
      && l.mappings == MappingsOf(FilesOf(root))
      && l.bitmapLength == BitmapLength(g.clusterCount)
      && (forall c :: l.StartSector(c) == HeapSector(g, c))
  {
    hide GeometryOf, Stored, Puts, Walk, AllocatedRuns, MappingsOf, EntriesOf, Select;
    GeoNumbers(config, root);
  }

  lemma VolumeNumbers(config: Config, root: Tree)
    requires Built(config, root)
    ensures var v := VolumeFor(config, root);
      var g := Geo(config);
      && FitsFields(v) && Standard(v) && Plausible(v, config.totalBytes)
      && v.totalSectors == config.totalBytes / SECTOR_SIZE && v.fatOffset == FAT_OFFSET
      && v.fatLength == g.fatLength && v.heapOffset == g.heapOffset && v.clusterCount == g.clusterCount
      && v.rootCluster == root.first
      && (forall c :: ClusterAddress(v, c) == SECTOR_SIZE * HeapSector(g, c))
  {
    hide GeometryOf, Walk, NextCluster, Tiles, DirsOf, Volume.SectorSize, Volume.ClusterSize;
    GeoNumbers(config, root);
    Tilings(config, root);
    DirectoryOrder(config, root, 0);
    FileBaseBounded(config, root);
    Sizes(VolumeFor(config, root));
  }

  lemma FileBaseBounded(config: Config, root: Tree)
    requires Built(config, root)
    ensures BITMAP_CLUSTER < BaseOf(config) < FileBase(config, root) <=
      Next(config, root) <= Geo(config).clusterCount + 2
  {
    hide GeometryOf, DirsOf, FilesOf, Tiles, NextCluster, Placed, Walk, FileBase;
    Tilings(config, root);
    DirectoryOrder(config, root, 0);
    TilesInOrder(RunsOf(FilesOf(root)), FileBase(config, root), Next(config, root));
  }

  // Boot regions.

  lemma SectorSlice(data: seq<byte>, i: nat)
    requires SECTOR_SIZE * i + SECTOR_SIZE <= |data|
    ensures SectorOf(data, i) == data[SECTOR_SIZE * i..SECTOR_SIZE * i + SECTOR_SIZE]
  {
  }

  lemma StoredSector(config: Config, root: Tree, hot: seq<Range>, sources: Sources, sector: int)
    requires Built(config, root) && sector in LayoutOf(config, root, hot).metadata
    ensures LayoutOf(config, root, hot).SectorBytes(sources, sector) == LayoutOf(config, root, hot).metadata[sector]
  {
    hide LayoutOf;
  }

  lemma RegionServed(config: Config, root: Tree, hot: seq<Range>, sources: Sources, copy: nat)
    requires Built(config, root) && copy < 2
    requires 2 * REGION_BYTES <= config.totalBytes
    ensures var from := if copy == 0 then 0 else REGION_BYTES;
      ImageOf(config, root, hot, sources)[from..from + REGION_BYTES]
        == BootRegion(VolumeFor(config, root), config.Serial())
  {
    hide LayoutOf, Layout.Image, Layout.SectorBytes, Built, GeometryOf, VolumeOf, SectorOf, BootRegion;
    var l := LayoutOf(config, root, hot);
    var region := BootRegion(VolumeFor(config, root), config.Serial());
    LayoutNumbers(config, root, hot);
    ImageBigEnough(config, root);
    forall k | 0 <= k < BOOT_SECTORS
      ensures l.SectorBytes(sources, BOOT_SECTORS * copy + k) == region[SECTOR_SIZE * k..SECTOR_SIZE * k + SECTOR_SIZE]
    {
      BootSector(config, root, hot, copy, k);
      StoredSector(config, root, hot, sources, BOOT_SECTORS * copy + k);
      SectorSlice(region, k);
    }
    ImageSlice(l, sources, BOOT_SECTORS * copy, BOOT_SECTORS, region);
  }

  lemma ImageBigEnough(config: Config, root: Tree)
    requires Built(config, root)
    ensures config.totalBytes > 2 * REGION_BYTES
  {
  }

  /** The boot regions verify, and decode to the geometry that the mapper serves. */
  lemma VolumeServed(config: Config, root: Tree, hot: seq<Range>, sources: Sources)
    requires Built(config, root)
    ensures ReadVolume(ImageOf(config, root, hot, sources)) == Some(VolumeFor(config, root))
  {
    hide LayoutOf, ReadVolume, BootRegion, GeometryOf, VolumeOf, Built, Plausible, FitsFields;
    var image := ImageOf(config, root, hot, sources);
    ImageBigEnough(config, root);
    RegionServed(config, root, hot, sources, 0);
    RegionServed(config, root, hot, sources, 1);
    VolumeNumbers(config, root);
    assert image[0..REGION_BYTES] == image[..REGION_BYTES];
    BootRoundTrip(image, VolumeFor(config, root), config.Serial());
  }

  /** What a reader decodes from the boot sector is the geometry of the layout that the mapper uses. */
  lemma BootMatchesLayout(config: Config, root: Tree, hot: seq<Range>, sources: Sources)
    requires Built(config, root)
    ensures var l := LayoutOf(config, root, hot);
      match ReadVolume(l.Image(sources))
      case None => false
      case Some(v) =>
        && v.totalSectors == l.totalSectors && v.fatOffset == l.fatOffset && v.fatLength == l.fatLength
        && v.heapOffset == l.heapOffset && v.clusterCount == l.clusterCount && v.rootCluster == l.rootCluster
        && v.SectorSize() == 512 && v.ClusterSize() == 131072
        && forall c :: ClusterAddress(v, c) == 512 * l.StartSector(c)
  {
    hide Built, GeometryOf, Stored, Puts, Walk, AllocatedRuns, MappingsOf, EntriesOf, ReadVolume, Layout.Image;
    VolumeServed(config, root, hot, sources);
    VolumeNumbers(config, root);
    GeoNumbers(config, root);
  }

  /** The bytes of a boot sector, but for the numbers of the geometry. */
  predicate BootLiterals(sector: seq<byte>, bytes: nat, digest: seq<byte>)
    requires |sector| >= 512 && |digest| >= 4
  {
    && sector[..11] == [0xEB, 0x76, 0x90, 0x45, 0x58, 0x46, 0x41, 0x54, 0x20, 0x20, 0x20]
    && (forall k :: 11 <= k < 72 ==> sector[k] == 0)
    && NumberAt(sector, 72, 8) == bytes / 512
    && NumberAt(sector, 80, 4) == 2048
    && sector[100..104] == digest[..4]
    && sector[104..108] == [0, 1, 0, 0]
    && sector[108..113] == [9, 8, 1, 0x80, 0xFF]
    && (forall k :: 113 <= k < 510 ==> sector[k] == 0)
    && sector[510..512] == [0x55, 0xAA]
  }

  lemma RegionLiterals(v: Volume, bytes: nat, digest: seq<byte>)
    requires FitsFields(v) && |digest| >= 4 && v.totalSectors == bytes / 512 && v.fatOffset == 2048
    ensures BootLiterals(BootRegion(v, Low32(digest)), bytes, digest)
  {
    BootFields(v, Low32(digest));
    RegionFields(v, Low32(digest));
    BootRest(v, Low32(digest));
    LeOfLow32(digest);
    hide BootBytes, Le, NumberAt, Low32, ChecksumSector, BootChecksum;
    var region, boot := BootRegion(v, Low32(digest)), BootBytes(v, Low32(digest));
    assert forall a, b :: 0 <= a <= b <= BOOT_BYTES ==> region[a..b] == boot[a..b];
  }

  /** Both boot sectors of the served image, and the checksum of the main region. */
  lemma BootBytesServed(config: Config, root: Tree, hot: seq<Range>, sources: Sources)
    requires Built(config, root)
    ensures var image := ImageOf(config, root, hot, sources);
      && |image| >= 24 * 512 && image[..12 * 512] == image[12 * 512..24 * 512]
      && BootLiterals(image, |image|, config.digest(config.volumeLabel))
      && (forall k :: 0 <= k < 128 ==>
          NumberAt(image, 11 * 512 + 4 * k, 4) == Checksum(image[..11 * 512], {106, 107, 112}, 0x1_0000_0000))
  {
    hide Built, GeometryOf, BootRegion, VolumeOf, LayoutOf, Layout.Image, Checksum, NumberAt, Low32;
    var image := ImageOf(config, root, hot, sources);
    var v := VolumeFor(config, root);
    ImageBigEnough(config, root);
    VolumeNumbers(config, root);
    RegionServed(config, root, hot, sources, 0);
    RegionServed(config, root, hot, sources, 1);
    RegionLiterals(v, |image|, config.digest(config.volumeLabel));
    RegionChecksum(v, config.Serial());
    PrefixLiterals(image, |image|, config.digest(config.volumeLabel));
    PrefixNumbers(image);
    assert image[0..REGION_BYTES] == image[..REGION_BYTES];
    assert image[..REGION_BYTES][..11 * 512] == image[..11 * 512];
  }

  lemma PrefixNumbers(image: seq<byte>)
    requires |image| >= REGION_BYTES
    ensures forall at: nat :: at + 4 <= REGION_BYTES ==>
      NumberAt(image[..REGION_BYTES], at, 4) == NumberAt(image, at, 4)
  {
    forall at: nat | at + 4 <= REGION_BYTES
      ensures NumberAt(image[..REGION_BYTES], at, 4) == NumberAt(image, at, 4)
    {
      assert image[..REGION_BYTES][at..at + 4] == image[at..at + 4];
    }
  }

  lemma PrefixLiterals(image: seq<byte>, bytes: nat, digest: seq<byte>)
    requires |image| >= REGION_BYTES && |digest| >= 4 && BootLiterals(image[..REGION_BYTES], bytes, digest)
    ensures BootLiterals(image, bytes, digest)
  {
    var region := image[..REGION_BYTES];
    assert forall a, b :: 0 <= a <= b <= REGION_BYTES ==> region[a..b] == image[a..b];
    assert forall k :: 0 <= k < REGION_BYTES ==> region[k] == image[k];
    hide FromLe;
  }

  lemma LeOfLow32(s: seq<byte>)
    requires |s| >= 4
    ensures Le(Low32(s), 4) == s[..4]
  {
    var v := Low32(s);
    assert v / 256 == s[1] as int + 0x100 * s[2] as int + 0x1_0000 * s[3] as int;
    assert v / 256 / 256 == s[2] as int + 0x100 * s[3] as int;
    assert Le(v / 256 / 256, 2) == [s[2], s[3]] by {
      assert Le(v / 256 / 256, 2) == [s[2]] + Le(s[3] as int, 1);
      assert Le(s[3] as int, 1) == [s[3]] + Le(0, 0);
    }
    assert Le(v, 4) == [v % 256] + Le(v / 256, 3);
    assert Le(v / 256, 3) == [v / 256 % 256] + Le(v / 256 / 256, 2);
  }

  // FAT.

  lemma FatSectorServed(config: Config, root: Tree, hot: seq<Range>, sources: Sources, index: nat)
    requires Built(config, root) && index < Geo(config).fatLength
    ensures LayoutOf(config, root, hot).SectorBytes(sources, FAT_OFFSET + index)
      == FatSector(RunsFor(config, root), index)
  {
    hide LayoutOf, GeometryOf, RunsFor, FatSector, Built, HeapSector;
    LayoutNumbers(config, root, hot);
    HeapBehindBoot(config, root);
    FreeSector(config, root, hot, FAT_OFFSET + index);
  }

  /** The reader's FAT entry is the one that the runs prescribe. */
  lemma FatServed(config: Config, root: Tree, hot: seq<Range>, sources: Sources, cluster: nat)
    requires Built(config, root) && cluster < FAT_ENTRIES_PER_SECTOR * Geo(config).fatLength
    requires Plausible(VolumeFor(config, root), config.totalBytes)
    ensures FatEntryAt(ImageOf(config, root, hot, sources), VolumeFor(config, root), cluster)
      == Some(FatEntry(RunsFor(config, root), cluster))
  {
    hide LayoutOf, Layout.Image, Layout.SectorBytes, GeometryOf, RunsFor, FatSector, FatEntry, Built, Plausible,
      VolumeOf, Le;
    var l := LayoutOf(config, root, hot);
    var image := ImageOf(config, root, hot, sources);
    var index, j := cluster / FAT_ENTRIES_PER_SECTOR, cluster % FAT_ENTRIES_PER_SECTOR;
    var value := FatEntry(RunsFor(config, root), cluster);
    var data := l.SectorBytes(sources, FAT_OFFSET + index);
    LayoutNumbers(config, root, hot);
    VolumeNumbers(config, root);
    GeoNumbers(config, root);
    FatSectorServed(config, root, hot, sources, index);
    FatSectorEntry(RunsFor(config, root), index, j);
    var at := SECTOR_SIZE * FAT_OFFSET + 4 * cluster;
    FatSliceServed(l, sources, index, j);
    assert at == SECTOR_SIZE * (FAT_OFFSET + index) + 4 * j;
    EntryFits(config, root, cluster);
    PowersOf256();
    NumberAtLe(image, at, 4, value);
  }

  /** The first two entries are reserved, free clusters have zero, and the last cluster of a run ends its chain. */
  lemma FatLiterals(config: Config, root: Tree, hot: seq<Range>, sources: Sources, cluster: nat)
    requires Built(config, root) && cluster < FAT_ENTRIES_PER_SECTOR * Geo(config).fatLength
    requires Plausible(VolumeFor(config, root), config.totalBytes)
    ensures var e := FatEntryAt(ImageOf(config, root, hot, sources), VolumeFor(config, root), cluster);
      && (cluster == 0 ==> e == Some(0xFFFF_FFF8))
      && (cluster == 1 ==> e == Some(0xFFFF_FFFF))
      && (cluster >= 2 && !Covered(RunsFor(config, root), cluster) ==> e == Some(0))
      && forall i :: 0 <= i < |RunsFor(config, root)| && RunsFor(config, root)[i].Has(cluster) ==>
          e == Some(if cluster + 1 == RunsFor(config, root)[i].End() then 0xFFFF_FFFF else cluster + 1)
  {
    hide Built, GeometryOf, RunsFor, Plausible, VolumeOf, ImageOf, FatEntryAt, Link, Covered, Next;
    var runs := RunsFor(config, root);
    FatServed(config, root, hot, sources, cluster);
    Tilings(config, root);
    TilesInOrder(runs, BITMAP_CLUSTER, Next(config, root));
    TilesDisjoint(runs, BITMAP_CLUSTER, Next(config, root));
    if cluster >= 2 && !Covered(runs, cluster) {
      LinkOfFree(runs, cluster);
    }
    forall i | 0 <= i < |runs| && runs[i].Has(cluster)
      ensures Link(runs, cluster) == if cluster + 1 == runs[i].End() then 0xFFFF_FFFF else cluster + 1
      ensures cluster >= 2
    {
      LinkOfRun(runs, i, cluster);
    }
  }

  lemma FatSliceServed(l: Layout, sources: Sources, index: nat, j: nat)
    requires j < FAT_ENTRIES_PER_SECTOR && SECTOR_SIZE * (FAT_OFFSET + index + 1) <= l.totalBytes
    ensures var at := SECTOR_SIZE * (FAT_OFFSET + index) + 4 * j;
      l.Image(sources)[at..at + 4] == l.SectorBytes(sources, FAT_OFFSET + index)[4 * j..4 * j + 4]
  {
    hide Layout.Image, Layout.SectorBytes;
    var at := SECTOR_SIZE * (FAT_OFFSET + index) + 4 * j;
    ImageAt(l, sources, FAT_OFFSET + index, 4 * j);
    ImageAt(l, sources, FAT_OFFSET + index, 4 * j + 1);
    ImageAt(l, sources, FAT_OFFSET + index, 4 * j + 2);
    ImageAt(l, sources, FAT_OFFSET + index, 4 * j + 3);
  }

  /** FAT values fit 32 bits. */
  lemma EntryFits(config: Config, root: Tree, cluster: nat)
    requires Built(config, root) && cluster < FAT_ENTRIES_PER_SECTOR * Geo(config).fatLength
    ensures FatEntry(RunsFor(config, root), cluster) < 0x1_0000_0000
    ensures FAT_ENTRIES_PER_SECTOR * Geo(config).fatLength < 0x1000_0000
  {
    hide GeometryOf, RunsFor, Built;
    GeoNumbers(config, root);
    LinkBounded(RunsFor(config, root), cluster);
  }

  lemma {:induction false} LinkBounded(runs: seq<Run>, cluster: nat)
    ensures Link(runs, cluster) <= Max(cluster + 1, FAT_EOC)
  {
    if runs != [] {
      LinkBounded(runs[1..], cluster);
    }
  }
}
