/** The allocation bitmap as a reader finds it: through the root directory and the FAT. */
module Announced {
  import opened Bitmap
  import opened Bits
  import opened Boot
  import opened Bytes
  import opened Consts
  import opened Directory
  import opened DirectoryReader
  import opened Geometry
  import opened Layouts
  import opened Mounting
  import opened Names
  import opened Plan
  import opened Reader
  import opened Regions
  import opened Runs
  import opened Served
  import opened ServedImage
  import opened Streams
  import opened Trees
  import opened Wrappers

  /** The chain of the bitmap is always complete. */
  lemma BitmapStream(config: Config, root: Tree, hot: seq<Range>, sources: Sources)
    requires Built(config, root) && Plausible(VolumeFor(config, root), config.totalBytes)
    ensures var image := ImageOf(config, root, hot, sources);
      var at := SECTOR_SIZE * HeapSector(Geo(config), BITMAP_CLUSTER);
      var length := BitmapClusters(Geo(config).clusterCount) * CLUSTER_SIZE;
      && 0 <= at && at + length <= |image|
      && ReadStream(image, VolumeFor(config, root), BITMAP_CLUSTER) == Some(image[at..at + length])
  {
    hide Built, GeometryOf, RunsFor, Plausible, VolumeOf, ImageOf, ReadStream, HeapSector;
    UpcaseRun(config, root);
    RunSlice(config, root, hot, sources, 0);
    GeoNumbers(config, root);
  }

  /** The first bytes of the bitmap's clusters. */
  function BitmapBytes(config: Config, image: seq<byte>): seq<byte>
    requires var at := SECTOR_SIZE * HeapSector(Geo(config), BITMAP_CLUSTER);
      0 <= at && at + BitmapLength(Geo(config).clusterCount) <= |image| && Geo(config).clusterCount >= 0
  {
    var at := SECTOR_SIZE * HeapSector(Geo(config), BITMAP_CLUSTER);
    image[at..at + BitmapLength(Geo(config).clusterCount)]
  }

  lemma BitmapEntryLeads(image: seq<byte>, v: Volume, root: seq<byte>, entry: seq<byte>, stream: seq<byte>)
    requires Plausible(v, |image|) && FindEntry(root, 0x81) == Some(entry) && |entry| == ENTRY_SIZE
    requires entry[1] == 0
    requires ReadStream(image, v, NumberAt(entry, 20, 4)) == Some(stream) && NumberAt(entry, 24, 8) <= |stream|
    ensures ReadBitmap(image, v, root) == Some(stream[..NumberAt(entry, 24, 8)])
  {
    hide Plausible, ReadStream, NumberAt, FindEntry;
  }

  /** The root directory announces the bitmap. */
  lemma BitmapAnnounced(config: Config, root: Tree, stream: seq<byte>)
    requires Built(config, root)
    requires exists rest :: stream == SpecialEntries(SpecialOf(config, Geo(config))) + rest
    ensures var entry := BitmapEntry(SpecialOf(config, Geo(config)));
      && FindEntry(stream, 0x81) == Some(entry) && |entry| == ENTRY_SIZE && entry[1] == 0
      && NumberAt(entry, 20, 4) == BITMAP_CLUSTER
      && NumberAt(entry, 24, 8) == BitmapLength(Geo(config).clusterCount)
  {
    hide Built, SpecialEntries, FindEntry, UpcaseEntry, BitmapEntry, LabelEntry, GeometryOf, UpcaseTable, NumberAt,
      Checksum;
    GeoNumbers(config, root);
    var x := SpecialOf(config, Geo(config));
    var rest :| stream == SpecialEntries(x) + rest;
    FindSpecials(x, rest);
    SpecialBounds(config, root);
    SpecialNumbers(x);
  }

  lemma RootBitmap(s: Setting, stream: seq<byte>)
    requires s.Valid() && ParsePrefix(s, stream)
    ensures var at := SECTOR_SIZE * HeapSector(Geo(s.config), BITMAP_CLUSTER);
      && Geo(s.config).clusterCount >= 0
      && 0 <= at && at + BitmapLength(Geo(s.config).clusterCount) <= |s.Image()|
      && ReadBitmap(s.Image(), s.Vol(), stream) == Some(BitmapBytes(s.config, s.Image()))
  {
    hide Built, Plausible, ReadStream, ReadBitmap, ImageOf, VolumeOf, FindEntry, BitmapEntry, HeapSector, GeometryOf,
      NumberAt, BitmapClusters, SpecialOf, SpecialEntries;
    GeoNumbers(s.config, s.root);
    BitmapAnnounced(s.config, s.root, stream);
    BitmapStream(s.config, s.root, s.hot, s.sources);
    var at := SECTOR_SIZE * HeapSector(Geo(s.config), BITMAP_CLUSTER);
    var length := BitmapClusters(Geo(s.config).clusterCount) * CLUSTER_SIZE;
    var data := s.Image()[at..at + length];
    BitmapEntryLeads(s.Image(), s.Vol(), stream, BitmapEntry(SpecialOf(s.config, Geo(s.config))), data);
    Prefix(s.Image(), at, length, BitmapLength(Geo(s.config).clusterCount));
  }

  lemma Prefix(image: seq<byte>, at: nat, length: nat, keep: nat)
    requires keep <= length && at + length <= |image|
    ensures image[at..at + length][..keep] == image[at..at + keep]
  {
  }

  /** Bit `b` of the bytes that are read is bit `b` of the served bitmap. */
  lemma BitRead(config: Config, root: Tree, hot: seq<Range>, sources: Sources, b: nat)
    requires Built(config, root) && b / 8 < BitmapLength(Geo(config).clusterCount)
    requires var at := SECTOR_SIZE * HeapSector(Geo(config), BITMAP_CLUSTER);
      0 <= at && at + BitmapLength(Geo(config).clusterCount) <= |ImageOf(config, root, hot, sources)|
    ensures Geo(config).clusterCount >= 0
    ensures BitAt(BitmapBytes(config, ImageOf(config, root, hot, sources)), b) <==> b + 2 < Next(config, root)
  {
    hide Built, GeometryOf, HeapSector, RunsFor, Covered, Bit, LayoutOf, Next, Tiles, Layout.Image;
    GeoNumbers(config, root);
    BitmapInImage(config, root, b);
    BitmapServed(config, root, hot, sources, b);
    Tilings(config, root);
    TilesCover(RunsFor(config, root), BITMAP_CLUSTER, Next(config, root), b + 2);
    ImageLength(config, root, hot, sources);
  }

  lemma ImageLength(config: Config, root: Tree, hot: seq<Range>, sources: Sources)
    requires Built(config, root)
    ensures |ImageOf(config, root, hot, sources)| == config.totalBytes
  {
    hide Built, GeometryOf;
  }

  /** Whenever the root directory can be read, the bitmap can: it has one bit for each cluster, and a bit is set exactly
      for the clusters below the first free one. */
  lemma VolumeBitmapRight(config: Config, root: Tree, hot: seq<Range>, sources: Sources)
    requires Built(config, root)
    ensures var r := VolumeBitmap(ImageOf(config, root, hot, sources));
      if root.first + root.count <= FAT_ENTRIES_PER_SECTOR * Geo(config).fatLength then
        && r.Some? && 8 * |r.value| >= Geo(config).clusterCount > 8 * (|r.value| - 1)
        && forall b: nat :: b / 8 < |r.value| ==> (BitAt(r.value, b) <==> b + 2 < Next(config, root))
      else r == None
  {
    hide Built, GeometryOf, HeapSector, ReadStream, ReadVolume, ReadBitmap, ImageOf, VolumeOf, Plausible, DirsOf,
      ParsePrefix, UpcaseTable, BitAt, BytesOf, Next, BitmapBytes;
    var s := Setting(config, root, hot, sources);
    SettingValid(s);
    Tilings(config, root);
    VolumeServed(config, root, hot, sources);
    VolumeNumbers(config, root);
    RootCluster(s);
    DirectoryStream(config, root, hot, sources, 0);
    RootPrefix(s);
    if root.first + root.count <= FAT_ENTRIES_PER_SECTOR * Geo(config).fatLength {
      RootBitmap(s, BytesOf(config, root, 0)[..root.count * CLUSTER_SIZE]);
      BytesRight(config, root, hot, sources);
    }
  }

  /** The table holds exactly the upper case of each unit, in two bytes. */
  ghost predicate HoldsUppers(table: seq<byte>, strUpper: u16 -> seq<nat>) {
    && |table| == 131072
    && forall unit: u16, upper: u16 ::
        Uppers(unit, upper, strUpper) <==> table[2 * unit] as int + 256 * table[2 * unit + 1] as int == upper
  }

  /** Whenever the root directory can be read, the up-case table can, and it maps each unit to what `str.upper` makes
      of it, where that is one unit, and to itself otherwise. */
  lemma VolumeUpcaseRight(config: Config, root: Tree, hot: seq<Range>, sources: Sources)
    requires Built(config, root)
    ensures var r := VolumeUpcase(ImageOf(config, root, hot, sources));
      if root.first + root.count <= FAT_ENTRIES_PER_SECTOR * Geo(config).fatLength then
        r.Some? && HoldsUppers(r.value, config.strUpper)
      else r == None
  {
    hide Built, GeometryOf, ReadStream, ReadVolume, ReadUpcase, ImageOf, VolumeOf, Plausible, DirsOf, ParsePrefix,
      UpcaseTable, BytesOf, HoldsUppers;
    var s := Setting(config, root, hot, sources);
    SettingValid(s);
    Tilings(config, root);
    VolumeServed(config, root, hot, sources);
    VolumeNumbers(config, root);
    RootCluster(s);
    DirectoryStream(config, root, hot, sources, 0);
    RootPrefix(s);
    if root.first + root.count <= FAT_ENTRIES_PER_SECTOR * Geo(config).fatLength {
      RootUpcase(s, BytesOf(config, root, 0)[..root.count * CLUSTER_SIZE]);
      TableRight(config.strUpper);
    }
  }

  lemma TableRight(strUpper: u16 -> seq<nat>)
    ensures HoldsUppers(UpcaseTable(strUpper), strUpper)
  {
    hide UpcaseTable, Uppers;
    forall unit: u16, upper: u16 ensures Uppers(unit, upper, strUpper) <==>
      UpcaseTable(strUpper)[2 * unit] as int + 256 * UpcaseTable(strUpper)[2 * unit + 1] as int == upper
    {
      TableUppers(unit, upper, strUpper);
    }
  }

  lemma BytesRight(config: Config, root: Tree, hot: seq<Range>, sources: Sources)
    requires Built(config, root) && Geo(config).clusterCount >= 0
    requires var at := SECTOR_SIZE * HeapSector(Geo(config), BITMAP_CLUSTER);
      0 <= at && at + BitmapLength(Geo(config).clusterCount) <= |ImageOf(config, root, hot, sources)|
    ensures var r := BitmapBytes(config, ImageOf(config, root, hot, sources));
      && 8 * |r| >= Geo(config).clusterCount > 8 * (|r| - 1)
      && forall b: nat :: b / 8 < |r| ==> (BitAt(r, b) <==> b + 2 < Next(config, root))
  {
    hide Built, GeometryOf, HeapSector, ImageOf, BitAt, Next;
    var r := BitmapBytes(config, ImageOf(config, root, hot, sources));
    forall b: nat | b / 8 < |r| ensures BitAt(r, b) <==> b + 2 < Next(config, root) {
      BitRead(config, root, hot, sources, b);
    }
  }

  // The records of the layout.

  /** The three special entries of a root directory are those of the layout. */
  predicate Announces(stream: seq<byte>, l: Layout, volumeLabel: string) {
    && (match FindEntry(stream, 0x81)
        case None => false
        case Some(e) => NumberAt(e, 20, 4) == l.bitmapCluster && NumberAt(e, 24, 8) == l.bitmapLength)
    && (match FindEntry(stream, 0x82)
        case None => false
        case Some(e) => NumberAt(e, 20, 4) == l.upcaseCluster && NumberAt(e, 24, 8) == l.upcaseLength == 131072)
    && FindEntry(stream, 0x83) == Some(LabelEntry(volumeLabel))
  }

  lemma StreamAnnounces(config: Config, root: Tree, hot: seq<Range>, stream: seq<byte>)
    requires Built(config, root)
    requires exists rest :: stream == SpecialEntries(SpecialOf(config, Geo(config))) + rest
    ensures Announces(stream, LayoutOf(config, root, hot), config.volumeLabel)
  {
    hide Built, GeometryOf, LayoutOf, FindEntry, SpecialEntries, LabelEntry, BitmapEntry, UpcaseEntry, NumberAt,
      Checksum, UpcaseTable;
    var x := SpecialOf(config, Geo(config));
    var rest :| stream == SpecialEntries(x) + rest;
    FindSpecials(x, rest);
    SpecialBounds(config, root);
    SpecialNumbers(x);
    LayoutAnnounces(config, root, hot);
  }

  /** What the root directory announces is where the layout has it. */
  lemma AnnouncedMatchesLayout(config: Config, root: Tree, hot: seq<Range>, sources: Sources)
    requires Built(config, root)
    requires root.first + root.count <= FAT_ENTRIES_PER_SECTOR * Geo(config).fatLength
    ensures match RootStream(ImageOf(config, root, hot, sources))
      case None => false
      case Some((_, stream)) => Announces(stream, LayoutOf(config, root, hot), config.volumeLabel)
  {
    hide Built, GeometryOf, ReadStream, ReadVolume, ImageOf, VolumeOf, Plausible, DirsOf, BytesOf, Announces, LayoutOf,
      SpecialEntries;
    var s := Setting(config, root, hot, sources);
    SettingValid(s);
    Tilings(config, root);
    VolumeServed(config, root, hot, sources);
    VolumeNumbers(config, root);
    RootCluster(s);
    DirectoryStream(config, root, hot, sources, 0);
    RootPrefix(s);
    StreamAnnounces(config, root, hot, BytesOf(config, root, 0)[..root.count * CLUSTER_SIZE]);
  }

  lemma LayoutAnnounces(config: Config, root: Tree, hot: seq<Range>)
    ensures var l, x := LayoutOf(config, root, hot), SpecialOf(config, Geo(config));
      && l.bitmapCluster == x.bitmapCluster && l.bitmapLength == x.bitmapLength
      && l.upcaseCluster == x.upcaseCluster && l.upcaseLength == x.upcaseLength == 131072
      && x.volumeLabel == config.volumeLabel
  {
    hide GeometryOf, Stored, Puts, Walk, AllocatedRuns, MappingsOf, EntriesOf, UpcaseTable, Checksum;
  }
}
