/** Chains and streams: following the FAT of the served image yields exactly the allocated runs. */
module Streams {
  import opened Boot
  import opened Bytes
  import opened Consts
  import opened Directory
  import opened Fat
  import opened Geometry
  import opened Layouts
  import opened Names
  import opened Plan
  import opened Reader
  import opened Runs
  import opened Served
  import opened ServedImage
  import opened Trees
  import opened Wrappers

  /** The clusters from `from` up to, but not including, `to`. */
  function Span(from: nat, to: nat): (s: seq<nat>)
    requires from <= to
    ensures |s| == to - from
  {
    seq(to - from, i requires 0 <= i => from + i)
  }

  /** The FAT of the image chains the clusters of the run, as far as the FAT reaches. */
  ghost predicate Linked(image: seq<byte>, v: Volume, r: Run)
    requires Plausible(v, |image|)
  {
    forall c: nat :: r.Has(c) && c < FAT_ENTRIES_PER_SECTOR * v.fatLength ==>
      FatEntryAt(image, v, c) == Some(LinkIn(r, c))
  }

  predicate RunInHeap(v: Volume, r: Run) {
    2 <= r.start < r.End() <= v.clusterCount + 2 && v.clusterCount + 2 < 0xFFFF_FFF8
  }

  /** From any cluster of a run the chain visits the rest of the run, in order, and ends; it breaks off
      exactly when the FAT is too short for the run. */
  lemma {:induction false} ChainOfRun(image: seq<byte>, v: Volume, r: Run, cluster: nat, limit: nat)
    requires Plausible(v, |image|) && Standard(v) && RunInHeap(v, r) && Linked(image, v, r)
    requires r.Has(cluster) && limit >= r.End() - cluster
    ensures Chain(image, v, cluster, limit)
      == if r.End() <= FAT_ENTRIES_PER_SECTOR * v.fatLength then Some(Span(cluster, r.End())) else None
    decreases r.End() - cluster
  {
    hide Plausible, Chain, FatEntryAt, Span;
    EntryKnown(image, v, r, cluster);
    if cluster < FAT_ENTRIES_PER_SECTOR * v.fatLength {
      if cluster + 1 < r.End() {
        ChainOfRun(image, v, r, cluster + 1, limit - 1);
        ChainGoesOn(image, v, cluster, limit);
        SpanFirst(cluster, r.End());
      } else {
        ChainEnds(image, v, cluster, limit);
        SpanFirst(cluster, r.End());
      }
    } else {
      ChainBreaks(image, v, cluster, limit);
    }
  }

  lemma EntryKnown(image: seq<byte>, v: Volume, r: Run, cluster: nat)
    requires Plausible(v, |image|) && Standard(v) && Linked(image, v, r) && r.Has(cluster)
    ensures FatEntryAt(image, v, cluster)
      == if cluster < FAT_ENTRIES_PER_SECTOR * v.fatLength then Some(LinkIn(r, cluster)) else None
  {
    hide Plausible;
  }

  lemma SpanFirst(from: nat, to: nat)
    requires from < to
    ensures Span(from, to) == [from] + Span(from + 1, to)
    ensures from + 1 == to ==> Span(from, to) == [from]
  {
  }

  lemma ChainBreaks(image: seq<byte>, v: Volume, cluster: nat, limit: nat)
    requires Plausible(v, |image|) && FatEntryAt(image, v, cluster) == None
    ensures Chain(image, v, cluster, limit) == None
  {
    hide Plausible, FatEntryAt;
  }

  lemma ChainEnds(image: seq<byte>, v: Volume, cluster: nat, limit: nat)
    requires Plausible(v, |image|) && InHeap(v, cluster) && limit > 0
    requires FatEntryAt(image, v, cluster) == Some(FAT_EOC)
    ensures Chain(image, v, cluster, limit) == Some([cluster])
  {
    hide Plausible, FatEntryAt;
  }

  lemma ChainGoesOn(image: seq<byte>, v: Volume, cluster: nat, limit: nat)
    requires Plausible(v, |image|) && InHeap(v, cluster) && limit > 0 && cluster + 1 < 0xFFFF_FFF8
    requires FatEntryAt(image, v, cluster) == Some(cluster + 1)
    ensures Chain(image, v, cluster, limit)
      == match Chain(image, v, cluster + 1, limit - 1)
         case None => None
         case Some(rest) => Some([cluster] + rest)
  {
    hide Plausible, FatEntryAt;
  }

  /** Reading a run gives the bytes at its address, exactly when the FAT reaches its end. */
  lemma StreamOfRun(image: seq<byte>, v: Volume, r: Run, data: seq<byte>)
    requires Plausible(v, |image|) && Standard(v) && RunInHeap(v, r) && Linked(image, v, r)
    requires |data| == r.count * CLUSTER_SIZE
    requires var at := ClusterAddress(v, r.start);
      0 <= at && at + |data| <= |image| && image[at..at + |data|] == data
    ensures ReadStream(image, v, r.start)
      == if r.End() <= FAT_ENTRIES_PER_SECTOR * v.fatLength then Some(data) else None
  {
    hide Linked, Chain, Plausible, ClusterBytes, ClusterAddress, Standard;
    ChainOfRun(image, v, r, r.start, v.clusterCount);
    if r.End() <= FAT_ENTRIES_PER_SECTOR * v.fatLength {
      SpanBytes(image, v, r.start, r.End());
    }
  }

  /** Neighbouring clusters lie side by side. */
  lemma {:induction false} SpanBytes(image: seq<byte>, v: Volume, from: nat, end: nat)
    requires Plausible(v, |image|) && Standard(v) && 2 <= from < end <= v.clusterCount + 2
    ensures forall c :: c in Span(from, end) ==> InHeap(v, c)
    ensures var at := ClusterAddress(v, from);
      && 0 <= at && at + (end - from) * CLUSTER_SIZE <= |image|
      && ClusterBytes(image, v, Span(from, end)) == image[at..at + (end - from) * CLUSTER_SIZE]
    decreases end - from
  {
    hide Plausible, ClusterBytes, ClusterAddress, Standard;
    SpanFirst(from, end);
    SpanInside(image, v, from, end);
    FirstCluster(image, v, from, Span(from + 1, end));
    if from + 1 < end {
      SpanBytes(image, v, from + 1, end);
      ClusterStep(v, from, from + 1);
    } else {
      NoClusters(image, v);
      assert Span(end, end) == [];
    }
  }

  lemma SpanInside(image: seq<byte>, v: Volume, from: nat, end: nat)
    requires Plausible(v, |image|) && Standard(v) && 2 <= from < end <= v.clusterCount + 2
    ensures var at := ClusterAddress(v, from);
      0 <= at && at + CLUSTER_SIZE <= at + (end - from) * CLUSTER_SIZE <= |image|
  {
    hide Plausible, ClusterAddress;
    ClusterInside(v, |image|, from);
    ClusterInside(v, |image|, end - 1);
    ClusterStep(v, from, end - 1);
  }

  lemma ClusterStep(v: Volume, a: nat, b: nat)
    requires Standard(v)
    ensures ClusterAddress(v, b) == ClusterAddress(v, a) + (b - a) * CLUSTER_SIZE
  {
  }

  lemma NoClusters(image: seq<byte>, v: Volume)
    requires Plausible(v, |image|)
    ensures ClusterBytes(image, v, []) == []
  {
  }

  lemma FirstCluster(image: seq<byte>, v: Volume, first: nat, rest: seq<nat>)
    requires Plausible(v, |image|) && Standard(v) && InHeap(v, first) && forall c :: c in rest ==> InHeap(v, c)
    requires 0 <= ClusterAddress(v, first) && ClusterAddress(v, first) + CLUSTER_SIZE <= |image|
    ensures var at := ClusterAddress(v, first);
      ClusterBytes(image, v, [first] + rest) == image[at..at + CLUSTER_SIZE] + ClusterBytes(image, v, rest)
  {
    hide Plausible, ClusterAddress;
    assert ([first] + rest)[1..] == rest;
  }

  // The runs of a built volume.

  lemma RunServed(config: Config, root: Tree, hot: seq<Range>, sources: Sources, i: nat)
    requires Built(config, root) && i < |RunsFor(config, root)|
    ensures Plausible(VolumeFor(config, root), config.totalBytes)
    ensures Standard(VolumeFor(config, root)) && RunInHeap(VolumeFor(config, root), RunsFor(config, root)[i])
    ensures Linked(ImageOf(config, root, hot, sources), VolumeFor(config, root), RunsFor(config, root)[i])
  {
    hide Built, GeometryOf, RunsFor, ImageOf, Plausible, VolumeOf, Next, FatEntryAt, Tiles;
    var runs := RunsFor(config, root);
    var r := runs[i];
    var v := VolumeFor(config, root);
    Tilings(config, root);
    VolumeNumbers(config, root);
    GeoNumbers(config, root);
    TilesInOrder(runs, BITMAP_CLUSTER, Next(config, root));
    TilesDisjoint(runs, BITMAP_CLUSTER, Next(config, root));
    forall c: nat | r.Has(c) && c < FAT_ENTRIES_PER_SECTOR * v.fatLength
      ensures FatEntryAt(ImageOf(config, root, hot, sources), v, c) == Some(LinkIn(r, c))
    {
      FatServed(config, root, hot, sources, c);
      LinkOfRun(runs, i, c);
    }
  }

  /** Sectors that hold `data`, one after the other, make its run read as `data`. */
  lemma RunReads(config: Config, root: Tree, hot: seq<Range>, sources: Sources, i: nat, data: seq<byte>)
    requires Built(config, root) && i < |RunsFor(config, root)|
    requires |data| == RunsFor(config, root)[i].count * CLUSTER_SIZE
    requires forall k :: 0 <= k < RunsFor(config, root)[i].count * SECTORS_PER_CLUSTER ==>
      LayoutOf(config, root, hot).SectorBytes(sources, HeapSector(Geo(config), RunsFor(config, root)[i].start) + k)
      == SectorOf(data, k)
    requires Plausible(VolumeFor(config, root), config.totalBytes)
    ensures ReadStream(ImageOf(config, root, hot, sources), VolumeFor(config, root), RunsFor(config, root)[i].start)
      == if RunsFor(config, root)[i].End() <= FAT_ENTRIES_PER_SECTOR * Geo(config).fatLength then Some(data) else None
  {
    hide Built, GeometryOf, RunsFor, Plausible, VolumeOf, LayoutOf, Layout.Image, Layout.SectorBytes, Linked,
      HeapSector, SectorOf;
    var r := RunsFor(config, root)[i];
    var v := VolumeFor(config, root);
    var l := LayoutOf(config, root, hot);
    var start := HeapSector(Geo(config), r.start);
    var count := r.count * SECTORS_PER_CLUSTER;
    RunServed(config, root, hot, sources, i);
    VolumeNumbers(config, root);
    SectorsInImage(config, root, r.start, r.count);
    forall k | 0 <= k < count
      ensures l.SectorBytes(sources, start + k) == data[SECTOR_SIZE * k..SECTOR_SIZE * k + SECTOR_SIZE]
    {
      SectorSlice(data, k);
    }
    ImageSlice(l, sources, start, count, data);
    StreamOfRun(ImageOf(config, root, hot, sources), v, r, data);
  }

  lemma SectorsInImage(config: Config, root: Tree, cluster: nat, count: nat)
    requires Built(config, root) && 2 <= cluster && cluster + count <= Geo(config).clusterCount + 2
    ensures var start := HeapSector(Geo(config), cluster);
      0 <= start && SECTOR_SIZE * (start + count * SECTORS_PER_CLUSTER) <= config.totalBytes
  {
    hide Built, GeometryOf;
    GeoNumbers(config, root);
  }

  /** Every allocated run reads as the image bytes at its address, exactly when the FAT reaches its end. */
  lemma RunSlice(config: Config, root: Tree, hot: seq<Range>, sources: Sources, i: nat)
    requires Built(config, root) && i < |RunsFor(config, root)|
    requires Plausible(VolumeFor(config, root), config.totalBytes)
    ensures var r := RunsFor(config, root)[i];
      var image := ImageOf(config, root, hot, sources);
      var at := SECTOR_SIZE * HeapSector(Geo(config), r.start);
      && 0 <= at && at + r.count * CLUSTER_SIZE <= |image|
      && ReadStream(image, VolumeFor(config, root), r.start)
         == if r.End() <= FAT_ENTRIES_PER_SECTOR * Geo(config).fatLength then
              Some(image[at..at + r.count * CLUSTER_SIZE])
            else None
  {
    hide Built, GeometryOf, RunsFor, Plausible, VolumeOf, ImageOf, Linked, HeapSector, ReadStream;
    var r := RunsFor(config, root)[i];
    var image := ImageOf(config, root, hot, sources);
    RunServed(config, root, hot, sources, i);
    VolumeNumbers(config, root);
    SectorsInImage(config, root, r.start, r.count);
    var at := SECTOR_SIZE * HeapSector(Geo(config), r.start);
    StreamOfRun(image, VolumeFor(config, root), r, image[at..at + r.count * CLUSTER_SIZE]);
  }

  // Positions of the runs.

  /** Node `i` of a kind is the run at position 2 + i, or behind all directories. */
  function RunIndex(root: Tree, directories: bool, i: nat): nat {
    2 + i + if directories then 0 else |DirsOf(root)|
  }

  lemma RunAt(config: Config, root: Tree, directories: bool, i: nat)
    requires i < |Select(Walk([root]), directories)|
    ensures RunIndex(root, directories, i) < |RunsFor(config, root)|
    ensures RunsFor(config, root)[RunIndex(root, directories, i)] == RunOf(Select(Walk([root]), directories)[i])
  {
    hide GeometryOf, Select;
  }

  lemma UpcaseRun(config: Config, root: Tree)
    ensures |RunsFor(config, root)| >= 2
    ensures RunsFor(config, root)[0] == Run(BITMAP_CLUSTER, BitmapClusters(Geo(config).clusterCount))
    ensures RunsFor(config, root)[1] == Run(UpcaseCluster(Geo(config).clusterCount), UpcaseClusters())
  {
    hide GeometryOf, Select;
  }

  // Directory streams.

  lemma PrefixSector(data: seq<byte>, keep: nat, k: nat)
    requires keep <= |data| && SECTOR_SIZE * k + SECTOR_SIZE <= keep
    ensures SectorOf(data[..keep], k) == SectorOf(data, k)
  {
  }

  /** The stream of a directory is what was printed for it, up to its reservation. */
  lemma DirectoryStream(config: Config, root: Tree, hot: seq<Range>, sources: Sources, i: nat)
    requires Built(config, root) && i < |DirsOf(root)|
    requires Plausible(VolumeFor(config, root), config.totalBytes)
    ensures var t := DirsOf(root)[i];
      && t.count * CLUSTER_SIZE <= |BytesOf(config, root, i)|
      && ReadStream(ImageOf(config, root, hot, sources), VolumeFor(config, root), t.first)
         == if t.first + t.count <= FAT_ENTRIES_PER_SECTOR * Geo(config).fatLength
            then Some(BytesOf(config, root, i)[..t.count * CLUSTER_SIZE]) else None
  {
    hide Built, GeometryOf, RunsFor, Plausible, VolumeOf, ImageOf, HeapSector, ReadStream, BytesOf, SectorOf, LayoutOf,
      Layout.SectorBytes, PrintedClusters, DirectoryClusters;
    var t := DirsOf(root)[i];
    DirectorySize(config, root, i);
    RunAt(config, root, true, i);
    var index := RunIndex(root, true, i);
    hide DirsOf, RunIndex;
    var data := BytesOf(config, root, i)[..t.count * CLUSTER_SIZE];
    forall k | 0 <= k < t.count * SECTORS_PER_CLUSTER
      ensures LayoutOf(config, root, hot).SectorBytes(sources, HeapSector(Geo(config), t.first) + k)
        == SectorOf(data, k)
    {
      DirectorySectorServed(config, root, hot, sources, i, k);
      PrefixSector(BytesOf(config, root, i), t.count * CLUSTER_SIZE, k);
    }
    RunReads(config, root, hot, sources, index, data);
  }

  lemma DirectorySectorServed(config: Config, root: Tree, hot: seq<Range>, sources: Sources, i: nat, k: nat)
    requires Built(config, root) && i < |DirsOf(root)| && k < DirsOf(root)[i].count * SECTORS_PER_CLUSTER
    ensures LayoutOf(config, root, hot).SectorBytes(sources, HeapSector(Geo(config), DirsOf(root)[i].first) + k)
      == SectorOf(BytesOf(config, root, i), k)
  {
    hide Built, GeometryOf, DirsOf, BytesOf, SectorOf, LayoutOf, Layout.SectorBytes;
    var sector := HeapSector(Geo(config), DirsOf(root)[i].first) + k;
    DirectorySector(config, root, hot, i, sector);
    StoredSector(config, root, hot, sources, sector);
  }

  // The up-case table.

  lemma UpcaseStream(config: Config, root: Tree, hot: seq<Range>, sources: Sources)
    requires Built(config, root)
    requires Plausible(VolumeFor(config, root), config.totalBytes)
    ensures ReadStream(ImageOf(config, root, hot, sources), VolumeFor(config, root),
      UpcaseCluster(Geo(config).clusterCount))
      == Some(UpcaseTable(config.strUpper))
  {
    hide Built, GeometryOf, RunsFor, Plausible, VolumeOf, ImageOf, ReadStream, UpcaseTable, SectorOf, LayoutOf,
      Layout.SectorBytes, Layout.Image;
    UpcaseRun(config, root);
    GeoNumbers(config, root);
    var start := HeapSector(Geo(config), UpcaseCluster(Geo(config).clusterCount));
    forall k | 0 <= k < SECTORS_PER_CLUSTER
      ensures LayoutOf(config, root, hot).SectorBytes(sources, start + k) == SectorOf(UpcaseTable(config.strUpper), k)
    {
      UpcaseSector(config, root, hot, start + k);
      StoredSector(config, root, hot, sources, start + k);
    }
    RunReads(config, root, hot, sources, 1, UpcaseTable(config.strUpper));
  }

  // File streams.

  /** The first `length` bytes of a file whose contents may be shorter: zeros follow the end. */
  function FileData(content: seq<byte>, length: nat): (s: seq<byte>)
    ensures |s| == length
  {
    seq(length, j requires 0 <= j => if j < |content| then content[j] else 0)
  }

  lemma FindUnique(l: Layout, sector: int, i: nat)
    requires i < |l.mappings| && l.Backs(l.mappings[i], sector)
    requires forall k :: 0 <= k < |l.mappings| && k != i ==> !l.Backs(l.mappings[k], sector)
    ensures l.FindMapping(sector, 0) == Some(i)
  {
    hide Layout.Backs;
  }

  lemma FilesApart(config: Config, root: Tree, i: nat, k: nat)
    requires Built(config, root) && i < |FilesOf(root)| && k < |FilesOf(root)| && i != k
    ensures var files := FilesOf(root);
      files[i].first + files[i].count <= files[k].first || files[k].first + files[k].count <= files[i].first
  {
    hide Built, GeometryOf, FilesOf, Tiles, Next, FileBase;
    Tilings(config, root);
    var runs := RunsOf(FilesOf(root));
    TilesInOrder(runs, FileBase(config, root), Next(config, root));
    assert runs[i] == RunOf(FilesOf(root)[i]) && runs[k] == RunOf(FilesOf(root)[k]);
    assert if i < k then runs[i].End() <= runs[k].start else runs[k].End() <= runs[i].start;
  }

  /** Sector `k` of the clusters of file `i`. */
  function FileSector(config: Config, root: Tree, i: nat, k: nat): int
    requires i < |FilesOf(root)|
  {
    HeapSector(Geo(config), FilesOf(root)[i].first) + k
  }

  lemma MappingUnique(config: Config, root: Tree, hot: seq<Range>, i: nat, k: nat)
    requires Built(config, root) && i < |FilesOf(root)| && k < FilesOf(root)[i].count * SECTORS_PER_CLUSTER
    ensures LayoutOf(config, root, hot).FindMapping(FileSector(config, root, i, k), 0) == Some(i)
  {
    hide Built, GeometryOf, FilesOf, Layout.FindMapping, LayoutOf;
    var l := LayoutOf(config, root, hot);
    var files := FilesOf(root);
    var sector := FileSector(config, root, i, k);
    LayoutNumbers(config, root, hot);
    forall m | 0 <= m < |files| && m != i ensures !l.Backs(l.mappings[m], sector) {
      FilesApart(config, root, i, m);
    }
    FindUnique(l, sector, i);
  }

  lemma FileOrigin(config: Config, root: Tree, hot: seq<Range>, i: nat, k: nat)
    requires Built(config, root) && i < |FilesOf(root)| && k < FilesOf(root)[i].count * SECTORS_PER_CLUSTER
    requires FileSector(config, root, i, k) !in LayoutOf(config, root, hot).metadata
    ensures LayoutOf(config, root, hot).Resolve(FileSector(config, root, i, k))
      == File(FilesOf(root)[i].item.source, k * SECTOR_SIZE)
  {
    hide Built, GeometryOf, FilesOf, FileBase, DirsOf, LayoutOf, Layout.FindMapping, Next;
    var l := LayoutOf(config, root, hot);
    LayoutNumbers(config, root, hot);
    MappingUnique(config, root, hot, i, k);
    FileOrder(config, root, i);
    HeapBehindBoot(config, root);
    assert l.MetadataSector(FileSector(config, root, i, k)) == None;
    assert l.mappings[i] == MappingOf(FilesOf(root)[i]);
  }

  /** A file sector that is not stored comes from its source file. */
  lemma FileSectorServed(config: Config, root: Tree, hot: seq<Range>, sources: Sources, i: nat, k: nat)
    requires Built(config, root) && i < |FilesOf(root)| && k < FilesOf(root)[i].count * SECTORS_PER_CLUSTER
    requires FileSector(config, root, i, k) !in LayoutOf(config, root, hot).metadata
    ensures var t := FilesOf(root)[i];
      LayoutOf(config, root, hot).SectorBytes(sources, FileSector(config, root, i, k))
      == SectorOf(FileData(Content(sources, t.item.source), t.count * CLUSTER_SIZE), k)
  {
    hide Built, GeometryOf, FilesOf, FileSector, LayoutOf, Layout.Resolve, Padded, SectorOf, FileData, Content;
    var t := FilesOf(root)[i];
    FileOrigin(config, root, hot, i, k);
    FileDataSector(Content(sources, t.item.source), t.count * CLUSTER_SIZE, k);
  }

  lemma FileDataSector(content: seq<byte>, length: nat, k: nat)
    requires SECTOR_SIZE * k + SECTOR_SIZE <= length
    ensures Padded(content, k * SECTOR_SIZE) == SectorOf(FileData(content, length), k)
  {
  }

  lemma FileOrder(config: Config, root: Tree, i: nat)
    requires Built(config, root) && i < |FilesOf(root)|
    ensures var t := FilesOf(root)[i];
      && BaseOf(config) < FileBase(config, root) <= t.first < t.first + t.count <= Next(config, root)
      && (i == 0 ==> t.first == FileBase(config, root))
      && (i > 0 ==> FileBase(config, root) < t.first)
  {
    hide Built, GeometryOf, FilesOf, Tiles, Next, FileBase;
    Tilings(config, root);
    FileBaseBounded(config, root);
    var runs := RunsOf(FilesOf(root));
    TilesInOrder(runs, FileBase(config, root), Next(config, root));
    assert runs[i] == RunOf(FilesOf(root)[i]);
    assert runs[0] == RunOf(FilesOf(root)[0]);
  }

  /** The stream of a file none of whose sectors is stored: the source, then zeros. */
  lemma FileStream(config: Config, root: Tree, hot: seq<Range>, sources: Sources, i: nat)
    requires Built(config, root) && i < |FilesOf(root)|
    requires Plausible(VolumeFor(config, root), config.totalBytes)
    requires forall k: nat :: k < FilesOf(root)[i].count * SECTORS_PER_CLUSTER ==>
      FileSector(config, root, i, k) !in LayoutOf(config, root, hot).metadata
    ensures var t := FilesOf(root)[i];
      ReadStream(ImageOf(config, root, hot, sources), VolumeFor(config, root), t.first)
      == if t.first + t.count <= FAT_ENTRIES_PER_SECTOR * Geo(config).fatLength
         then Some(FileData(Content(sources, t.item.source), t.count * CLUSTER_SIZE)) else None
  {
    hide Built, GeometryOf, RunsFor, Plausible, VolumeOf, ImageOf, HeapSector, ReadStream, SectorOf, LayoutOf,
      Layout.SectorBytes, FileData;
    var t := FilesOf(root)[i];
    RunAt(config, root, false, i);
    var index := RunIndex(root, false, i);
    hide FilesOf, RunIndex;
    var data := FileData(Content(sources, t.item.source), t.count * CLUSTER_SIZE);
    forall k | 0 <= k < t.count * SECTORS_PER_CLUSTER
      ensures LayoutOf(config, root, hot).SectorBytes(sources, HeapSector(Geo(config), t.first) + k)
        == SectorOf(data, k)
    {
      assert FileSector(config, root, i, k) !in LayoutOf(config, root, hot).metadata;
      FileSectorServed(config, root, hot, sources, i, k);
    }
    RunReads(config, root, hot, sources, index, data);
  }
}
