/** What a build produces, as functions of the configuration and the scanned tree. */
module Plan {
  import opened Boot
  import opened Bytes
  import opened Consts
  import opened Directory
  import opened Geometry
  import opened Layouts
  import opened Names
  import opened Runs
  import opened Trees

  type Digest = s: seq<byte> | |s| == 32 witness Zeros(32)

  /** `digest` is SHA-256 of the encoded string, `strUpper` Python's `str.upper` of one character. */
  datatype Config = Config(
    totalBytes: nat,
    volumeLabel: string,
    digest: string -> Digest,
    strUpper: u16 -> seq<nat>)
  {
    function Serial(): u32 {
      Low32(digest(volumeLabel))
    }

    /** A stable positive 31-bit number. */
    function FileId(path: string): nat {
      Low32(digest(path)) % 0x8000_0000
    }
  }

  /** The low 31 bits of the first four digest bytes. */
  lemma FileIdOf(config: Config, path: string)
    ensures var d := config.digest(path);
      config.FileId(path) == d[0] as int + 256 * d[1] as int + 65536 * d[2] as int + 16777216 * (d[3] as int % 128)
    ensures config.FileId(path) < 0x8000_0000
  {
    var d := config.digest(path);
    var low := d[0] as int + 256 * d[1] as int + 65536 * d[2] as int + 16777216 * (d[3] as int % 128);
    assert Low32(d) == low + 0x8000_0000 * (d[3] as int / 128);
  }

  // Cluster assignment.

  function FileClusters(size: nat): (n: nat)
    ensures n >= 1
    ensures n * 131072 >= size && (n > 1 ==> (n - 1) * 131072 < size)
  {
    Max(1, CeilDiv(size, CLUSTER_SIZE))
  }

  function ClustersOf(t: Tree): (n: nat)
    ensures n >= 1
  {
    if t.item.isDirectory then DirectoryClusters(t) else FileClusters(t.item.size)
  }

  /** The directories, or the files, of a walk. */
  function Select(walk: seq<Tree>, directories: bool): seq<Tree> {
    if walk == [] then []
    else
      var last := walk[|walk| - 1];
      Select(walk[..|walk| - 1], directories) + if last.item.isDirectory == directories then [last] else []
  }

  function Dirs(walk: seq<Tree>): seq<Tree> {
    Select(walk, true)
  }

  function Files(walk: seq<Tree>): seq<Tree> {
    Select(walk, false)
  }

  function TotalClusters(ts: seq<Tree>): nat {
    if ts == [] then 0 else TotalClusters(ts[..|ts| - 1]) + ClustersOf(ts[|ts| - 1])
  }

  /** Directories start at the base cluster, files behind the last directory. */
  function FirstOfKind(walk: seq<Tree>, directories: bool, base: nat): nat {
    base + if directories then 0 else TotalClusters(Dirs(walk))
  }

  /** First cluster of the node at position `k` of the walk: it follows the nodes of its kind. */
  function FirstFor(walk: seq<Tree>, k: nat, base: nat): nat
    requires k < |walk|
  {
    var kind := walk[k].item.isDirectory;
    FirstOfKind(walk, kind, base) + TotalClusters(Select(walk[..k], kind))
  }

  function NextCluster(walk: seq<Tree>, base: nat): nat {
    base + TotalClusters(Dirs(walk)) + TotalClusters(Files(walk))
  }

  /** The forest whose nodes stand at positions `k` and up of `walk`, with their clusters filled in. */
  function Place(forest: seq<Tree>, walk: seq<Tree>, k: nat, base: nat): (placed: seq<Tree>)
    requires k + |Walk(forest)| <= |walk|
    ensures |placed| == |forest|
  {
    if forest == [] then []
    else
      var t := forest[0];
      assert |Walk(forest)| == 1 + |Below(t)| + |Walk(forest[1..])|;
      var below := if t.item.isDirectory then Place(t.children, walk, k + 1, base) else t.children;
      [Tree(t.item, FirstFor(walk, k, base), ClustersOf(t), below)]
      + Place(forest[1..], walk, k + 1 + |Below(t)|, base)
  }

  // Where the clusters start.

  const BITMAP_CLUSTER: int := 2

  function BitmapLength(clusterCount: int): int {
    (clusterCount + 7) / 8
  }

  function BitmapClusters(clusterCount: int): (n: nat)
    ensures n >= 1
  {
    Max(1, CeilDiv(BitmapLength(clusterCount), CLUSTER_SIZE))
  }

  function UpcaseCluster(clusterCount: int): nat {
    BITMAP_CLUSTER + BitmapClusters(clusterCount)
  }

  function UpcaseClusters(): nat {
    Max(1, CeilDiv(UPCASE_TABLE_BYTES, CLUSTER_SIZE))
  }

  function BaseCluster(clusterCount: int): nat {
    UpcaseCluster(clusterCount) + UpcaseClusters()
  }

  function RunOf(t: Tree): Run {
    Run(t.first, t.count)
  }

  function RunsOf(ts: seq<Tree>): (runs: seq<Run>)
    ensures |runs| == |ts|
  {
    seq(|ts|, i requires 0 <= i < |ts| => RunOf(ts[i]))
  }

  /** All allocated runs: bitmap, up-case table, directories, files. */
  function AllocatedRuns(walk: seq<Tree>, clusterCount: int): seq<Run> {
    [Run(BITMAP_CLUSTER, BitmapClusters(clusterCount)), Run(UpcaseCluster(clusterCount), UpcaseClusters())]
    + RunsOf(Dirs(walk)) + RunsOf(Files(walk))
  }

  function MappingOf(t: Tree): FileMapping {
    FileMapping(t.first, t.count, t.item.source, t.item.size, t.item.path)
  }

  function MappingsOf(ts: seq<Tree>): (m: seq<FileMapping>)
    ensures |m| == |ts|
  {
    seq(|ts|, i requires 0 <= i < |ts| => MappingOf(ts[i]))
  }

  function EntryOf(config: Config, t: Tree): Entry {
    Entry(t.item.path, t.item.source, t.item.name, t.item.isDirectory, t.item.size, t.first, t.count,
          config.FileId(t.item.path), "")
  }

  function EntriesOf(config: Config, ts: seq<Tree>): (e: seq<Entry>)
    ensures |e| == |ts|
  {
    seq(|ts|, i requires 0 <= i < |ts| => EntryOf(config, ts[i]))
  }

  // Metadata sectors.

  /** `data`, zero-padded to whole sectors, written from sector `start` on. */
  datatype Put = Put(start: int, data: seq<byte>) {
    function Sectors(): (n: nat)
      ensures n >= 1
    {
      Max(1, CeilDiv(|data|, SECTOR_SIZE))
    }

    predicate Covers(sector: int) {
      start <= sector < start + Sectors()
    }
  }

  function SectorOf(data: seq<byte>, i: int): Sector {
    seq(SECTOR_SIZE, k requires 0 <= k =>
      if 0 <= SECTOR_SIZE * i + k < |data| then data[SECTOR_SIZE * i + k] else 0)
  }

  function WriteOf(p: Put): map<int, Sector> {
    map s | p.start <= s < p.start + p.Sectors() && p.Covers(s) :: SectorOf(p.data, s - p.start)
  }

  /** A later write replaces what an earlier one left. */
  function Stored(puts: seq<Put>): map<int, Sector> {
    if puts == [] then map[] else Stored(puts[..|puts| - 1]) + WriteOf(puts[|puts| - 1])
  }

  lemma {:induction false} StoredKeys(puts: seq<Put>, sector: int)
    ensures sector in Stored(puts) <==> exists i :: 0 <= i < |puts| && puts[i].Covers(sector)
  {
    if puts != [] {
      var init := puts[..|puts| - 1];
      StoredKeys(init, sector);
      if i :| 0 <= i < |puts| && puts[i].Covers(sector) {
        assert i < |init| ==> init[i].Covers(sector);
      }
      if i :| 0 <= i < |init| && init[i].Covers(sector) {
        assert puts[i].Covers(sector);
      }
    }
  }

  /** The last write that covers a sector decides its contents. */
  lemma {:induction false} StoredAt(puts: seq<Put>, i: nat, sector: int)
    requires i < |puts| && puts[i].Covers(sector)
    requires forall j :: i < j < |puts| ==> !puts[j].Covers(sector)
    ensures sector in Stored(puts) && Stored(puts)[sector] == SectorOf(puts[i].data, sector - puts[i].start)
  {
    if i < |puts| - 1 {
      assert !puts[|puts| - 1].Covers(sector);
      StoredAt(puts[..|puts| - 1], i, sector);
    }
  }

  function HeapSector(g: Geometry, cluster: int): int {
    PARTITION_START + g.heapOffset + (cluster - 2) * SECTORS_PER_CLUSTER
  }

  function SpecialOf(config: Config, g: Geometry): Special {
    Special(
      config.volumeLabel,
      BITMAP_CLUSTER,
      Max(0, BitmapLength(g.clusterCount)),
      UpcaseCluster(g.clusterCount),
      UPCASE_TABLE_BYTES,
      Checksum(UpcaseTable(config.strUpper), {}, 0x1_0000_0000))
  }

  function Lead(config: Config, g: Geometry, isRoot: bool): (lead: seq<byte>)
    ensures |lead| == if isRoot then 3 * ENTRY_SIZE else 0
  {
    if isRoot then SpecialEntries(SpecialOf(config, g)) else []
  }

  function DirectoryPut(config: Config, g: Geometry, t: Tree, isRoot: bool): Put {
    Put(HeapSector(g, t.first), DirectoryBytes(t, Lead(config, g, isRoot), config.strUpper))
  }

  function VolumeOf(config: Config, g: Geometry, rootCluster: nat): Volume {
    Volume(config.totalBytes / SECTOR_SIZE, FAT_OFFSET, Max(0, g.fatLength), Max(0, g.heapOffset),
           Max(0, g.clusterCount), rootCluster, SHIFTS[0], SHIFTS[1])
  }

  /** Every write of the build, in order; `dirs` are the directories of the walk, the root first. */
  function Puts(config: Config, g: Geometry, dirs: seq<Tree>): (puts: seq<Put>)
    requires dirs != []
    ensures |puts| == 3 + |dirs|
  {
    var region := BootRegion(VolumeOf(config, g, dirs[0].first), config.Serial());
    [Put(PARTITION_START, region), Put(PARTITION_START + BOOT_SECTORS, region),
     DirectoryPut(config, g, dirs[0], true),
     Put(HeapSector(g, UpcaseCluster(g.clusterCount)), UpcaseTable(config.strUpper))]
    + seq(|dirs| - 1, i requires 0 <= i < |dirs| - 1 => DirectoryPut(config, g, dirs[i + 1], false))
  }

  // The build as a whole.

  function Geo(config: Config): Geometry {
    GeometryOf(config.totalBytes / SECTOR_SIZE)
  }

  function BaseOf(config: Config): nat {
    BaseCluster(Geo(config).clusterCount)
  }

  /** The scanned root with all clusters assigned. */
  function PlacedRoot(config: Config, root: Tree): Tree {
    Place([root], Walk([root]), 0, BaseOf(config))[0]
  }

  /** The build succeeds exactly when the clusters suffice. */
  predicate FitsImage(config: Config, root: Tree) {
    NextCluster(Walk([root]), BaseOf(config)) - 2 <= Geo(config).clusterCount
  }

  // What the records of a layout say.

  /** A record names its node, its source, and its clusters. */
  predicate Describes(e: Entry, t: Tree) {
    && e.path == t.item.path && e.name == t.item.name && e.source == t.item.source && e.parent == ""
    && e.isDirectory == t.item.isDirectory && e.size == t.item.size && e.first == t.first && e.count == t.count
  }

  predicate Maps(m: FileMapping, t: Tree) {
    && m.path == t.item.path && m.source == t.item.source && m.size == t.item.size
    && m.start == t.first && m.count == t.count
  }

  lemma RecordsDescribe(config: Config, root: Tree, hot: seq<Range>)
    ensures var l := LayoutOf(config, root, hot);
      var walk, files := Walk(root.children), Files(Walk([root]));
      && |l.entries| == |walk| && (forall k :: 0 <= k < |walk| ==> Describes(l.entries[k], walk[k]))
      && |l.mappings| == |files| && (forall k :: 0 <= k < |files| ==> Maps(l.mappings[k], files[k]))
      && (forall k :: 0 <= k < |walk| ==> l.entries[k].fileId == config.FileId(walk[k].item.path))
  {
    hide GeometryOf, Stored, Puts, Walk, AllocatedRuns, Select;
  }

  /** The layout for a placed root directory. */
  function LayoutOf(config: Config, root: Tree, hotRanges: seq<Range>): Layout {
    var g := Geo(config);
    var walk := Walk([root]);
    Layout(
      config.totalBytes,
      config.totalBytes / SECTOR_SIZE,
      PARTITION_START,
      FAT_OFFSET,
      Max(0, g.fatLength),
      Max(0, g.heapOffset),
      Max(0, g.clusterCount),
      root.first,
      BITMAP_CLUSTER,
      Max(0, BitmapLength(g.clusterCount)),
      UpcaseCluster(g.clusterCount),
      UPCASE_TABLE_BYTES,
      Stored(Puts(config, g, [root] + Dirs(Walk(root.children)))),
      MappingsOf(Files(walk)),
      EntriesOf(config, Walk(root.children)),
      hotRanges,
      AllocatedRuns(walk, g.clusterCount))
  }
}
