/** A reader that mounts an exFAT volume from nothing but the bytes of an image. */
module Reader {
  import opened Boot
  import opened Bytes
  import opened Consts
  import opened DirectoryReader
  import opened Wrappers

  /** What a console sees: directories in listing order, files with their bytes. */
  datatype Mounted =
    | MountedDir(name: string, children: seq<Mounted>)
    | MountedFile(name: string, data: seq<byte>)

  predicate InHeap(v: Volume, cluster: int) {
    2 <= cluster < v.clusterCount + 2
  }

  lemma Scaled(n: nat, a: nat, b: nat)
    requires a <= b
    ensures n * a <= n * b
  {
  }

  /** The FAT of a plausible volume lies inside the image. */
  lemma FatInside(v: Volume, bytes: nat)
    requires Plausible(v, bytes)
    ensures v.SectorSize() * v.fatOffset + v.SectorSize() * v.fatLength <= bytes
  {
    var n := v.SectorSize();
    Scaled(n, v.fatOffset + v.fatLength, v.heapOffset);
    assert n * (v.fatOffset + v.fatLength) == n * v.fatOffset + n * v.fatLength;
    assert v.ClusterSize() * v.clusterCount >= 0;
  }

  /** The FAT entry of a cluster, if the FAT is long enough to have one. */
  function FatEntryAt(image: seq<byte>, v: Volume, cluster: nat): Option<nat>
    requires Plausible(v, |image|)
  {
    if 4 * cluster + 4 <= v.SectorSize() * v.fatLength then
      FatInside(v, |image|);
      Some(NumberAt(image, v.SectorSize() * v.fatOffset + 4 * cluster, 4))
    else None
  }

  /** The clusters of a chain, in order; None for a chain that leaves the heap, breaks off, or is too long. */
  function Chain(image: seq<byte>, v: Volume, cluster: nat, limit: nat): (r: Option<seq<nat>>)
    requires Plausible(v, |image|)
    ensures r.Some? ==> forall c :: c in r.value ==> InHeap(v, c)
    ensures r.Some? ==> 1 <= |r.value| <= limit
    decreases limit
  {
    if limit == 0 || !InHeap(v, cluster) then None
    else
      match FatEntryAt(image, v, cluster)
      case None => None
      case Some(next) =>
        if next >= 0xFFFF_FFF8 then Some([cluster])
        else
          match Chain(image, v, next, limit - 1)
          case None => None
          case Some(rest) => Some([cluster] + rest)
  }

  /** Byte address of a cluster. */
  function ClusterAddress(v: Volume, cluster: int): int {
    v.SectorSize() * v.heapOffset + (cluster - 2) * v.ClusterSize()
  }

  /** A cluster of the heap lies inside the image. */
  lemma ClusterInside(v: Volume, bytes: nat, cluster: nat)
    requires Plausible(v, bytes) && InHeap(v, cluster)
    ensures 0 <= ClusterAddress(v, cluster) && ClusterAddress(v, cluster) + v.ClusterSize() <= bytes
  {
    var n := v.ClusterSize();
    Scaled(n, cluster - 1, v.clusterCount);
    assert n * (cluster - 1) == (cluster - 2) * n + n;
    assert v.SectorSize() * v.heapOffset >= 0 && (cluster - 2) * n >= 0;
  }

  /** The bytes of the clusters, one after the other. */
  function ClusterBytes(image: seq<byte>, v: Volume, chain: seq<nat>): (s: seq<byte>)
    requires Plausible(v, |image|) && forall c :: c in chain ==> InHeap(v, c)
    ensures |s| == |chain| * v.ClusterSize()
  {
    if chain == [] then []
    else
      ClusterInside(v, |image|, chain[0]);
      var at, n := ClusterAddress(v, chain[0]), v.ClusterSize();
      assert |chain| * n == n + |chain[1..]| * n;
      image[at..at + n] + ClusterBytes(image, v, chain[1..])
  }

  function ReadStream(image: seq<byte>, v: Volume, first: nat): Option<seq<byte>>
    requires Plausible(v, |image|)
  {
    match Chain(image, v, first, v.clusterCount)
    case None => None
    case Some(chain) => Some(ClusterBytes(image, v, chain))
  }

  /** The up-case table that the root directory announces, if length and checksum are right. */
  function ReadUpcase(image: seq<byte>, v: Volume, root: seq<byte>): (r: Option<seq<byte>>)
    requires Plausible(v, |image|)
    ensures r.Some? ==> |r.value| == UPCASE_TABLE_BYTES
  {
    match FindEntry(root, 0x82)
    case None => None
    case Some(entry) =>
      match ReadStream(image, v, NumberAt(entry, 20, 4))
      case None => None
      case Some(stream) =>
        var length := NumberAt(entry, 24, 8);
        if length != UPCASE_TABLE_BYTES || length > |stream|
           || Checksum(stream[..length], {}, 0x1_0000_0000) != NumberAt(entry, 4, 4) then None
        else Some(stream[..length])
  }

  /** The allocation bitmap that the root directory announces. */
  function ReadBitmap(image: seq<byte>, v: Volume, root: seq<byte>): Option<seq<byte>>
    requires Plausible(v, |image|)
  {
    match FindEntry(root, 0x81)
    case None => None
    case Some(entry) =>
      match ReadStream(image, v, NumberAt(entry, 20, 4))
      case None => None
      case Some(stream) =>
        var length := NumberAt(entry, 24, 8);
        if entry[1] != 0 || length > |stream| then None else Some(stream[..length])
  }

  /** What a record of a directory leads to, at most `depth` levels down. */
  function MountRecord(image: seq<byte>, v: Volume, table: seq<byte>, r: Record, depth: nat): Option<Mounted>
    requires Plausible(v, |image|) && |table| == UPCASE_TABLE_BYTES
    decreases depth, 0, 0
  {
    match ReadStream(image, v, r.first)
    case None => None
    case Some(stream) =>
      if r.length > |stream| then None
      else if !r.isDirectory then Some(MountedFile(r.name, stream[..r.length]))
      else if depth == 0 then None
      else
        match MountStream(image, v, table, stream[..r.length], depth - 1)
        case None => None
        case Some(children) => Some(MountedDir(r.name, children))
  }

  /** The contents of a directory, given its stream. */
  function MountStream(image: seq<byte>, v: Volume, table: seq<byte>, stream: seq<byte>,
          depth: nat): Option<seq<Mounted>>
    requires Plausible(v, |image|) && |table| == UPCASE_TABLE_BYTES
    decreases depth, 2, 0
  {
    match ParseEntries(stream, table)
    case None => None
    case Some(records) => MountRecords(image, v, table, records, depth)
  }

  function MountRecords(image: seq<byte>, v: Volume, table: seq<byte>, records: seq<Record>, depth: nat)
    : (r: Option<seq<Mounted>>)
    requires Plausible(v, |image|) && |table| == UPCASE_TABLE_BYTES
    ensures r.Some? ==> |r.value| == |records|
    decreases depth, 1, |records|
  {
    if records == [] then Some([])
    else
      match MountRecord(image, v, table, records[0], depth)
      case None => None
      case Some(first) =>
        match MountRecords(image, v, table, records[1..], depth)
        case None => None
        case Some(rest) => Some([first] + rest)
  }

  /** The root directory of a volume, found from the boot sector on. */
  function RootStream(image: seq<byte>): (r: Option<(Volume, seq<byte>)>)
    ensures r.Some? ==> Plausible(r.value.0, |image|)
  {
    match ReadVolume(image)
    case None => None
    case Some(v) =>
      match ReadStream(image, v, v.rootCluster)
      case None => None
      case Some(root) => Some((v, root))
  }

  /** The up-case table of a volume. */
  function VolumeUpcase(image: seq<byte>): Option<seq<byte>> {
    match RootStream(image)
    case None => None
    case Some((v, root)) => ReadUpcase(image, v, root)
  }

  /** The bitmap of a volume. */
  function VolumeBitmap(image: seq<byte>): Option<seq<byte>> {
    match RootStream(image)
    case None => None
    case Some((v, root)) => ReadBitmap(image, v, root)
  }

  /** The whole volume. No tree is deeper than there are clusters. */
  function Mount(image: seq<byte>): Option<seq<Mounted>> {
    match RootStream(image)
    case None => None
    case Some((v, root)) =>
      match ReadUpcase(image, v, root)
      case None => None
      case Some(table) => MountStream(image, v, table, root, v.clusterCount)
  }
}
