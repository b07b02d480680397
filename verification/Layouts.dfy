/** The compiled layout, and the meaning of every byte of the virtual image. */
module Layouts {
  import opened Bitmap
  import opened Bytes
  import opened Consts
  import opened Fat
  import opened Runs
  import opened Wrappers

  type Sector = s: seq<byte> | |s| == SECTOR_SIZE witness Zeros(SECTOR_SIZE)

  /** Contents of the source files, by path. */
  type Sources = map<string, seq<byte>>

  datatype FileMapping = FileMapping(start: nat, count: nat, source: string, size: nat, path: string)

  datatype Entry = Entry(
    path: string,
    source: string,
    name: string,
    isDirectory: bool,
    size: nat,
    first: nat,
    count: nat,
    fileId: nat,
    parent: string)

  /** Start and length in bytes. */
  datatype Range = Range(start: int, length: int) {
    predicate Has(at: int) {
      start <= at < start + length
    }
  }

  datatype Layout = Layout(
    totalBytes: nat,
    totalSectors: nat,
    partitionStart: nat,
    fatOffset: nat,
    fatLength: nat,
    heapOffset: nat,
    clusterCount: nat,
    rootCluster: nat,
    bitmapCluster: nat,
    bitmapLength: nat,
    upcaseCluster: nat,
    upcaseLength: nat,
    metadata: map<int, Sector>,
    mappings: seq<FileMapping>,
    entries: seq<Entry>,
    hotRanges: seq<Range>,
    runs: seq<Run>)
  {
    function StartSector(cluster: int): int {
      partitionStart + heapOffset + (cluster - 2) * SECTORS_PER_CLUSTER
    }

    function FatStart(): int {
      partitionStart + fatOffset
    }

    function BitmapSectors(): int {
      CeilDiv(bitmapLength, SECTOR_SIZE)
    }

    predicate Backs(m: FileMapping, sector: int) {
      StartSector(m.start) <= sector < StartSector(m.start) + m.count * SECTORS_PER_CLUSTER
    }

    /** Stored sector, FAT sector or bitmap sector, in the order in which the mapper looks. */
    function MetadataSector(sector: int): Option<Sector> {
      if sector in metadata then Some(metadata[sector])
      else if FatStart() <= sector < FatStart() + fatLength then Some(FatSector(runs, sector - FatStart()))
      else if StartSector(bitmapCluster) <= sector < StartSector(bitmapCluster) + BitmapSectors() then
        Some(BitmapSector(runs, sector - StartSector(bitmapCluster)))
      else None
    }

    /** The first mapping from position `from` on that backs the sector. */
    function FindMapping(sector: int, from: nat): (r: Option<nat>)
      requires from <= |mappings|
      ensures r.Some? ==> from <= r.value < |mappings| && Backs(mappings[r.value], sector)
      ensures forall k :: from <= k < (if r.Some? then r.value else |mappings|) ==> !Backs(mappings[k], sector)
      decreases |mappings| - from
    {
      if from == |mappings| then None
      else if Backs(mappings[from], sector) then Some(from)
      else FindMapping(sector, from + 1)
    }

    /** Where the bytes of a sector come from. */
    function Resolve(sector: int): Origin {
      match MetadataSector(sector)
      case Some(bytes) => Metadata(bytes)
      case None =>
        match FindMapping(sector, 0)
        case Some(k) => File(mappings[k].source, (sector - StartSector(mappings[k].start)) * SECTOR_SIZE)
        case None => Zero
    }

    function SectorBytes(sources: Sources, sector: int): Sector {
      match Resolve(sector)
      case Metadata(bytes) => bytes
      case File(source, offset) => Padded(Content(sources, source), offset)
      case Zero => Zeros(SECTOR_SIZE)
    }

    function ImageByte(sources: Sources, at: int): byte {
      SectorBytes(sources, at / SECTOR_SIZE)[at % SECTOR_SIZE]
    }

    /** The whole image: what a reader of the block device can see. */
    function Image(sources: Sources): (image: seq<byte>)
      ensures |image| == totalBytes
    {
      seq(totalBytes, at requires 0 <= at => ImageByte(sources, at))
    }

    /** What the mapper needs of a layout that the builder made or that a saved state restored. */
    predicate Servable() {
      && totalBytes == SECTOR_SIZE * totalSectors
      && FAT_ENTRIES_PER_SECTOR * fatLength <= FAT_EOC
    }
  }

  /** The answer of `SectorMapper.map`, with the source path in place of its descriptor. */
  datatype Origin = Metadata(bytes: Sector) | File(source: string, offset: int) | Zero

  function Content(sources: Sources, path: string): seq<byte> {
    if path in sources then sources[path] else []
  }

  /** The bytes from `offset` on, with zeros behind the end. */
  function Padded(content: seq<byte>, offset: int): Sector {
    seq(SECTOR_SIZE, k requires 0 <= k =>
      if 0 <= offset + k < |content| then content[offset + k] else 0)
  }

  lemma ImageAt(l: Layout, sources: Sources, sector: nat, k: nat)
    requires k < SECTOR_SIZE && SECTOR_SIZE * sector + k < l.totalBytes
    ensures l.Image(sources)[SECTOR_SIZE * sector + k] == l.SectorBytes(sources, sector)[k]
  {
    assert (SECTOR_SIZE * sector + k) / SECTOR_SIZE == sector && (SECTOR_SIZE * sector + k) % SECTOR_SIZE == k;
  }

  /** Consecutive sectors of the image, given sector by sector. */
  lemma ImageSlice(l: Layout, sources: Sources, sector: nat, count: nat, data: seq<byte>)
    requires SECTOR_SIZE * (sector + count) <= l.totalBytes
    requires |data| == SECTOR_SIZE * count
    requires forall i :: 0 <= i < count ==>
      l.SectorBytes(sources, sector + i) == data[SECTOR_SIZE * i..SECTOR_SIZE * i + SECTOR_SIZE]
    ensures l.Image(sources)[SECTOR_SIZE * sector..SECTOR_SIZE * (sector + count)] == data
  {
    hide Layout.SectorBytes, Layout.Image;
    var image := l.Image(sources);
    var from := 512 * sector;
    forall k | 0 <= k < |data| ensures image[from + k] == data[k] {
      var i, m := k / 512, k % 512;
      ImageAt(l, sources, sector + i, m);
      assert l.SectorBytes(sources, sector + i) == data[512 * i..512 * i + 512];
      assert data[512 * i..512 * i + 512][m] == data[512 * i + m];
    }
  }
}
