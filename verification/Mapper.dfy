/** The read-only sector mapper. */
module Mapper {
  import opened Bitmap
  import opened Bits
  import opened Bytes
  import opened Consts
  import opened Fat
  import opened Host
  import opened Layouts
  import opened Ranges
  import opened Runs
  import opened Wrappers

  datatype MapError =
    | NegativeOffset
    | NoDestination
    | ReadExceedsImage
    | SectorOutsideImage(sector: int)
    | SourceNotOpened(path: string)
    | NotMetadata

  datatype SectorMapping =
    | FromMetadata(bytes: Sector)
    | FromFile(fd: nat, offset: int)
    | FromZero

  /** A run of sectors of one kind, in bytes. */
  datatype Extent = Extent(start: int, length: int, zero: bool) {
    predicate Has(at: int) {
      start <= at < start + length
    }
  }

  lemma PatchPrefix(data: seq<byte>, at: nat, e: seq<byte>)
    requires at + |e| <= |data|
    ensures Patch(data, at, e)[..at + |e|] == data[..at] + e
  {
  }

  lemma FatSectorPrefix(runs: seq<Run>, index: nat, i: nat)
    requires i < FAT_ENTRIES_PER_SECTOR
    ensures FatSector(runs, index)[..4 * i + 4]
      == FatSector(runs, index)[..4 * i] + Le(FatEntry(runs, FAT_ENTRIES_PER_SECTOR * index + i), 4)
  {
    hide FatSector, Le, FatEntry;
    FatSectorEntry(runs, index, i);
    var s := FatSector(runs, index);
    assert s[..4 * i + 4] == s[..4 * i] + s[4 * i..4 * i + 4];
  }

  /** Generates one FAT sector entry by entry. */
  method LazyFatSector(runs: seq<Run>, index: nat) returns (s: Sector)
    requires FAT_ENTRIES_PER_SECTOR * (index + 1) <= FAT_EOC
    ensures s == FatSector(runs, index)
  {
    PowersOf256();
    hide FatSector, Patch, Le, Pow256;
    var data := new byte[SECTOR_SIZE](_ => 0);
    var first := index * FAT_ENTRIES_PER_SECTOR;
    for i := 0 to FAT_ENTRIES_PER_SECTOR
      invariant data[..4 * i] == FatSector(runs, index)[..4 * i]
    {
      var cluster := first + i;
      var value := 0;
      if cluster == 0 {
        value := FAT_FIRST_RESERVED;
      } else if cluster == 1 {
        value := FAT_EOC;
      } else {
        value := LookUp(runs, cluster);
      }
      ghost var before := data[..];
      Pack(data, 4 * i, value, 4);
      PatchPrefix(before, 4 * i, Le(value, 4));
      FatSectorPrefix(runs, index, i);
      assert before[..4 * i] == FatSector(runs, index)[..4 * i];
    }
    assert data[..] == data[..4 * FAT_ENTRIES_PER_SECTOR];
    s := data[..];
  }

  /** The inner loop: the first run that holds the cluster. */
  method LookUp(runs: seq<Run>, cluster: nat) returns (value: nat)
    ensures value == Link(runs, cluster) && value <= Max(cluster + 1, FAT_EOC)
  {
    for i := 0 to |runs|
      invariant Link(runs, cluster) == Link(runs[i..], cluster)
    {
      if runs[i].start <= cluster < runs[i].start + runs[i].count {
        return if cluster == runs[i].start + runs[i].count - 1 then FAT_EOC else cluster + 1;
      }
      assert runs[i..][1..] == runs[i + 1..];
    }
    value := 0;
  }

  /** Marks bit `b` of the sector as allocated; all other bits stay. */
  method MarkBit(a: array<byte>, b: nat)
    requires b / 8 < a.Length
    modifies a
    ensures forall j: nat :: j / 8 < a.Length ==> (BitAt(a[..], j) <==> j == b || BitAt(old(a[..]), j))
  {
    PowersOf2();
    SetBitBounded(a[b / 8], b % 8, 8);
    ghost var before := a[..];
    a[b / 8] := SetBit(a[b / 8], b % 8);
    forall j: nat | j / 8 < a.Length ensures BitAt(a[..], j) <==> j == b || BitAt(before, j) {
      if j / 8 == b / 8 {
        SetBitSets(before[b / 8], b % 8, j % 8);
      }
    }
  }

  lemma CoveredStep(runs: seq<Run>, i: nat, cluster: int)
    requires i < |runs|
    ensures Covered(runs[..i + 1], cluster) <==> Covered(runs[..i], cluster) || runs[i].Has(cluster)
  {
    CoveredByLast(runs[..i + 1], cluster);
    assert runs[..i + 1][..i] == runs[..i];
  }

  lemma ZeroBits(data: seq<byte>, j: nat)
    requires j / 8 < |data| && forall k :: 0 <= k < |data| ==> data[k] == 0
    ensures !BitAt(data, j)
  {
    ZeroBit(j % 8);
  }

  lemma {:induction false} ZeroBit(k: nat)
    ensures !Bit(0, k)
  {
    if k > 0 {
      ZeroBit(k - 1);
    }
  }

  /** Generates one bitmap sector run by run. */
  method LazyBitmapSector(runs: seq<Run>, index: nat) returns (s: Sector)
    ensures s == BitmapSector(runs, index)
  {
    hide BitmapSector, Covered, BitAt;
    var data := new byte[SECTOR_SIZE](_ => 0);
    var first := 2 + index * SECTOR_SIZE * 8;
    forall j: nat | j < SECTOR_SIZE * 8 ensures BitAt(data[..], j) <==> Covered(runs[..0], first + j) {
      ZeroBits(data[..], j);
      NoneCovered(runs, first + j);
    }
    for i := 0 to |runs|
      invariant forall j: nat :: j < SECTOR_SIZE * 8 ==> (BitAt(data[..], j) <==> Covered(runs[..i], first + j))
    {
      var begin := Max(runs[i].start, first);
      var end := Min(runs[i].start + runs[i].count, first + SECTOR_SIZE * 8);
      var cluster := begin;
      while cluster < end
        invariant begin <= cluster
        invariant forall j: nat :: j < SECTOR_SIZE * 8 ==>
          (BitAt(data[..], j) <==> Covered(runs[..i], first + j) || begin <= first + j < Min(cluster, end))
      {
        MarkBit(data, cluster - first);
        cluster := cluster + 1;
      }
      forall j: nat | j < SECTOR_SIZE * 8 ensures BitAt(data[..], j) <==> Covered(runs[..i + 1], first + j) {
        CoveredStep(runs, i, first + j);
      }
    }
    assert runs[..|runs|] == runs;
    BitmapSectorUnique(runs, index, data[..]);
    s := data[..];
  }

  lemma NoneCovered(runs: seq<Run>, cluster: int)
    ensures !Covered(runs[..0], cluster)
  {
  }

  // What the methods of the mapper promise, on values.

  /** The sector can be served: its source file, if it has one, exists. */
  predicate Available(l: Layout, files: Sources, sector: int) {
    match l.Resolve(sector)
    case File(source, _) => source in files
    case _ => true
  }

  predicate AllAvailable(l: Layout, files: Sources, first: int, end: int) {
    forall sector :: first <= sector < end ==> Available(l, files, sector)
  }

  /** The extents lie end to end from `start` to `end`. */
  predicate ExtentsTile(extents: seq<Extent>, start: int, end: int) {
    && (forall i :: 0 <= i < |extents| ==> extents[i].length > 0)
    && (forall i :: 0 <= i < |extents| - 1 ==> extents[i].start + extents[i].length == extents[i + 1].start)
    && (if extents == [] then start >= end
        else extents[0].start == start && extents[|extents| - 1].start + extents[|extents| - 1].length == end)
  }

  /** An extent of whole sectors that are all zero, or none of them. */
  ghost predicate Uniform(l: Layout, e: Extent) {
    && e.start % SECTOR_SIZE == 0 && e.length % SECTOR_SIZE == 0
    && forall sector :: e.start <= SECTOR_SIZE * sector < e.start + e.length ==> (l.Resolve(sector).Zero? <==> e.zero)
  }

  /** The exact run-length form of the sectors between `start` and `end`. */
  ghost predicate ExtentsOf(l: Layout, extents: seq<Extent>, start: int, end: int) {
    && ExtentsTile(extents, start, end)
    && (forall i :: 0 <= i < |extents| ==> Uniform(l, extents[i]))
    && (forall i :: 0 <= i < |extents| - 1 ==> extents[i].zero != extents[i + 1].zero)
  }

  /** What an extents request over a rounded range answers: an empty range has no extents; a range that starts
      before the image, or whose sources are not all there, raises. */
  ghost predicate ExtentsAnswer(l: Layout, files: Sources, start: int, end: int, r: Result<seq<Extent>, MapError>) {
    && (r.Ok? <==> start >= end || (start >= 0 && AllAvailable(l, files, SectorIndex(start), SectorIndex(end))))
    && (r.Ok? ==> ExtentsOf(l, r.value, start, end))
  }

  /** Every byte of a zero extent reads as zero; a data extent holds no zero sector. */
  lemma ZeroExtentReadsZero(l: Layout, sources: Sources, extents: seq<Extent>, start: int, end: int, i: nat, at: int)
    requires ExtentsOf(l, extents, start, end) && i < |extents|
    requires extents[i].start <= at < extents[i].start + extents[i].length
    ensures extents[i].zero <==> l.Resolve(at / SECTOR_SIZE).Zero?
    ensures extents[i].zero ==> l.ImageByte(sources, at) == 0
  {
    hide Layout.Resolve;
    assert Uniform(l, extents[i]);
    assert extents[i].start <= SECTOR_SIZE * (at / SECTOR_SIZE) < extents[i].start + extents[i].length;
  }

  /** There is only one such form. */
  lemma {:induction false} ExtentsUnique(l: Layout, a: seq<Extent>, b: seq<Extent>, start: int, end: int)
    requires ExtentsOf(l, a, start, end) && ExtentsOf(l, b, start, end)
    ensures a == b
    decreases |a|
  {
    hide Layout.Resolve, Uniform, ExtentsOf;
    ExtentsAreTile(l, a, start, end);
    ExtentsAreTile(l, b, start, end);
    if a != [] {
      TileGrows(a, start, end);
    }
    if b != [] {
      TileGrows(b, start, end);
    }
    if a != [] && b != [] {
      HeadNotShorter(l, a, b, start, end);
      HeadNotShorter(l, b, a, start, end);
      ExtentsTail(l, a, start, end);
      ExtentsTail(l, b, start, end);
      ExtentsUnique(l, a[1..], b[1..], start + a[0].length, end);
      assert a == [a[0]] + a[1..] && b == [b[0]] + b[1..];
    }
  }

  lemma {:induction false} TileGrows(extents: seq<Extent>, start: int, end: int)
    requires ExtentsTile(extents, start, end) && extents != []
    ensures start < start + extents[0].length <= end
    ensures |extents| > 1 ==> start + extents[0].length < end
    decreases |extents|
  {
    if |extents| > 1 {
      TileGrows(extents[1..], start + extents[0].length, end);
    }
  }

  lemma ExtentsAreTile(l: Layout, extents: seq<Extent>, start: int, end: int)
    requires ExtentsOf(l, extents, start, end)
    ensures ExtentsTile(extents, start, end)
    ensures extents != [] ==> extents[0].start == start
  {
  }

  lemma ExtentsTail(l: Layout, extents: seq<Extent>, start: int, end: int)
    requires ExtentsOf(l, extents, start, end) && extents != []
    ensures ExtentsOf(l, extents[1..], start + extents[0].length, end)
  {
    hide Uniform;
  }

  lemma WholeSector(at: int) returns (sector: int)
    requires at % SECTOR_SIZE == 0
    ensures SECTOR_SIZE * sector == at
  {
    sector := at / SECTOR_SIZE;
  }

  lemma KindAt(l: Layout, e: Extent, sector: int)
    requires Uniform(l, e) && e.start <= SECTOR_SIZE * sector < e.start + e.length
    ensures l.Resolve(sector).Zero? <==> e.zero
  {
    hide Layout.Resolve;
  }

  lemma HeadNotShorter(l: Layout, a: seq<Extent>, b: seq<Extent>, start: int, end: int)
    requires ExtentsOf(l, a, start, end) && ExtentsOf(l, b, start, end) && a != [] && b != []
    ensures a[0].length >= b[0].length && a[0].zero == b[0].zero
  {
    hide Layout.Resolve, Uniform;
    TileGrows(b, start, end);
    RunAligned(l, a[0]);
    var first := WholeSector(start);
    KindAt(l, a[0], first);
    KindAt(l, b[0], first);
    if |a| > 1 {
      var next := WholeSector(start + a[0].length);
      KindAt(l, a[1], next);
      if a[0].length < b[0].length {
        KindAt(l, b[0], next);
      }
    }
  }

  function SectorIndex(at: int): int {
    at / SECTOR_SIZE
  }

  /** The position of a byte within its sector. */
  function Within(at: int): int {
    at % SECTOR_SIZE
  }

  predicate Aligned(at: int) {
    at % SECTOR_SIZE == 0
  }

  /** The range of bytes that an extents request is rounded to. */
  function ExtentsStart(offset: int): int {
    offset - offset % SECTOR_SIZE
  }

  function ExtentsEnd(l: Layout, offset: int, count: int): int {
    Min(l.totalBytes, CeilDiv(offset + count, SECTOR_SIZE) * SECTOR_SIZE)
  }

  /** The mapping tells where the bytes come from; a file comes with a descriptor opened on its source. */
  predicate Answers(origin: Origin, files: Sources, descriptors: map<nat, string>, r: Result<SectorMapping, MapError>) {
    match origin
    case Metadata(bytes) => r == Ok(FromMetadata(bytes))
    case File(source, offset) =>
      if source in files then
        r.Ok? && r.value.FromFile? && r.value.offset == offset
        && r.value.fd in descriptors && descriptors[r.value.fd] == source
      else r == Err(SourceNotOpened(source))
    case Zero => r == Ok(FromZero)
  }

  // Prefetch.

  /** The cluster runs of the directories below the root, as the entries list them. */
  function EntryRuns(entries: seq<Entry>): seq<Run> {
    if entries == [] then []
    else
      var last := entries[|entries| - 1];
      EntryRuns(entries[..|entries| - 1]) +
        if last.isDirectory && last.count != 0 then [Run(last.first, last.count)] else []
  }

  /** The whole FAT sectors that hold the entries of a run. */
  function FatRange(l: Layout, r: Run): Range {
    var first := r.start * 4 / SECTOR_SIZE;
    Range((l.FatStart() + first) * SECTOR_SIZE, (CeilDiv(r.End() * 4, SECTOR_SIZE) - first) * SECTOR_SIZE)
  }

  function FatRanges(l: Layout, runs: seq<Run>): (ranges: seq<Range>)
    ensures |ranges| == |runs|
  {
    seq(|runs|, i requires 0 <= i < |runs| => FatRange(l, runs[i]))
  }

  lemma NoEntryRuns(entries: seq<Entry>)
    ensures EntryRuns(entries[..0]) == []
  {
  }

  lemma EntryRunsStep(entries: seq<Entry>, k: nat)
    requires k < |entries|
    ensures EntryRuns(entries[..k + 1]) == EntryRuns(entries[..k])
      + if entries[k].isDirectory && entries[k].count != 0 then [Run(entries[k].first, entries[k].count)] else []
  {
    assert entries[..k + 1][..k] == entries[..k];
  }

  lemma FatRangesStep(l: Layout, runs: seq<Run>, k: nat)
    requires k < |runs|
    ensures FatRanges(l, runs)[..k + 1] == FatRanges(l, runs)[..k] + [FatRange(l, runs[k])]
  {
    hide FatRange;
  }

  function BitmapRange(l: Layout): Range {
    Range(l.StartSector(l.bitmapCluster) * SECTOR_SIZE, l.BitmapSectors() * SECTOR_SIZE)
  }

  function FullFatRange(l: Layout): Range {
    Range(l.FatStart() * SECTOR_SIZE, l.fatLength * SECTOR_SIZE)
  }

  /** What the prefetch policy selects. For the root directory that is its first cluster only. */
  function Selected(l: Layout, directoryMetadata: bool, fullFat: bool): seq<Range> {
    (if directoryMetadata then
       l.hotRanges + FatRanges(l, [Run(l.rootCluster, 1)] + EntryRuns(l.entries)) + [BitmapRange(l)]
     else [])
    + if fullFat then [FullFatRange(l)] else []
  }

  class SectorMapper {
    const layout: Layout
    const host: Host
    var fds: map<string, nat>

    /** Exactly one open descriptor for each cached path. */
    ghost predicate Valid()
      reads this, host
    {
      && layout.Servable()
      && host.Valid()
      && (forall path :: path in fds ==> fds[path] in host.descriptors && host.descriptors[fds[path]] == path)
      && (forall fd :: fd in host.descriptors ==> host.descriptors[fd] in fds && fds[host.descriptors[fd]] == fd)
    }

    constructor (layout: Layout, host: Host)
      requires layout.Servable() && host.Valid() && host.descriptors == map[]
      ensures Valid() && this.layout == layout && this.host == host && fds == map[]
    {
      this.layout := layout;
      this.host := host;
      fds := map[];
    }

    lemma WholeSectors()
      requires Valid()
      ensures layout.Servable()
      ensures layout.totalBytes == SECTOR_SIZE * layout.totalSectors
    {
    }

    method Open(path: string) returns (r: Result<nat, MapError>)
      requires Valid()
      modifies this, host
      ensures Valid()
      ensures path in host.files ==> r.Ok? && r.value in host.descriptors && host.descriptors[r.value] == path
      ensures path !in host.files ==> r == Err(SourceNotOpened(path)) && fds == old(fds)
      ensures fds.Keys == old(fds.Keys) + if path in host.files then {path} else {}
      ensures forall p :: p in old(fds) ==> fds[p] == old(fds[p])
    {
      assert path in fds ==> host.descriptors[fds[path]] in host.files;
      if path !in fds {
        var answer := host.Open(path);
        match answer {
          case Err(_) => return Err(SourceNotOpened(path));
          case Ok(fd) => fds := fds[path := fd];
        }
      }
      r := Ok(fds[path]);
    }

    method Close()
      requires Valid()
      modifies this, host
      ensures Valid() && fds == map[] && host.descriptors == map[]
    {
      var rest := fds.Keys;
      while rest != {}
        invariant rest <= fds.Keys && fds == old(fds)
        invariant host.Valid()
        invariant forall path :: path in rest ==> fds[path] in host.descriptors && host.descriptors[fds[path]] == path
        invariant forall fd :: fd in host.descriptors ==>
          host.descriptors[fd] in rest && fds[host.descriptors[fd]] == fd
        decreases rest
      {
        var path :| path in rest;
        host.Close(fds[path]);
        rest := rest - {path};
      }
      assert host.descriptors.Keys == {};
      fds := map[];
    }

    /** Stored or lazily generated metadata. */
    method MetadataSector(sector: int) returns (r: Option<Sector>)
      requires Valid()
      ensures r == layout.MetadataSector(sector)
    {
      if sector in layout.metadata {
        return Some(layout.metadata[sector]);
      }
      var fatStart := layout.partitionStart + layout.fatOffset;
      if fatStart <= sector < fatStart + layout.fatLength {
        var s := LazyFatSector(layout.runs, sector - fatStart);
        return Some(s);
      }
      var bitmapStart := layout.StartSector(layout.bitmapCluster);
      var bitmapSectors := (layout.bitmapLength + SECTOR_SIZE - 1) / SECTOR_SIZE;
      if bitmapStart <= sector < bitmapStart + bitmapSectors {
        var s := LazyBitmapSector(layout.runs, sector - bitmapStart);
        return Some(s);
      }
      r := None;
    }

    /** Resolves a sector; a file-backed one needs its source opened. */
    method Map(sector: int) returns (r: Result<SectorMapping, MapError>)
      requires Valid()
      modifies this, host
      ensures Valid()
      ensures !(0 <= sector < layout.totalSectors) ==> r == Err(SectorOutsideImage(sector))
      ensures 0 <= sector < layout.totalSectors ==>
        && Answers(layout.Resolve(sector), host.files, host.descriptors, r)
        && (r.Ok? <==> Available(layout, host.files, sector))
        && (r.Ok? ==> (r.value.FromZero? <==> layout.Resolve(sector).Zero?))
    {
      hide FatSector, BitmapSector, Layout.FindMapping, Layout.MetadataSector;
      if sector < 0 || sector >= layout.totalSectors {
        return Err(SectorOutsideImage(sector));
      }
      var metadata := MetadataSector(sector);
      if metadata.Some? {
        return Ok(FromMetadata(metadata.value));
      }
      ghost var found := layout.FindMapping(sector, 0);
      for k := 0 to |layout.mappings|
        invariant Valid()
        invariant found.Some? ==> k <= found.value
      {
        var mapping := layout.mappings[k];
        var start := layout.StartSector(mapping.start);
        var end := start + mapping.count * SECTORS_PER_CLUSTER;
        if start <= sector < end {
          assert found == Some(k);
          var fd := Open(mapping.source);
          match fd {
            case Err(e) => return Err(e);
            case Ok(d) => return Ok(FromFile(d, (sector - start) * SECTOR_SIZE));
          }
        }
      }
      r := Ok(FromZero);
    }

    /** Writes a part of one sector into the destination. */
    method ReadPart(sector: int, within: nat, count: nat, destination: array<byte>, cursor: nat)
      returns (r: Result<(), MapError>)
      requires Valid() && 0 <= sector < layout.totalSectors
      requires within + count <= SECTOR_SIZE && cursor + count <= destination.Length
      modifies this, host, destination
      ensures Valid()
      ensures r.Ok? <==> Available(layout, host.files, sector)
      ensures r.Ok? ==>
        destination[..] == Patch(old(destination[..]), cursor,
          layout.SectorBytes(host.files, sector)[within..within + count])
      ensures r.Err? ==> Refused(layout, host.files, sector, r.error) && destination[..] == old(destination[..])
    {
      hide Layout.Resolve, Patch;
      var mapping := Map(sector);
      match mapping {
        case Err(e) => return Err(e);
        case Ok(FromMetadata(bytes)) =>
          CopyInto(destination, cursor, bytes[within..within + count]);
        case Ok(FromFile(fd, position)) =>
          FileOffset(layout, sector);
          var data := host.Pread(fd, count, position + within);
          ClipPadded(host.files[host.descriptors[fd]], position, within, count);
          ghost var before := destination[..];
          CopyInto(destination, cursor, data);
          CopyInto(destination, cursor + |data|, Zeros(count - |data|));
          PatchTwice(before, cursor, data, Zeros(count - |data|));
        case Ok(FromZero) =>
          CopyInto(destination, cursor, Zeros(count));
          ZerosSlice(within, count);
      }
      r := Ok(());
    }

    /** The loop of `Read`, sector by sector; stops at the first sector whose source cannot be opened. */
    method Fill(offset: nat, destination: array<byte>) returns (r: Result<(), MapError>)
      requires Valid() && offset + destination.Length <= layout.totalBytes
      modifies this, host, destination
      ensures Valid()
      ensures r.Ok? <==> Readable(layout, host.files, offset, destination.Length)
      ensures r.Ok? ==> destination[..] == layout.Image(host.files)[offset..offset + destination.Length]
      ensures r.Err? ==> Stopped(layout, host.files, offset, old(destination[..]), destination[..], r.error)
    {
      hide Layout.Resolve, Layout.SectorBytes, Layout.Image, Patch, Available, Readable, Valid, Answers,
        Layout.Servable, Refused, Stopped, SectorIndex, Within, Aligned, Progress;
      var length := destination.Length;
      WholeSectors();
      ReadableNothing(layout, host.files, offset);
      ghost var image := layout.Image(host.files);
      ghost var original := destination[..];
      NoProgress(image, offset, original);
      var cursor := 0;
      while cursor < length
        invariant 0 <= cursor <= length && Valid()
        invariant 0 < cursor < length ==> Aligned(offset + cursor)
        invariant Readable(layout, host.files, offset, cursor)
        invariant destination[..] == Progress(image, offset, original, cursor)
      {
        var absolute := offset + cursor;
        var sector := SectorIndex(absolute);
        var within := Within(absolute);
        ByteInSector(absolute, layout.totalSectors);
        var count := Min(length - cursor, SECTOR_SIZE - within);
        var part := ReadPart(sector, within, count, destination, cursor);
        ReadableStep(layout, host.files, offset, cursor, count, length);
        if part.Err? {
          StoppedHere(layout, host.files, offset, original, destination[..], cursor, part.error);
          return part;
        }
        ImagePart(layout, host.files, absolute, count);
        PatchGrows(image, offset, original, cursor, count);
        cursor := cursor + count;
      }
      r := Ok(());
    }

    /** Writes the bytes of the image from `offset` on into the destination. */
    method Read(offset: int, destination: array?<byte>) returns (r: Result<(), MapError>)
      requires Valid()
      modifies this, host, destination
      ensures Valid()
      ensures offset < 0 ==> r == Err(NegativeOffset)
      ensures offset >= 0 && destination == null ==> r == Err(NoDestination)
      ensures destination != null && offset >= 0 && offset + destination.Length > layout.totalBytes ==>
        r == Err(ReadExceedsImage)
      ensures destination != null && (offset < 0 || offset + destination.Length > layout.totalBytes) ==>
        destination[..] == old(destination[..])
      ensures destination != null && offset >= 0 && offset + destination.Length <= layout.totalBytes ==>
        && (r.Ok? <==> Readable(layout, host.files, offset, destination.Length))
        && (r.Ok? ==> destination[..] == layout.Image(host.files)[offset..offset + destination.Length])
        && (r.Err? ==> Stopped(layout, host.files, offset, old(destination[..]), destination[..], r.error))
    {
      hide Layout.Image, Readable, Valid, Stopped;
      if offset < 0 {
        return Err(NegativeOffset);
      }
      if destination == null {
        return Err(NoDestination);
      }
      if offset + destination.Length > layout.totalBytes {
        return Err(ReadExceedsImage);
      }
      r := Fill(offset, destination);
    }

    method ReadBytes(offset: int, length: nat) returns (r: Result<seq<byte>, MapError>)
      requires Valid()
      modifies this, host
      ensures Valid()
      ensures r.Ok? <==>
        0 <= offset && offset + length <= layout.totalBytes && Readable(layout, host.files, offset, length)
      ensures r.Ok? ==> r.value == layout.Image(host.files)[offset..offset + length]
    {
      hide Layout.Image, Readable, Stopped;
      var destination := new byte[length](_ => 0);
      var done := Read(offset, destination);
      match done {
        case Ok(_) => r := Ok(destination[..]);
        case Err(e) => r := Err(e);
      }
    }

    /** The inner loop: the end of the run of sectors of one kind that starts at `runStart`. */
    method RunEnd(runStart: nat, end: nat, zero: bool) returns (r: Result<nat, MapError>)
      requires Valid() && runStart < end <= layout.totalBytes && Aligned(runStart) && Aligned(end)
      requires Available(layout, host.files, SectorIndex(runStart))
      requires layout.Resolve(SectorIndex(runStart)).Zero? <==> zero
      modifies this, host
      ensures Valid()
      ensures r.Err? ==> !AllAvailable(layout, host.files, SectorIndex(runStart), SectorIndex(end))
      ensures r.Ok? ==> MaximalRun(layout, host.files, Extent(runStart, r.value - runStart, zero), end)
    {
      hide Layout.Resolve, Available, Uniform, AllAvailable, Answers, Valid, Aligned, SectorIndex;
      WholeSectors();
      NextSector(runStart, end, layout.totalSectors);
      NoneAvailable(layout, host.files, runStart);
      AvailableStep(layout, host.files, runStart, runStart, end);
      UniformOne(layout, runStart, zero);
      var cursor := runStart + SECTOR_SIZE;
      while cursor < end
        invariant runStart < cursor <= end && Aligned(cursor) && Valid()
        invariant AllAvailable(layout, host.files, SectorIndex(runStart), SectorIndex(cursor))
        invariant Uniform(layout, Extent(runStart, cursor - runStart, zero))
      {
        var next := Map(SectorIndex(cursor));
        NextSector(cursor, end, layout.totalSectors);
        AvailableStep(layout, host.files, runStart, cursor, end);
        if next.Err? {
          return Err(next.error);
        }
        if next.value.FromZero? != zero {
          break;
        }
        UniformStep(layout, runStart, cursor, zero);
        cursor := cursor + SECTOR_SIZE;
      }
      r := Ok(cursor);
    }

    /** The outer loop: one extent after the other. */
    method Scan(start: int, end: int) returns (r: Result<seq<Extent>, MapError>)
      requires Valid() && Aligned(start) && Aligned(end) && end <= layout.totalBytes
      modifies this, host
      ensures Valid()
      ensures ExtentsAnswer(layout, host.files, start, end, r)
    {
      hide *;
      WholeSectors();
      var result: seq<Extent> := [];
      var cursor := start;
      NothingScanned(layout, host.files, start, end);
      while cursor < end
        invariant start <= cursor && Valid()
        invariant ScannedTo(layout, host.files, result, start, cursor, end)
      {
        var first := Map(SectorIndex(cursor));
        MayMap(layout, host.files, result, start, cursor, end);
        if first.Err? {
          CannotScan(layout, host.files, start, end, first.error);
          return Err(first.error);
        }
        var zero := first.value.FromZero?;
        var runStart := cursor;
        var run := RunEnd(runStart, end, zero);
        if run.Err? {
          AvailableSplit(layout, host.files, start, runStart, end);
          CannotScan(layout, host.files, start, end, run.error);
          return Err(run.error);
        }
        cursor := run.value;
        AppendRun(layout, host.files, result, start, Extent(runStart, cursor - runStart, zero), end);
        result := result + [Extent(runStart, cursor - runStart, zero)];
      }
      r := Ok(result);
      AllScanned(layout, host.files, result, start, cursor, end);
    }

    /** The contiguous data and zero extents of a byte range. */
    method Extents(offset: int, count: int) returns (r: Result<seq<Extent>, MapError>)
      requires Valid()
      modifies this, host
      ensures Valid()
      ensures count <= 0 ==> r == Ok([])
      ensures count > 0 ==>
        ExtentsAnswer(layout, host.files, ExtentsStart(offset), ExtentsEnd(layout, offset, count), r)
      ensures count > 0 ==>
        (r.Ok? <==> offset >= layout.totalBytes || (offset >= 0 && BytesAvailable(layout, host.files, offset, count)))
      ensures r.Ok? ==> forall at ::
        offset <= at < offset + count && at < layout.totalBytes ==> InOneExtent(r.value, at)
      ensures r.Ok? ==> forall i :: 0 <= i < |r.value| ==>
        && offset - 512 < r.value[i].start && r.value[i].start + r.value[i].length < offset + count + 512
        && r.value[i].start + r.value[i].length <= layout.totalBytes
    {
      if count <= 0 {
        return Ok([]);
      }
      hide *;
      WholeSectors();
      RequestBounds(layout, offset, count);
      r := Scan(ExtentsStart(offset), ExtentsEnd(layout, offset, count));
      AnswersRequest(layout, host.files, offset, count, r);
    }

    /** The FAT sectors of all directories. */
    method DirectoryFatRanges() returns (fatRanges: seq<Range>)
      ensures fatRanges == FatRanges(layout, [Run(layout.rootCluster, 1)] + EntryRuns(layout.entries))
    {
      NoEntryRuns(layout.entries);
      hide EntryRuns, FatRanges;
      var fatStart := layout.partitionStart + layout.fatOffset;
      var runs := [];
      for k := 0 to |layout.entries|
        invariant runs == EntryRuns(layout.entries[..k])
      {
        var entry := layout.entries[k];
        EntryRunsStep(layout.entries, k);
        if entry.isDirectory && entry.count != 0 {
          runs := runs + [Run(entry.first, entry.count)];
        }
      }
      assert layout.entries[..|layout.entries|] == layout.entries;
      var directoryClusters := [Run(layout.rootCluster, 1)] + runs;
      fatRanges := [];
      for k := 0 to |directoryClusters|
        invariant fatRanges == FatRanges(layout, directoryClusters)[..k]
      {
        var firstSector := directoryClusters[k].start * 4 / SECTOR_SIZE;
        var lastByte := (directoryClusters[k].start + directoryClusters[k].count) * 4;
        var sectorCount := (lastByte + SECTOR_SIZE - 1) / SECTOR_SIZE - firstSector;
        FatRangesStep(layout, directoryClusters, k);
        fatRanges := fatRanges + [Range((fatStart + firstSector) * SECTOR_SIZE, sectorCount * SECTOR_SIZE)];
      }
    }

    /** The selected ranges, coalesced and split at the request limit. */
    method GetHotRanges(directoryMetadata: bool, fullFat: bool) returns (bounded: seq<Range>)
      ensures Bounded(bounded)
      ensures SameCover(bounded, Selected(layout, directoryMetadata, fullFat))
    {
      hide Bounded, SameCover, FatRanges, EntryRuns;
      var ranges := [];
      if directoryMetadata {
        var fatRanges := DirectoryFatRanges();
        var bitmapStart := layout.StartSector(layout.bitmapCluster);
        var bitmapSectors := (layout.bitmapLength + SECTOR_SIZE - 1) / SECTOR_SIZE;
        ranges := layout.hotRanges + fatRanges;
        ranges := ranges + [Range(bitmapStart * SECTOR_SIZE, bitmapSectors * SECTOR_SIZE)];
      }
      if fullFat {
        ranges := ranges + [Range((layout.partitionStart + layout.fatOffset) * SECTOR_SIZE,
          layout.fatLength * SECTOR_SIZE)];
      }
      assert ranges == Selected(layout, directoryMetadata, fullFat);
      bounded := BoundedRanges(ranges);
    }

    /** Whether every covered sector holds metadata. */
    method IsMetadataRegion(offset: int, length: int) returns (b: bool)
      requires Valid()
      ensures b == MetadataOnly(layout, offset, length)
      ensures b <==> forall at :: offset <= at < offset + length ==> layout.MetadataSector(SectorIndex(at)).Some?
    {
      MetadataOnlyIff(layout, offset, length);
      if length <= 0 {
        return true;
      }
      var first := offset / SECTOR_SIZE;
      var last := (offset + length - 1) / SECTOR_SIZE;
      for sector := first to last + 1
        invariant forall s :: first <= s < sector ==> layout.MetadataSector(s).Some?
      {
        var m := MetadataSector(sector);
        if m.None? {
          return false;
        }
      }
      b := true;
    }

    /** Reads a range that holds metadata only; no descriptor is needed for it. */
    method ReadMetadata(offset: int, destination: array<byte>) returns (r: Result<(), MapError>)
      requires Valid()
      modifies this, host, destination
      ensures Valid()
      ensures !MetadataOnly(layout, offset, destination.Length) ==> r == Err(NotMetadata)
      ensures MetadataOnly(layout, offset, destination.Length) ==>
        && (offset < 0 ==> r == Err(NegativeOffset))
        && (offset >= 0 && offset + destination.Length > layout.totalBytes ==> r == Err(ReadExceedsImage))
        && (offset >= 0 && offset + destination.Length <= layout.totalBytes ==>
              r.Ok? && destination[..] == layout.Image(host.files)[offset..offset + destination.Length])
      ensures r.Err? ==> destination[..] == old(destination[..])
    {
      hide Layout.Image;
      var only := IsMetadataRegion(offset, destination.Length);
      if !only {
        return Err(NotMetadata);
      }
      if offset >= 0 {
        MetadataReadable(layout, host.files, offset, destination.Length);
      }
      r := Read(offset, destination);
    }
  }

  /** Every sector that the byte range touches can be served. */
  predicate Readable(l: Layout, files: Sources, offset: int, length: int) {
    length <= 0 || AllAvailable(l, files, offset / SECTOR_SIZE, (offset + length - 1) / SECTOR_SIZE + 1)
  }

  lemma ReadableNothing(l: Layout, files: Sources, offset: int)
    ensures Readable(l, files, offset, 0)
  {
  }

  predicate MetadataOnly(l: Layout, offset: int, length: int) {
    length <= 0 ||
    forall s :: offset / SECTOR_SIZE <= s < (offset + length - 1) / SECTOR_SIZE + 1 ==> l.MetadataSector(s).Some?
  }

  /** The range touches the sectors of its bytes, and no others. */
  lemma TouchedSectors(p: int -> bool, offset: int, length: int)
    requires length > 0
    ensures (forall s :: offset / SECTOR_SIZE <= s < (offset + length - 1) / SECTOR_SIZE + 1 ==> p(s))
      <==> forall at :: offset <= at < offset + length ==> p(SectorIndex(at))
  {
    var first, end := offset / SECTOR_SIZE, (offset + length - 1) / SECTOR_SIZE + 1;
    if forall s :: first <= s < end ==> p(s) {
      forall at | offset <= at < offset + length ensures p(SectorIndex(at)) {
        assert first <= SectorIndex(at) < end;
      }
    }
    if forall at :: offset <= at < offset + length ==> p(SectorIndex(at)) {
      forall s | first <= s < end ensures p(s) {
        var at := Max(offset, SECTOR_SIZE * s);
        assert offset <= at < offset + length && SectorIndex(at) == s;
      }
    }
  }

  /** A range is readable when the sector of each of its bytes can be served, and only then. */
  lemma ReadableIff(l: Layout, files: Sources, offset: int, length: int)
    ensures Readable(l, files, offset, length)
      <==> forall at :: offset <= at < offset + length ==> Available(l, files, SectorIndex(at))
  {
    hide Available, SectorIndex;
    if length > 0 {
      var p := s => Available(l, files, s);
      TouchedSectors(p, offset, length);
      if Readable(l, files, offset, length) {
        forall at | offset <= at < offset + length ensures Available(l, files, SectorIndex(at)) {
          assert p(SectorIndex(at));
        }
      }
      if forall at :: offset <= at < offset + length ==> Available(l, files, SectorIndex(at)) {
        assert forall at :: offset <= at < offset + length ==> p(SectorIndex(at));
        forall s | offset / SECTOR_SIZE <= s < (offset + length - 1) / SECTOR_SIZE + 1 ensures Available(l, files, s) {
          assert p(s);
        }
      }
    }
  }

  /** A range holds metadata only when the sector of each of its bytes does, and only then. */
  lemma MetadataOnlyIff(l: Layout, offset: int, length: int)
    ensures MetadataOnly(l, offset, length)
      <==> forall at :: offset <= at < offset + length ==> l.MetadataSector(SectorIndex(at)).Some?
  {
    hide Layout.MetadataSector, SectorIndex;
    if length > 0 {
      var p := s => l.MetadataSector(s).Some?;
      TouchedSectors(p, offset, length);
      if MetadataOnly(l, offset, length) {
        forall at | offset <= at < offset + length ensures l.MetadataSector(SectorIndex(at)).Some? {
          assert p(SectorIndex(at));
        }
      }
      if forall at :: offset <= at < offset + length ==> l.MetadataSector(SectorIndex(at)).Some? {
        assert forall at :: offset <= at < offset + length ==> p(SectorIndex(at));
        forall s | offset / SECTOR_SIZE <= s < (offset + length - 1) / SECTOR_SIZE + 1
          ensures l.MetadataSector(s).Some?
        {
          assert p(s);
        }
      }
    }
  }

  lemma MetadataReadable(l: Layout, files: Sources, offset: int, length: int)
    requires MetadataOnly(l, offset, length)
    ensures Readable(l, files, offset, length)
  {
  }

  lemma FileOffset(l: Layout, sector: int)
    requires l.Resolve(sector).File?
    ensures l.Resolve(sector).offset >= 0
  {
  }

  lemma ClipPadded(content: seq<byte>, position: nat, within: nat, count: nat)
    requires within + count <= SECTOR_SIZE
    ensures var data := Clip(content, position + within, count);
      data + Zeros(count - |data|) == Padded(content, position)[within..within + count]
  {
  }

  lemma ZerosSlice(within: nat, count: nat)
    requires within + count <= SECTOR_SIZE
    ensures Zeros(SECTOR_SIZE)[within..within + count] == Zeros(count)
  {
  }

  lemma ImagePart(l: Layout, files: Sources, absolute: nat, count: nat)
    requires Within(absolute) + count <= SECTOR_SIZE && absolute + count <= l.totalBytes
    ensures var within := Within(absolute);
      l.Image(files)[absolute..absolute + count] == l.SectorBytes(files, SectorIndex(absolute))[within..within + count]
  {
    hide Layout.Image, Layout.SectorBytes;
    var within, sector := Within(absolute), SectorIndex(absolute);
    var part := l.Image(files)[absolute..absolute + count];
    forall k | 0 <= k < |part| ensures part[k] == l.SectorBytes(files, sector)[within..within + count][k] {
      ImageAt(l, files, sector, within + k);
      assert SECTOR_SIZE * sector + (within + k) == absolute + k;
    }
  }

  /** The destination once its first `cursor` bytes are written. */
  function Progress(image: seq<byte>, offset: nat, original: seq<byte>, cursor: nat): seq<byte>
    requires cursor <= |original| && offset + |original| <= |image|
  {
    image[offset..offset + cursor] + original[cursor..]
  }

  lemma PatchGrows(image: seq<byte>, offset: nat, original: seq<byte>, cursor: nat, count: nat)
    requires cursor + count <= |original| && offset + |original| <= |image|
    ensures Patch(Progress(image, offset, original, cursor), cursor, image[offset + cursor..offset + cursor + count])
      == Progress(image, offset, original, cursor + count)
  {
  }

  /** The source of the sector cannot be opened. */
  predicate Refused(l: Layout, files: Sources, sector: int, e: MapError) {
    match l.Resolve(sector)
    case File(source, _) => source !in files && e == SourceNotOpened(source)
    case _ => false
  }

  /** A read that raised has written the image up to the first sector whose source cannot be opened, and has left
      the rest of the destination alone. */
  ghost predicate Stopped(l: Layout, files: Sources, offset: nat, before: seq<byte>, after: seq<byte>, e: MapError) {
    exists done: nat :: StoppedAt(l, files, offset, before, after, e, done)
  }

  ghost predicate StoppedAt(l: Layout, files: Sources, offset: nat, before: seq<byte>, after: seq<byte>, e: MapError,
          done: nat)
  {
    && done < |before| && offset + |before| <= l.totalBytes && (done > 0 ==> Aligned(offset + done))
    && Readable(l, files, offset, done) && Refused(l, files, SectorIndex(offset + done), e)
    && after == Progress(l.Image(files), offset, before, done)
  }

  lemma StoppedHere(l: Layout, files: Sources, offset: nat, before: seq<byte>, after: seq<byte>, done: nat, e: MapError)
    requires done < |before| && offset + |before| <= l.totalBytes && (done > 0 ==> Aligned(offset + done))
    requires Readable(l, files, offset, done) && Refused(l, files, SectorIndex(offset + done), e)
    requires after == Progress(l.Image(files), offset, before, done)
    ensures Stopped(l, files, offset, before, after, e)
  {
    assert StoppedAt(l, files, offset, before, after, e, done);
  }

  lemma ByteInSector(at: int, totalSectors: int)
    requires 0 <= at < SECTOR_SIZE * totalSectors
    ensures 0 <= SectorIndex(at) < totalSectors && 0 <= Within(at) < SECTOR_SIZE
  {
  }

  lemma NoProgress(image: seq<byte>, offset: nat, original: seq<byte>)
    requires offset + |original| <= |image|
    ensures Progress(image, offset, original, 0) == original
    ensures Progress(image, offset, original, |original|) == image[offset..offset + |original|]
  {
  }

  /** One more part: the range stays readable exactly when the next sector is available. */
  lemma ReadableStep(l: Layout, files: Sources, offset: nat, cursor: nat, count: nat, length: nat)
    requires Readable(l, files, offset, cursor) && cursor < length
    requires cursor > 0 ==> Aligned(offset + cursor)
    requires count == Min(length - cursor, SECTOR_SIZE - Within(offset + cursor))
    ensures Available(l, files, SectorIndex(offset + cursor)) ==> Readable(l, files, offset, cursor + count)
    ensures !Available(l, files, SectorIndex(offset + cursor)) ==> !Readable(l, files, offset, length)
    ensures cursor + count < length ==> Aligned(offset + (cursor + count))
  {
    hide Available;
    var sector := (offset + cursor) / SECTOR_SIZE;
    assert (offset + cursor + count - 1) / SECTOR_SIZE == sector;
    assert cursor > 0 ==> (offset + cursor - 1) / SECTOR_SIZE == sector - 1;
    assert offset / SECTOR_SIZE <= sector <= (offset + length - 1) / SECTOR_SIZE;
  }

  /** The byte lies in exactly one of the extents. */
  predicate InOneExtent(extents: seq<Extent>, at: int) {
    exists i :: 0 <= i < |extents| && extents[i].Has(at) &&
      forall j :: 0 <= j < |extents| && extents[j].Has(at) ==> j == i
  }

  /** The sectors of all bytes of the range that lie in the image can be served. */
  ghost predicate BytesAvailable(l: Layout, files: Sources, offset: int, count: int) {
    forall at :: offset <= at < offset + count && at < l.totalBytes ==> Available(l, files, SectorIndex(at))
  }

  /** The rounded range holds the requested bytes of the image, and less than a sector on each side. */
  lemma RequestRounded(l: Layout, offset: int, count: int)
    requires l.Servable() && count > 0
    ensures offset - 512 < ExtentsStart(offset) <= offset
    ensures ExtentsEnd(l, offset, count) < offset + count + 512
    ensures Min(l.totalBytes, offset + count) <= ExtentsEnd(l, offset, count) <= l.totalBytes
    ensures ExtentsStart(offset) >= ExtentsEnd(l, offset, count) <==> offset >= l.totalBytes
    ensures ExtentsStart(offset) >= 0 <==> offset >= 0
  {
    RequestBounds(l, offset, count);
  }

  /** The sectors of the rounded range are those of the requested bytes. */
  lemma SectorsOfRequest(l: Layout, files: Sources, offset: int, count: int)
    requires l.Servable() && count > 0 && 0 <= offset < l.totalBytes
    ensures AllAvailable(l, files, SectorIndex(ExtentsStart(offset)), SectorIndex(ExtentsEnd(l, offset, count)))
      <==> BytesAvailable(l, files, offset, count)
  {
    hide Available;
    var first, end := SectorIndex(ExtentsStart(offset)), SectorIndex(ExtentsEnd(l, offset, count));
    RequestRounded(l, offset, count);
    RequestBounds(l, offset, count);
    if AllAvailable(l, files, first, end) {
      forall at | offset <= at < offset + count && at < l.totalBytes ensures Available(l, files, SectorIndex(at)) {
        assert first <= SectorIndex(at) < end;
      }
    }
    if BytesAvailable(l, files, offset, count) {
      forall sector | first <= sector < end ensures Available(l, files, sector) {
        var at := Max(offset, SECTOR_SIZE * sector);
        ByteOfSector(l, offset, count, sector);
        assert Available(l, files, SectorIndex(at));
      }
    }
  }

  /** Each sector of the rounded range has a requested byte. */
  lemma ByteOfSector(l: Layout, offset: int, count: int, sector: int)
    requires l.Servable() && count > 0 && 0 <= offset < l.totalBytes
    requires SectorIndex(ExtentsStart(offset)) <= sector < SectorIndex(ExtentsEnd(l, offset, count))
    ensures var at := Max(offset, SECTOR_SIZE * sector);
      offset <= at < offset + count && at < l.totalBytes && SectorIndex(at) == sector
  {
    RequestRounded(l, offset, count);
    var end := ExtentsEnd(l, offset, count);
    RequestBounds(l, offset, count);
    assert SECTOR_SIZE * sector + SECTOR_SIZE <= end;
  }

  lemma TileInit(extents: seq<Extent>, start: int, end: int)
    requires ExtentsTile(extents, start, end) && extents != []
    ensures var last := extents[|extents| - 1];
      ExtentsTile(extents[..|extents| - 1], start, last.start) && last.start + last.length == end
  {
  }

  lemma {:induction false} TileFinds(extents: seq<Extent>, start: int, end: int, at: int) returns (i: nat)
    requires ExtentsTile(extents, start, end) && start <= at < end
    ensures i < |extents| && extents[i].Has(at)
    decreases |extents|
  {
    var last := |extents| - 1;
    TileInit(extents, start, end);
    hide ExtentsTile;
    if extents[last].start <= at {
      i := last;
    } else {
      i := TileFinds(extents[..last], start, extents[last].start, at);
    }
  }

  lemma TileHolds(extents: seq<Extent>, start: int, end: int, at: int)
    requires ExtentsTile(extents, start, end) && start <= at < end
    ensures InOneExtent(extents, at)
  {
    hide ExtentsTile;
    TileBounds(extents, start, end);
    var i := TileFinds(extents, start, end, at);
    forall j | 0 <= j < |extents| && extents[j].Has(at) ensures j == i {
    }
  }

  /** The extents of a tiling are in order and within its ends. */
  lemma {:induction false} TileBounds(extents: seq<Extent>, start: int, end: int)
    requires ExtentsTile(extents, start, end)
    ensures forall i :: 0 <= i < |extents| ==>
      start <= extents[i].start && extents[i].start + extents[i].length <= end
    ensures forall i, j :: 0 <= i < j < |extents| ==> extents[i].start + extents[i].length <= extents[j].start
    decreases |extents|
  {
    if |extents| > 1 {
      var last := |extents| - 1;
      assert ExtentsTile(extents[..last], start, extents[last].start);
      TileBounds(extents[..last], start, extents[last].start);
      assert forall i :: 0 <= i < last ==> extents[..last][i] == extents[i];
    }
  }

  /** What the answer for the rounded range says about the request itself. */
  lemma AnswersRequest(l: Layout, files: Sources, offset: int, count: int, r: Result<seq<Extent>, MapError>)
    requires l.Servable() && count > 0
    requires ExtentsAnswer(l, files, ExtentsStart(offset), ExtentsEnd(l, offset, count), r)
    ensures r.Ok? <==> offset >= l.totalBytes || (offset >= 0 && BytesAvailable(l, files, offset, count))
    ensures r.Ok? ==> forall at :: offset <= at < offset + count && at < l.totalBytes ==> InOneExtent(r.value, at)
    ensures r.Ok? ==> forall i :: 0 <= i < |r.value| ==>
      && offset - 512 < r.value[i].start && r.value[i].start + r.value[i].length < offset + count + 512
      && r.value[i].start + r.value[i].length <= l.totalBytes
  {
    hide AllAvailable, BytesAvailable, ExtentsStart, ExtentsEnd, Uniform, InOneExtent, SectorIndex, ExtentsTile;
    var start, end := ExtentsStart(offset), ExtentsEnd(l, offset, count);
    RequestRounded(l, offset, count);
    if 0 <= offset < l.totalBytes {
      SectorsOfRequest(l, files, offset, count);
    }
    if r.Ok? {
      TileBounds(r.value, start, end);
      forall at | offset <= at < offset + count && at < l.totalBytes ensures InOneExtent(r.value, at) {
        TileHolds(r.value, start, end, at);
      }
    }
  }

  lemma RequestBounds(l: Layout, offset: int, count: int)
    requires l.Servable()
    ensures Aligned(ExtentsStart(offset)) && Aligned(ExtentsEnd(l, offset, count))
    ensures ExtentsEnd(l, offset, count) <= l.totalBytes
  {
  }

  lemma NoneAvailable(l: Layout, files: Sources, start: int)
    ensures AllAvailable(l, files, SectorIndex(start), SectorIndex(start))
  {
  }

  /** Between aligned bounds there is a whole sector of the image. */
  lemma NextSector(cursor: int, end: int, totalSectors: int)
    requires 0 <= cursor < end <= SECTOR_SIZE * totalSectors && Aligned(cursor) && Aligned(end)
    ensures Aligned(cursor + SECTOR_SIZE) && cursor + SECTOR_SIZE <= end
    ensures 0 <= SectorIndex(cursor) < totalSectors
  {
    var a, b := SectorIndex(cursor), SectorIndex(end);
    hide SectorIndex, Aligned;
    AlignedTo(cursor);
    AlignedTo(end);
    assert a < b <= totalSectors;
    SectorStart(a + 1);
  }

  lemma AlignedTo(at: int)
    requires Aligned(at)
    ensures at == SECTOR_SIZE * SectorIndex(at)
  {
  }

  lemma SectorStart(sector: int)
    ensures Aligned(SECTOR_SIZE * sector)
  {
  }

  /** A run of available sectors of one kind that cannot be extended before `end`. */
  ghost predicate MaximalRun(l: Layout, files: Sources, e: Extent, end: int) {
    && e.length > 0 && e.start + e.length <= end && Uniform(l, e)
    && AllAvailable(l, files, SectorIndex(e.start), SectorIndex(e.start + e.length))
    && (e.start + e.length < end ==> l.Resolve(SectorIndex(e.start + e.length)).Zero? != e.zero)
  }

  /** The invariant of the outer loop: the extents are right up to the cursor, and the sector at the cursor
      is of another kind than the last extent. */
  ghost predicate ScannedTo(l: Layout, files: Sources, extents: seq<Extent>, start: int, cursor: int, end: int) {
    && cursor <= Max(start, end) <= Max(start, l.totalBytes)
    && Aligned(start) && Aligned(cursor) && Aligned(end)
    && (cursor > start ==> start >= 0)
    && (start >= end ==> extents == [])
    && AllAvailable(l, files, SectorIndex(start), SectorIndex(cursor))
    && ExtentsOf(l, extents, start, cursor)
    && (extents != [] && cursor < end ==> extents[|extents| - 1].zero != l.Resolve(SectorIndex(cursor)).Zero?)
  }

  lemma NothingScanned(l: Layout, files: Sources, start: int, end: int)
    requires Aligned(start) && Aligned(end) && end <= l.totalBytes
    ensures ScannedTo(l, files, [], start, start, end)
  {
    hide Available, Layout.Resolve;
  }

  lemma MayMap(l: Layout, files: Sources, extents: seq<Extent>, start: int, cursor: int, end: int)
    requires ScannedTo(l, files, extents, start, cursor, end) && start <= cursor < end && l.Servable()
    ensures end <= l.totalBytes && Aligned(cursor) && Aligned(end)
    ensures 0 <= SectorIndex(cursor) < l.totalSectors <==> start >= 0
    ensures start >= 0 && !Available(l, files, SectorIndex(cursor)) ==>
      !AllAvailable(l, files, SectorIndex(start), SectorIndex(end))
  {
    hide ExtentsOf, Layout.Resolve, Available;
    AvailableStep(l, files, start, cursor, end);
  }

  lemma AllScanned(l: Layout, files: Sources, extents: seq<Extent>, start: int, cursor: int, end: int)
    requires ScannedTo(l, files, extents, start, cursor, end) && start <= cursor && end <= cursor
    ensures ExtentsAnswer(l, files, start, end, Ok(extents))
  {
    hide Available, Layout.Resolve, Uniform;
  }

  lemma CannotScan(l: Layout, files: Sources, start: int, end: int, e: MapError)
    requires start < end && (start < 0 || !AllAvailable(l, files, SectorIndex(start), SectorIndex(end)))
    ensures ExtentsAnswer(l, files, start, end, Err(e))
  {
    hide AllAvailable;
  }

  lemma AvailableSplit(l: Layout, files: Sources, start: int, mid: int, end: int)
    requires start <= mid <= end
    ensures AllAvailable(l, files, SectorIndex(start), SectorIndex(end)) ==>
      AllAvailable(l, files, SectorIndex(mid), SectorIndex(end))
  {
    hide Available;
  }

  lemma AvailableStep(l: Layout, files: Sources, start: int, cursor: int, end: int)
    requires start <= cursor < end && Aligned(cursor) && Aligned(end)
    requires AllAvailable(l, files, SectorIndex(start), SectorIndex(cursor))
    ensures Available(l, files, SectorIndex(cursor)) ==>
      AllAvailable(l, files, SectorIndex(start), SectorIndex(cursor + SECTOR_SIZE))
    ensures !Available(l, files, SectorIndex(cursor)) ==>
      !AllAvailable(l, files, SectorIndex(start), SectorIndex(end))
  {
    hide Available;
    assert SectorIndex(start) <= SectorIndex(cursor) < SectorIndex(end);
  }

  lemma UniformOne(l: Layout, start: int, zero: bool)
    requires Aligned(start) && (l.Resolve(SectorIndex(start)).Zero? <==> zero)
    ensures Uniform(l, Extent(start, SECTOR_SIZE, zero))
  {
    hide Layout.Resolve;
    forall sector | start <= SECTOR_SIZE * sector < start + SECTOR_SIZE ensures l.Resolve(sector).Zero? <==> zero {
      assert sector == SectorIndex(start);
    }
  }

  lemma UniformStep(l: Layout, start: int, cursor: int, zero: bool)
    requires start < cursor && Aligned(cursor) && (l.Resolve(SectorIndex(cursor)).Zero? <==> zero)
    requires Uniform(l, Extent(start, cursor - start, zero))
    ensures Uniform(l, Extent(start, cursor + SECTOR_SIZE - start, zero))
  {
    hide Layout.Resolve;
    forall sector | start <= SECTOR_SIZE * sector < cursor + SECTOR_SIZE
      ensures l.Resolve(sector).Zero? <==> zero
    {
      if SECTOR_SIZE * sector >= cursor {
        assert sector == SectorIndex(cursor);
      }
    }
  }

  lemma AppendRun(l: Layout, files: Sources, extents: seq<Extent>, start: int, e: Extent, end: int)
    requires ScannedTo(l, files, extents, start, e.start, end) && MaximalRun(l, files, e, end)
    requires 0 <= start <= e.start && (l.Resolve(SectorIndex(e.start)).Zero? <==> e.zero)
    ensures ScannedTo(l, files, extents + [e], start, e.start + e.length, end)
    ensures e.length > 0
  {
    hide Layout.Resolve, Available, AllAvailable, SectorIndex, Aligned, Uniform;
    AvailableJoin(l, files, start, e.start, e.start + e.length);
    RunAligned(l, e);
    AppendExtent(l, extents, start, e);
  }

  lemma AppendExtent(l: Layout, extents: seq<Extent>, start: int, e: Extent)
    requires ExtentsOf(l, extents, start, e.start) && Uniform(l, e) && e.length > 0 && start <= e.start
    requires extents != [] ==> extents[|extents| - 1].zero != e.zero
    ensures ExtentsOf(l, extents + [e], start, e.start + e.length)
  {
    hide Uniform;
  }

  lemma AvailableJoin(l: Layout, files: Sources, start: int, mid: int, end: int)
    requires AllAvailable(l, files, SectorIndex(start), SectorIndex(mid))
    requires AllAvailable(l, files, SectorIndex(mid), SectorIndex(end))
    ensures AllAvailable(l, files, SectorIndex(start), SectorIndex(end))
  {
    hide Available, SectorIndex;
  }

  lemma RunAligned(l: Layout, e: Extent)
    requires Uniform(l, e)
    ensures Aligned(e.start) && Aligned(e.start + e.length)
  {
  }
}
