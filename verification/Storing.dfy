/** The dictionary of metadata sectors, and the methods that write into it. */
module Storing {
  import opened Boot
  import opened Bytes
  import opened Consts
  import opened Layouts
  import opened Plan
  import opened Sets

  lemma StoredAppend(puts: seq<Put>, p: Put)
    ensures Stored(puts + [p]) == Stored(puts) + WriteOf(p)
  {
    assert (puts + [p])[..|puts|] == puts;
  }

  lemma SectorCut(data: seq<byte>, i: nat)
    ensures var from, end := Min(SECTOR_SIZE * i, |data|), Min(SECTOR_SIZE * (i + 1), |data|);
      SectorOf(data, i) == data[from..end] + Zeros(SECTOR_SIZE - (end - from))
  {
  }

  /** What `count` sectors of `data`, written from `start` on, make of a dictionary. */
  ghost predicate Written(after: map<int, Sector>, before: map<int, Sector>, start: int, data: seq<byte>, count: int) {
    && (forall s :: s in after <==> s in before || start <= s < start + count)
    && (forall s :: s in after ==>
          after[s] == if start <= s < start + count then SectorOf(data, s - start) else before[s])
  }

  lemma WrittenIsPut(after: map<int, Sector>, before: map<int, Sector>, p: Put)
    requires Written(after, before, p.start, p.data, p.Sectors())
    ensures after == before + WriteOf(p)
  {
    hide SectorOf, Put.Sectors;
    MapsEqual(after, before + WriteOf(p));
  }

  /** Padding with zeros to whole sectors changes neither the sectors nor their number. */
  lemma PaddedPut(data: seq<byte>, start: int)
    ensures var p := Put(start, data);
      var padded := data + Zeros(SECTOR_SIZE * p.Sectors() - |data|);
      && CeilDiv(|padded|, SECTOR_SIZE) == p.Sectors()
      && forall i :: SectorOf(padded, i) == SectorOf(data, i)
  {
  }

  // Boot regions.

  lemma BootChecks()
    ensures Pow256(2) == 0x1_0000 && Pow256(4) == 0x1_0000_0000 && Pow256(8) == 0x1_0000_0000_0000_0000
  {
    PowersOf256();
  }

  /** The eleven boot sectors, field by field. */
  method BootSectors(v: Volume, serial: u32) returns (boot: seq<byte>)
    requires FitsFields(v)
    ensures boot == BootBytes(v, serial)
  {
    BootChecks();
    var data := new byte[BOOT_BYTES](_ => 0);
    assert data[..] == Zeros(BOOT_BYTES);
    hide Le, Patch, Pow256;
    CopyInto(data, 0, JUMP_AND_NAME);
    CopyInto(data, 11, Zeros(53));
    Pack(data, 64, PARTITION_START, 8);
    Pack(data, 72, v.totalSectors - PARTITION_START, 8);
    Pack(data, 80, v.fatOffset, 4);
    Pack(data, 84, v.fatLength, 4);
    Pack(data, 88, v.heapOffset, 4);
    Pack(data, 92, v.clusterCount, 4);
    Pack(data, 96, v.rootCluster, 4);
    Pack(data, 100, serial, 4);
    Pack(data, 104, 0x0100, 2);
    Pack(data, 106, 0, 2);
    CopyInto(data, 108, SHIFTS);
    CopyInto(data, 510, [0x55, 0xAA]);
    boot := data[..];
  }

  /** The packed checksum, 128 times. */
  method RepeatChecksum(sum: nat) returns (s: seq<byte>)
    ensures s == ChecksumSector(sum)
  {
    hide Le;
    s := [];
    for k := 0 to 128
      invariant s == ChecksumSector(sum)[..4 * k]
    {
      s := s + Le(sum, 4);
    }
    assert ChecksumSector(sum)[..SECTOR_SIZE] == ChecksumSector(sum);
  }

  method BootRegionBytes(v: Volume, serial: u32) returns (region: seq<byte>)
    requires FitsFields(v)
    ensures region == BootRegion(v, serial)
  {
    hide BootBytes, Checksum, ChecksumSector;
    var boot := BootSectors(v, serial);
    var checksum := ComputeChecksum(boot, BOOT_SKIP, BOOT_MODULUS);
    var checksumSector := RepeatChecksum(checksum);
    region := boot + checksumSector;
  }

  /** The sector belongs to the first `count` sectors of one of the two places. */
  predicate Rewritten(s: int, count: int) {
    0 <= s < count || BOOT_SECTORS <= s < BOOT_SECTORS + count
  }

  /** The sector of the region that belongs there. */
  function RegionIndex(s: int): int {
    if s < BOOT_SECTORS then s else s - BOOT_SECTORS
  }

  /** The first `count` sectors of the region, in both of its places. */
  ghost predicate BothWritten(after: map<int, Sector>, before: map<int, Sector>, region: seq<byte>, count: int) {
    && (forall s :: s in after <==> s in before || Rewritten(s, count))
    && (forall s :: s in after && Rewritten(s, count) ==> after[s] == SectorOf(region, RegionIndex(s)))
    && (forall s :: s in after && !Rewritten(s, count) ==> after[s] == before[s])
  }

  lemma BothAreWrites(after: map<int, Sector>, before: map<int, Sector>, region: seq<byte>)
    requires |region| == REGION_BYTES && BothWritten(after, before, region, BOOT_SECTORS)
    ensures after == before + WriteOf(Put(PARTITION_START, region)) +
      WriteOf(Put(PARTITION_START + BOOT_SECTORS, region))
  {
    hide SectorOf;
    var a, b := Put(PARTITION_START, region), Put(PARTITION_START + BOOT_SECTORS, region);
    assert a.Sectors() == BOOT_SECTORS && b.Sectors() == BOOT_SECTORS;
    hide Put.Sectors;
    forall s: int
      ensures s in WriteOf(a) <==> 0 <= s < BOOT_SECTORS
      ensures s in WriteOf(b) <==> BOOT_SECTORS <= s < 2 * BOOT_SECTORS
      ensures s in WriteOf(a) ==> WriteOf(a)[s] == SectorOf(region, RegionIndex(s))
      ensures s in WriteOf(b) ==> WriteOf(b)[s] == SectorOf(region, RegionIndex(s))
    {
      assert a.Covers(s) <==> 0 <= s < BOOT_SECTORS;
      assert b.Covers(s) <==> BOOT_SECTORS <= s < 2 * BOOT_SECTORS;
    }
    MapsEqual(after, before + WriteOf(a) + WriteOf(b));
  }

  lemma BothStep(after: map<int, Sector>, before: map<int, Sector>, region: seq<byte>, index: nat)
    requires |region| == REGION_BYTES && index < BOOT_SECTORS && BothWritten(after, before, region, index)
    ensures BothWritten(after[index := SectorOf(region, index)][BOOT_SECTORS + index := SectorOf(region, index)],
                        before, region, index + 1)
  {
    hide SectorOf;
    var next := after[index := SectorOf(region, index)][BOOT_SECTORS + index := SectorOf(region, index)];
    forall s: int
      ensures s in next <==> s in after || s == index || s == BOOT_SECTORS + index
      ensures s in next ==>
        next[s] == if s == index || s == BOOT_SECTORS + index then SectorOf(region, index) else after[s]
      ensures Rewritten(s, index + 1) <==> Rewritten(s, index) || s == index || s == BOOT_SECTORS + index
    {
      UpdateTwice(after, index, BOOT_SECTORS + index, SectorOf(region, index), s);
    }
  }

  lemma RegionSector(region: seq<byte>, index: nat)
    requires |region| == REGION_BYTES && index < BOOT_SECTORS
    ensures SectorOf(region, index) == region[index * SECTOR_SIZE..(index + 1) * SECTOR_SIZE]
  {
  }

  class MetadataStore {
    var sectors: map<int, Sector>

    constructor ()
      ensures sectors == map[]
    {
      sectors := map[];
    }

    method PutSectors(start: int, data: seq<byte>, count: nat)
      modifies this
      ensures Written(sectors, old(sectors), start, data, count)
    {
      hide SectorOf;
      for index := 0 to count
        invariant Written(sectors, old(sectors), start, data, index)
      {
        var from, end := Min(SECTOR_SIZE * index, |data|), Min(SECTOR_SIZE * (index + 1), |data|);
        SectorCut(data, index);
        sectors := sectors[start + index := data[from..end] + Zeros(SECTOR_SIZE - (end - from))];
      }
    }

    method PutClusterBytes(heapOffset: int, cluster: int, data: seq<byte>)
      modifies this
      ensures sectors == old(sectors) +
        WriteOf(Put(PARTITION_START + heapOffset + (cluster - 2) * SECTORS_PER_CLUSTER, data))
    {
      hide SectorOf, Stored, WriteOf;
      var start := PARTITION_START + heapOffset + (cluster - 2) * SECTORS_PER_CLUSTER;
      var padded := data + Zeros(Max(SECTOR_SIZE, CeilDiv(|data|, SECTOR_SIZE) * SECTOR_SIZE) - |data|);
      PaddedPut(data, start);
      PutSectors(start, padded, CeilDiv(|padded|, SECTOR_SIZE));
      WrittenIsPut(sectors, old(sectors), Put(start, data));
    }

    /** Writes the boot region and its backup, sector by sector. */
    method PutBootRegions(v: Volume, serial: u32)
      requires FitsFields(v)
      modifies this
      ensures var region := BootRegion(v, serial);
        sectors == old(sectors) + WriteOf(Put(PARTITION_START, region)) +
          WriteOf(Put(PARTITION_START + BOOT_SECTORS, region))
    {
      hide SectorOf, BootRegion, WriteOf;
      var region := BootRegionBytes(v, serial);
      var primary := PARTITION_START;
      var backup := PARTITION_START + BOOT_SECTORS;
      for index := 0 to BOOT_SECTORS
        invariant BothWritten(sectors, old(sectors), region, index)
      {
        RegionSector(region, index);
        BothStep(sectors, old(sectors), region, index);
        sectors := sectors[primary + index := region[index * SECTOR_SIZE..(index + 1) * SECTOR_SIZE]];
        sectors := sectors[backup + index := region[index * SECTOR_SIZE..(index + 1) * SECTOR_SIZE]];
      }
      BothAreWrites(sectors, old(sectors), region);
    }
  }
}
