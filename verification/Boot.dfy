/** The boot regions (sections 3.1 and 3.4 of the exFAT specification): printing, reading, and their round trip. */
module Boot {
  import opened Bits
  import opened Bytes
  import opened Consts
  import opened Wrappers

  const BOOT_BYTES: int := 11 * SECTOR_SIZE
  const REGION_BYTES: int := BOOT_SECTORS * SECTOR_SIZE
  const BOOT_SKIP: set<nat> := {106, 107, 112}
  const BOOT_MODULUS: nat := 0x1_0000_0000
  const JUMP_AND_NAME: seq<byte> := [0xEB, 0x76, 0x90, 0x45, 0x58, 0x46, 0x41, 0x54, 0x20, 0x20, 0x20]
  const SHIFTS: seq<byte> := [9, 8, 1, 0x80, 0xFF]

  /** The geometry that the boot sector announces. */
  datatype Volume = Volume(
    totalSectors: nat,
    fatOffset: nat,
    fatLength: nat,
    heapOffset: nat,
    clusterCount: nat,
    rootCluster: nat,
    sectorShift: nat,
    clusterShift: nat)
  {
    /** Bytes of a sector. */
    function SectorSize(): (n: nat)
      ensures n > 0
    {
      Pow2(sectorShift)
    }

    /** Bytes of a cluster. */
    function ClusterSize(): (n: nat)
      ensures n > 0
    {
      Product(Pow2(sectorShift), Pow2(clusterShift));
      Pow2(sectorShift) * Pow2(clusterShift)
    }
  }

  lemma Product(a: nat, b: nat)
    requires a > 0 && b > 0
    ensures a * b > 0
  {
  }

  predicate FitsFields(v: Volume) {
    && v.totalSectors < 0x1_0000_0000_0000_0000
    && v.fatOffset < 0x1_0000_0000
    && v.fatLength < 0x1_0000_0000
    && v.heapOffset < 0x1_0000_0000
    && v.clusterCount < 0x1_0000_0000
    && v.rootCluster < 0x1_0000_0000
    && v.sectorShift == SHIFTS[0] as int && v.clusterShift == SHIFTS[1] as int
  }

  /** The eleven sectors that the checksum covers, in the order in which the builder packs them. */
  function BootBytes(v: Volume, serial: u32): (s: seq<byte>)
    ensures |s| == BOOT_BYTES
  {
    var s := Patch(Zeros(BOOT_BYTES), 0, JUMP_AND_NAME);
    var s := Patch(s, 11, Zeros(53));
    var s := Patch(s, 64, Le(PARTITION_START, 8));
    var s := Patch(s, 72, Le(v.totalSectors - PARTITION_START, 8));
    var s := Patch(s, 80, Le(v.fatOffset, 4));
    var s := Patch(s, 84, Le(v.fatLength, 4));
    var s := Patch(s, 88, Le(v.heapOffset, 4));
    var s := Patch(s, 92, Le(v.clusterCount, 4));
    var s := Patch(s, 96, Le(v.rootCluster, 4));
    var s := Patch(s, 100, Le(serial, 4));
    var s := Patch(s, 104, Le(0x0100, 2));
    var s := Patch(s, 106, Le(0, 2));
    var s := Patch(s, 108, SHIFTS);
    Patch(s, 510, [0x55, 0xAA])
  }

  function BootChecksum(boot: seq<byte>): nat {
    Checksum(boot, BOOT_SKIP, BOOT_MODULUS)
  }

  /** Sector 11: the checksum, repeated. */
  function ChecksumSector(sum: nat): (s: seq<byte>)
    ensures |s| == SECTOR_SIZE
  {
    seq(SECTOR_SIZE, k requires 0 <= k => Le(sum, 4)[k % 4])
  }

  function BootRegion(v: Volume, serial: u32): (s: seq<byte>)
    ensures |s| == REGION_BYTES
  {
    var boot := BootBytes(v, serial);
    boot + ChecksumSector(BootChecksum(boot))
  }

  // Reading (section 3.1 of the exFAT specification), with nothing taken from the printing above.

  /** The last sector of a region repeats the checksum of the eleven sectors before it; three bytes are left out. */
  predicate ChecksumVerifies(region: seq<byte>, sectorBytes: nat)
    requires |region| == 12 * sectorBytes
  {
    var sum := Checksum(region[..11 * sectorBytes], {106, 107, 112}, 0x1_0000_0000);
    forall k :: 0 <= k < sectorBytes / 4 ==> NumberAt(region, 11 * sectorBytes + 4 * k, 4) == sum
  }

  /** Jump, name and signature of a boot sector, zeros where an older file system has its fields, revision 1.00, sectors
      of 512 to 4096 bytes, clusters of at most 32 MiB, and one FAT. */
  predicate Signed(sector: seq<byte>)
    requires |sector| >= 512
  {
    && sector[..11] == [0xEB, 0x76, 0x90, 0x45, 0x58, 0x46, 0x41, 0x54, 0x20, 0x20, 0x20]
    && (forall k :: 11 <= k < 64 ==> sector[k] == 0)
    && NumberAt(sector, 104, 2) == 0x0100
    && 9 <= sector[108] <= 12 && sector[108] as int + sector[109] as int <= 25
    && sector[110] == 1
    && sector[510..512] == [0x55, 0xAA]
  }

  function Fields(sector: seq<byte>): Volume
    requires |sector| >= 512
  {
    Volume(
      NumberAt(sector, 72, 8),
      NumberAt(sector, 80, 4),
      NumberAt(sector, 84, 4),
      NumberAt(sector, 88, 4),
      NumberAt(sector, 92, 4),
      NumberAt(sector, 96, 4),
      sector[108],
      sector[109])
  }

  /** The announced regions are in order and inside an image of `bytes` bytes. */
  predicate Plausible(v: Volume, bytes: nat) {
    && v.SectorSize() * v.totalSectors <= bytes
    && v.fatOffset + v.fatLength <= v.heapOffset
    && v.SectorSize() * v.heapOffset + v.ClusterSize() * v.clusterCount <= v.SectorSize() * v.totalSectors
  }

  /** Reads the main boot region after comparing it with the backup. */
  function ReadVolume(image: seq<byte>): (r: Option<Volume>)
    ensures r.Some? ==> Plausible(r.value, |image|)
  {
    if |image| < 512 then None
    else
      var v := Fields(image);
      var n := v.SectorSize();
      if |image| >= 24 * n && image[..12 * n] == image[12 * n..24 * n]
         && Signed(image) && ChecksumVerifies(image[..12 * n], n) && Plausible(v, |image|)
      then Some(v)
      else None
  }

  // Round trip.

  lemma BootFields(v: Volume, serial: u32)
    ensures var s := BootBytes(v, serial);
      && s[..11] == JUMP_AND_NAME
      && (forall k :: 11 <= k < 64 ==> s[k] == 0)
      && s[72..80] == Le(v.totalSectors - PARTITION_START, 8)
      && s[80..84] == Le(v.fatOffset, 4)
      && s[84..88] == Le(v.fatLength, 4)
      && s[88..92] == Le(v.heapOffset, 4)
      && s[92..96] == Le(v.clusterCount, 4)
      && s[96..100] == Le(v.rootCluster, 4)
      && s[104..106] == Le(0x0100, 2)
      && s[108..113] == SHIFTS
      && s[510..512] == [0x55, 0xAA]
  {
    hide Le, Patch;
  }

  lemma BootRest(v: Volume, serial: u32)
    ensures var s := BootBytes(v, serial);
      && s[64..72] == Le(PARTITION_START, 8)
      && s[100..104] == Le(serial, 4)
      && s[106..108] == Le(0, 2)
      && (forall k :: 113 <= k < 510 ==> s[k] == 0)
  {
    hide Le, Patch;
  }

  lemma RegionFields(v: Volume, serial: u32)
    requires FitsFields(v)
    ensures Fields(BootRegion(v, serial)) == v
    ensures Signed(BootRegion(v, serial))
  {
    var region := BootRegion(v, serial);
    var boot := BootBytes(v, serial);
    BootFields(v, serial);
    PowersOf256();
    hide BootBytes, Le, Patch, ChecksumSector, NumberAt;
    assert forall a, b :: 0 <= a <= b <= BOOT_BYTES ==> region[a..b] == boot[a..b];
    NumberAtLe(region, 72, 8, v.totalSectors);
    NumberAtLe(region, 80, 4, v.fatOffset);
    NumberAtLe(region, 84, 4, v.fatLength);
    NumberAtLe(region, 88, 4, v.heapOffset);
    NumberAtLe(region, 92, 4, v.clusterCount);
    NumberAtLe(region, 96, 4, v.rootCluster);
    NumberAtLe(region, 104, 2, 0x0100);
    assert region[108] == region[108..113][0] && region[109] == region[108..113][1];
    assert region[110] == region[108..113][2];
  }

  lemma RepeatedSum(sum: nat, k: nat)
    requires k < 128
    ensures ChecksumSector(sum)[4 * k..4 * k + 4] == Le(sum, 4)
  {
    hide Le, ChecksumSector;
    SumByte(sum, k, 0);
    SumByte(sum, k, 1);
    SumByte(sum, k, 2);
    SumByte(sum, k, 3);
  }

  lemma SumByte(sum: nat, k: nat, m: nat)
    requires k < 128 && m < 4
    ensures ChecksumSector(sum)[4 * k + m] == Le(sum, 4)[m]
  {
    hide Le;
    assert (4 * k + m) % 4 == m;
  }

  lemma RegionChecksum(v: Volume, serial: u32)
    ensures ChecksumVerifies(BootRegion(v, serial), 512)
  {
    var region := BootRegion(v, serial);
    var boot := BootBytes(v, serial);
    var sum := BootChecksum(boot);
    PowersOf256();
    hide BootBytes, Checksum, ChecksumSector, Le, NumberAt, Pow256;
    assert region[..BOOT_BYTES] == boot;
    forall k | 0 <= k < 128 ensures NumberAt(region, BOOT_BYTES + 4 * k, 4) == sum {
      var at := BOOT_BYTES + 4 * k;
      RepeatedSum(sum, k);
      assert region[at..at + 4] == ChecksumSector(sum)[4 * k..4 * k + 4];
      NumberAtLe(region, at, 4, sum);
    }
  }

  /** A volume with the sector and cluster size of the image. */
  predicate Standard(v: Volume) {
    v.SectorSize() == SECTOR_SIZE && v.ClusterSize() == CLUSTER_SIZE
  }

  /** The announced shifts stand for these sizes. */
  lemma Sizes(v: Volume)
    requires FitsFields(v)
    ensures Standard(v)
  {
    PowersOf2();
  }

  /** What a reader finds depends on the first sector of the image alone, but for the checks. */
  lemma FieldsOfPrefix(image: seq<byte>, n: nat)
    requires 512 <= n <= |image|
    ensures Fields(image) == Fields(image[..n]) && (Signed(image) <==> Signed(image[..n]))
  {
    assert forall a, b :: 0 <= a <= b <= 512 ==> image[..n][a..b] == image[a..b];
    hide NumberAt;
    assert forall a: nat, w: nat :: a + w <= 512 ==> NumberAt(image, a, w) == NumberAt(image[..n], a, w);
  }

  /** A reader gets back the geometry that was printed. */
  lemma BootRoundTrip(image: seq<byte>, v: Volume, serial: u32)
    requires FitsFields(v) && Plausible(v, |image|)
    requires |image| >= 2 * REGION_BYTES
    requires image[..REGION_BYTES] == image[REGION_BYTES..2 * REGION_BYTES] == BootRegion(v, serial)
    ensures ReadVolume(image) == Some(v)
  {
    hide BootRegion, Signed, Fields, ChecksumVerifies, Plausible;
    RegionFields(v, serial);
    RegionChecksum(v, serial);
    FieldsOfPrefix(image, REGION_BYTES);
    Sizes(v);
  }
}
