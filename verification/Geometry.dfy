/** The fixpoint search that sizes the FAT and places the cluster heap. */
module Geometry {
  import opened Consts

  const FAT_OFFSET: int := 2048
  const ROUNDS: nat := 8

  datatype Geometry = Geometry(fatLength: int, heapOffset: int, clusterCount: int)

  /** First aligned sector after a FAT of `fatLength` sectors. */
  function HeapFor(fatLength: int): int {
    CeilDiv(FAT_OFFSET + fatLength, HEAP_ALIGNMENT) * HEAP_ALIGNMENT
  }

  /** Whole clusters behind the heap offset; negative for an image that ends before it. */
  function ClustersFor(totalSectors: int, heapOffset: int): int {
    (totalSectors - PARTITION_START - heapOffset) / SECTORS_PER_CLUSTER
  }

  /** Sectors of a FAT for `clusterCount` entries, in whole clusters. */
  function FatFor(clusterCount: int): int {
    CeilDiv(Max(1, CeilDiv(clusterCount * 4, SECTOR_SIZE)), SECTORS_PER_CLUSTER) * SECTORS_PER_CLUSTER
  }

  /** The FAT length that one round derives from the previous one. */
  function Step(totalSectors: int, fatLength: int): int {
    FatFor(ClustersFor(totalSectors, HeapFor(fatLength)))
  }

  /** At most `rounds` rounds, stopping when the FAT length repeats. */
  function Search(totalSectors: int, fatLength: int, rounds: nat): Geometry
    requires rounds >= 1
    decreases rounds
  {
    var heap := HeapFor(fatLength);
    var clusters := ClustersFor(totalSectors, heap);
    var next := FatFor(clusters);
    if next == fatLength || rounds == 1 then Geometry(next, heap, clusters)
    else Search(totalSectors, next, rounds - 1)
  }

  function GeometryOf(totalSectors: int): Geometry {
    Search(totalSectors, SECTORS_PER_CLUSTER, ROUNDS)
  }

  lemma SearchRound(totalSectors: int, fatLength: int, rounds: nat)
    requires rounds >= 1
    ensures Search(totalSectors, fatLength, rounds) ==
      var next := Step(totalSectors, fatLength);
      if next == fatLength || rounds == 1 then
        Geometry(next, HeapFor(fatLength), ClustersFor(totalSectors, HeapFor(fatLength)))
      else
        Search(totalSectors, next, rounds - 1)
  {
    hide FatFor, ClustersFor, HeapFor;
  }

  method ComputeGeometry(totalSectors: int) returns (g: Geometry)
    ensures g == GeometryOf(totalSectors)
  {
    hide Search;
    var clusterCount := 0;
    var fatLength := SECTORS_PER_CLUSTER;
    var heapOffset := FAT_OFFSET + fatLength;
    for i := 0 to ROUNDS
      invariant i < ROUNDS ==> Search(totalSectors, fatLength, ROUNDS - i) == GeometryOf(totalSectors)
      invariant i == ROUNDS ==> Geometry(fatLength, heapOffset, clusterCount) == GeometryOf(totalSectors)
    {
      SearchRound(totalSectors, fatLength, ROUNDS - i);
      heapOffset := (FAT_OFFSET + fatLength + HEAP_ALIGNMENT - 1) / HEAP_ALIGNMENT * HEAP_ALIGNMENT;
      clusterCount := (totalSectors - PARTITION_START - heapOffset) / SECTORS_PER_CLUSTER;
      var newLength := Max(1, (clusterCount * 4 + SECTOR_SIZE - 1) / SECTOR_SIZE);
      newLength := (newLength + SECTORS_PER_CLUSTER - 1) / SECTORS_PER_CLUSTER * SECTORS_PER_CLUSTER;
      if newLength == fatLength {
        return Geometry(fatLength, heapOffset, clusterCount);
      }
      fatLength := newLength;
    }
    g := Geometry(fatLength, heapOffset, clusterCount);
  }

  /** A longer FAT leaves no room for a longer next one. */
  lemma StepAntitone(totalSectors: int, a: int, b: int)
    requires a <= b
    ensures Step(totalSectors, a) >= Step(totalSectors, b)
  {
    hide HeapFor, ClustersFor, FatFor;
    HeapMonotone(a, b);
    ClustersAntitone(totalSectors, HeapFor(a), HeapFor(b));
    FatMonotone(ClustersFor(totalSectors, HeapFor(b)), ClustersFor(totalSectors, HeapFor(a)));
  }

  lemma HeapMonotone(a: int, b: int)
    requires a <= b
    ensures HeapFor(a) <= HeapFor(b)
  {
  }

  lemma ClustersAntitone(totalSectors: int, a: int, b: int)
    requires a <= b
    ensures ClustersFor(totalSectors, a) >= ClustersFor(totalSectors, b)
  {
  }

  lemma FatMonotone(a: int, b: int)
    requires a <= b
    ensures FatFor(a) <= FatFor(b)
  {
  }

  /** The geometry is consistent with itself: the FAT ends before the heap. */
  ghost predicate Consistent(totalSectors: int, g: Geometry) {
    && g.heapOffset % HEAP_ALIGNMENT == 0
    && g.fatLength >= SECTORS_PER_CLUSTER
    && FAT_OFFSET + g.fatLength <= g.heapOffset
    && g.fatLength == FatFor(g.clusterCount)
    && g.clusterCount == ClustersFor(totalSectors, g.heapOffset)
  }

  /** The heap of one round is aligned and lies behind a FAT of the length that the round started from. */
  lemma StepBounds(totalSectors: int, fatLength: int)
    ensures HeapFor(fatLength) % HEAP_ALIGNMENT == 0 && HeapFor(fatLength) >= FAT_OFFSET + fatLength
    ensures Step(totalSectors, fatLength) >= SECTORS_PER_CLUSTER
  {
  }

  /** Parity argument: the iterates alternate, and the search stops on a low one. */
  lemma {:induction false} SearchConsistent(totalSectors: int, fatLength: int, rounds: nat)
    requires rounds >= 1
    requires if rounds % 2 == 0 then fatLength <= Step(totalSectors, fatLength)
             else fatLength >= Step(totalSectors, fatLength)
    ensures Consistent(totalSectors, Search(totalSectors, fatLength, rounds))
    decreases rounds
  {
    hide Search, FatFor, ClustersFor, HeapFor;
    SearchRound(totalSectors, fatLength, rounds);
    StepBounds(totalSectors, fatLength);
    var next := Step(totalSectors, fatLength);
    if next != fatLength && rounds > 1 {
      if rounds % 2 == 0 {
        StepAntitone(totalSectors, fatLength, next);
      } else {
        StepAntitone(totalSectors, next, fatLength);
      }
      SearchConsistent(totalSectors, next, rounds - 1);
    }
  }

  lemma GeometrySafe(totalSectors: int)
    ensures var g := GeometryOf(totalSectors);
      && g.heapOffset % HEAP_ALIGNMENT == 0
      && FAT_OFFSET + g.fatLength <= g.heapOffset
      && g.fatLength >= SECTORS_PER_CLUSTER
      && (g.clusterCount >= 1 ==>
        && g.fatLength == SECTORS_PER_CLUSTER * CeilDiv(g.clusterCount, 32768)
        && PARTITION_START + g.heapOffset + SECTORS_PER_CLUSTER * g.clusterCount <= totalSectors
        && totalSectors < PARTITION_START + g.heapOffset + SECTORS_PER_CLUSTER * (g.clusterCount + 1))
  {
    hide Search, FatFor, ClustersFor;
    StepBounds(totalSectors, SECTORS_PER_CLUSTER);
    SearchConsistent(totalSectors, SECTORS_PER_CLUSTER, ROUNDS);
    var g := GeometryOf(totalSectors);
    FatLength(g.clusterCount);
    ClusterRoom(totalSectors, g.heapOffset);
  }

  /** One sector of the FAT has 128 entries, one cluster of it 32768. */
  lemma FatLength(clusterCount: int)
    ensures clusterCount >= 1 ==> FatFor(clusterCount) == SECTORS_PER_CLUSTER * CeilDiv(clusterCount, 32768)
  {
  }

  lemma ClusterRoom(totalSectors: int, heapOffset: int)
    ensures var room := totalSectors - PARTITION_START - heapOffset;
      var clusters := ClustersFor(totalSectors, heapOffset);
      SECTORS_PER_CLUSTER * clusters <= room < SECTORS_PER_CLUSTER * (clusters + 1)
  {
  }

  /** The iterates need not converge: for this size the eighth round still changes the FAT length. */
  lemma SearchOscillates()
    ensures var total := 6144 + 262144 * 256;
      && Step(total, 2048) == 2304 && Step(total, 2304) == 2048
      && GeometryOf(total) == Geometry(2048, 6144, 262144)
  {
    var total := 6144 + 262144 * 256;
    assert Step(total, 256) == 2304;
    assert Step(total, 2304) == 2048;
    assert Step(total, 2048) == 2304;
    assert Search(total, 2304, 1) == Geometry(2048, 6144, 262144);
    assert Search(total, 2304, 3) == Search(total, 2048, 2) == Search(total, 2304, 1);
    assert Search(total, 2304, 5) == Search(total, 2048, 4) == Search(total, 2304, 3);
    assert Search(total, 2304, 7) == Search(total, 2048, 6) == Search(total, 2304, 5);
  }

  /** An odd bound would be unsafe: stopped one round earlier, the same image overlaps FAT and heap. */
  lemma OddBoundOverlaps()
    ensures var g := Search(6144 + 262144 * 256, SECTORS_PER_CLUSTER, 7);
      g.heapOffset < FAT_OFFSET + g.fatLength
  {
    var total := 6144 + 262144 * 256;
    assert Step(total, 256) == 2304;
    assert Step(total, 2304) == 2048;
    assert Step(total, 2048) == 2304;
    assert Search(total, 2048, 1) == Geometry(2304, 4096, 262152);
    assert Search(total, 2048, 3) == Search(total, 2304, 2) == Search(total, 2048, 1);
    assert Search(total, 2048, 5) == Search(total, 2304, 4) == Search(total, 2048, 3);
    assert Search(total, 256, 7) == Search(total, 2304, 6) == Search(total, 2048, 5);
  }

  /** Section 3.1.7 of the exFAT specification asks for ClusterCount + 2 FAT entries.
      The FAT has them exactly when the cluster count leaves a remainder other than 0 and 32767. */
  lemma FatHasAllEntriesIff(totalSectors: int)
    requires GeometryOf(totalSectors).clusterCount >= 1
    ensures var g := GeometryOf(totalSectors);
      g.clusterCount + 2 <= FAT_ENTRIES_PER_SECTOR * g.fatLength
      <==> 1 <= g.clusterCount % 32768 <= 32766
  {
    hide Search;
    GeometrySafe(totalSectors);
  }

  /** An image of 4 GiB and 2 MiB: 32768 clusters, but room for 32768 FAT entries only. */
  lemma FatTooShort(totalSectors: int)
    requires totalSectors == 4096 + 32768 * 256
    ensures var g := GeometryOf(totalSectors);
      g.clusterCount == 32768 && FAT_ENTRIES_PER_SECTOR * g.fatLength == 32768
  {
    assert HeapFor(256) == 4096;
    assert ClustersFor(totalSectors, 4096) == 32768;
    assert FatFor(32768) == 256;
  }

  /** The default image, which is the largest one: 2047 GiB. */
  lemma LargestGeometry(totalSectors: int)
    requires totalSectors == MAX_IMAGE_BYTES / SECTOR_SIZE
    ensures totalSectors == 4292870144
    ensures GeometryOf(totalSectors) == Geometry(131072, 133120, 16768504)
    ensures FAT_ENTRIES_PER_SECTOR * GeometryOf(totalSectors).fatLength >= GeometryOf(totalSectors).clusterCount + 2
  {
    hide Search;
    var a, b := SECTORS_PER_CLUSTER, 131072;
    assert HeapFor(a) == 4096 && ClustersFor(totalSectors, 4096) == 16769008 && FatFor(16769008) == b;
    assert HeapFor(b) == 133120 && ClustersFor(totalSectors, 133120) == 16768504 && FatFor(16768504) == b;
    SearchRound(totalSectors, a, ROUNDS);
    SearchRound(totalSectors, b, ROUNDS - 1);
  }
}
