/** The allocation bitmap, one bit per cluster. */
module Bitmap {
  import opened Bits
  import opened Bytes
  import opened Consts
  import opened Runs
  import opened Sets

  /** The number below 2^width whose bit `k` says whether cluster `first + k` is allocated. */
  function Allocation(runs: seq<Run>, first: nat, width: nat): (v: nat)
    ensures v < Pow2(width)
    decreases width
  {
    if width == 0 then 0
    else Allocation(runs, first + 1, width - 1) * 2 + (if Covered(runs, first) then 1 else 0)
  }

  /** The lowest bit stands for the first cluster, the others for the clusters behind it. */
  lemma AllocationHalves(runs: seq<Run>, first: nat, width: nat)
    requires width > 0
    ensures Allocation(runs, first, width) % 2 == 1 <==> Covered(runs, first)
    ensures Allocation(runs, first, width) / 2 == Allocation(runs, first + 1, width - 1)
  {
    hide Covered;
  }

  lemma {:induction false} AllocationBit(runs: seq<Run>, first: nat, width: nat, k: nat)
    requires k < width
    ensures Bit(Allocation(runs, first, width), k) <==> Covered(runs, first + k)
    decreases width
  {
    hide Bit, Allocation, Covered;
    AllocationHalves(runs, first, width);
    BitUnfold(Allocation(runs, first, width), k);
    if k > 0 {
      AllocationBit(runs, first + 1, width - 1, k - 1);
    }
  }

  /** Bitmap sector `index`: bit `b` stands for cluster 2 + 4096 * index + b. */
  function BitmapSector(runs: seq<Run>, index: nat): (s: seq<byte>)
    ensures |s| == SECTOR_SIZE
  {
    PowersOf2();
    seq(SECTOR_SIZE, k requires 0 <= k < SECTOR_SIZE =>
      Allocation(runs, 2 + SECTOR_SIZE * 8 * index + 8 * k, 8))
  }

  /** Bit `b` of a byte string. */
  predicate BitAt(s: seq<byte>, b: nat)
    requires b / 8 < |s|
  {
    Bit(s[b / 8], b % 8)
  }

  lemma BitmapSectorBit(runs: seq<Run>, index: nat, b: nat)
    requires b < SECTOR_SIZE * 8
    ensures BitAt(BitmapSector(runs, index), b) <==> Covered(runs, 2 + SECTOR_SIZE * 8 * index + b)
  {
    AllocationBit(runs, 2 + SECTOR_SIZE * 8 * index + 8 * (b / 8), 8, b % 8);
  }

  /** A sector with the right bits is the bitmap sector. */
  lemma BitmapSectorUnique(runs: seq<Run>, index: nat, s: seq<byte>)
    requires |s| == SECTOR_SIZE
    requires forall b: nat :: b < SECTOR_SIZE * 8 ==> (BitAt(s, b) <==> Covered(runs, 2 + SECTOR_SIZE * 8 * index + b))
    ensures s == BitmapSector(runs, index)
  {
    var t := BitmapSector(runs, index);
    PowersOf2();
    forall k | 0 <= k < SECTOR_SIZE ensures s[k] == t[k] {
      forall j: nat | j < 8 ensures Bit(s[k], j) <==> Bit(t[k], j) {
        var b := 8 * k + j;
        assert b / 8 == k && b % 8 == j;
        assert BitAt(s, b) <==> Covered(runs, 2 + SECTOR_SIZE * 8 * index + b);
        BitmapSectorBit(runs, index, b);
      }
      SameBits(s[k], t[k], 8);
    }
  }

  // Counting allocated clusters.

  /** Bit number `b` of the bitmap stands for cluster `b + 2`. */
  predicate BitAllocated(runs: seq<Run>, b: int) {
    Covered(runs, b + 2)
  }

  function AllocatedBits(runs: seq<Run>, limit: nat): set<int> {
    set b: int | 0 <= b < limit && BitAllocated(runs, b)
  }

  /** The number of allocated bits is the sum of the run lengths. */
  lemma {:induction false} AllocatedBitsCount(runs: seq<Run>, limit: nat)
    requires Disjoint(runs)
    requires forall i :: 0 <= i < |runs| ==> runs[i].End() <= limit + 2
    ensures |AllocatedBits(runs, limit)| == TotalCount(runs)
  {
    if runs == [] {
      assert AllocatedBits(runs, limit) == {};
    } else {
      CountLast(runs, limit);
      DisjointInit(runs);
      hide Disjoint, AllocatedBits;
      AllocatedBitsCount(runs[..|runs| - 1], limit);
    }
  }

  lemma CountLast(runs: seq<Run>, limit: nat)
    requires Disjoint(runs) && runs != [] && runs[|runs| - 1].End() <= limit + 2
    ensures |AllocatedBits(runs, limit)| == |AllocatedBits(runs[..|runs| - 1], limit)| + runs[|runs| - 1].count
  {
    var last := runs[|runs| - 1];
    assert last.start >= 2;
    var all := AllocatedBits(runs, limit);
    var init := AllocatedBits(runs[..|runs| - 1], limit);
    var own := Interval(last.start - 2, last.End() - 2);
    forall b: int ensures b in all <==> b in init || b in own {
      CoveredByLast(runs, b + 2);
    }
    forall b: int | b in init ensures b !in own {
      NotInBoth(runs, b + 2);
    }
    IntervalSize(last.start - 2, last.End() - 2);
    UnionSize(all, init, own);
  }

  lemma NotInBoth(runs: seq<Run>, cluster: int)
    requires Disjoint(runs) && runs != [] && Covered(runs[..|runs| - 1], cluster)
    ensures !runs[|runs| - 1].Has(cluster)
  {
    var i :| 0 <= i < |runs| - 1 && runs[..|runs| - 1][i].Has(cluster);
    assert Apart(runs[i], runs[|runs| - 1]);
  }

  lemma CoveredByLast(runs: seq<Run>, cluster: int)
    requires runs != []
    ensures Covered(runs, cluster) <==> Covered(runs[..|runs| - 1], cluster) || runs[|runs| - 1].Has(cluster)
  {
    var init := runs[..|runs| - 1];
    if Covered(init, cluster) {
      var i :| 0 <= i < |init| && init[i].Has(cluster);
      assert runs[i].Has(cluster);
    }
    if Covered(runs, cluster) {
      var i :| 0 <= i < |runs| && runs[i].Has(cluster);
      assert i < |init| ==> init[i].Has(cluster);
    }
  }
}
