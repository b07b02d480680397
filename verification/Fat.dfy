/** FAT entries and allocation bits, as functions of the allocated runs. */
module Fat {
  import opened Bytes
  import opened Consts
  import opened Runs
  import opened Wrappers

  /** What the FAT holds for a cluster of this run. */
  function LinkIn(r: Run, cluster: nat): nat {
    if cluster == r.End() - 1 then FAT_EOC else cluster + 1
  }

  /** The entry of the first run that holds the cluster; 0 for a free cluster. */
  function Link(runs: seq<Run>, cluster: nat): nat {
    if runs == [] then 0
    else if runs[0].Has(cluster) then LinkIn(runs[0], cluster)
    else Link(runs[1..], cluster)
  }

  function FatEntry(runs: seq<Run>, cluster: nat): nat {
    if cluster == 0 then FAT_FIRST_RESERVED
    else if cluster == 1 then FAT_EOC
    else Link(runs, cluster)
  }

  /** FAT sector `index`: 128 little-endian entries. */
  function FatSector(runs: seq<Run>, index: nat): (s: seq<byte>)
    ensures |s| == SECTOR_SIZE
  {
    seq(SECTOR_SIZE, k requires 0 <= k < SECTOR_SIZE =>
      Le(FatEntry(runs, FAT_ENTRIES_PER_SECTOR * index + k / 4), 4)[k % 4])
  }

  lemma FatSectorEntry(runs: seq<Run>, index: nat, j: nat)
    requires j < FAT_ENTRIES_PER_SECTOR
    ensures FatSector(runs, index)[4 * j..4 * j + 4] == Le(FatEntry(runs, FAT_ENTRIES_PER_SECTOR * index + j), 4)
  {
    var s := FatSector(runs, index);
    var e := Le(FatEntry(runs, FAT_ENTRIES_PER_SECTOR * index + j), 4);
    forall m | 0 <= m < 4 ensures s[4 * j + m] == e[m] {
      assert (4 * j + m) / 4 == j && (4 * j + m) % 4 == m;
    }
  }

  lemma {:induction false} LinkOfRun(runs: seq<Run>, i: nat, cluster: nat)
    requires Disjoint(runs) && i < |runs| && runs[i].Has(cluster)
    ensures Link(runs, cluster) == LinkIn(runs[i], cluster)
  {
    if i > 0 {
      assert Apart(runs[0], runs[i]);
      LinkOfRun(runs[1..], i - 1, cluster);
    }
  }

  lemma {:induction false} LinkOfFree(runs: seq<Run>, cluster: nat)
    requires !Covered(runs, cluster)
    ensures Link(runs, cluster) == 0
  {
    if runs != [] {
      assert !runs[0].Has(cluster);
      LinkOfFree(runs[1..], cluster);
    }
  }

  /** A cluster has a FAT entry other than 0 exactly when some run holds it. */
  lemma EntryIffAllocated(runs: seq<Run>, cluster: nat)
    requires Disjoint(runs) && cluster >= 2
    ensures FatEntry(runs, cluster) != 0 <==> Covered(runs, cluster)
  {
    if Covered(runs, cluster) {
      var i :| 0 <= i < |runs| && runs[i].Has(cluster);
      LinkOfRun(runs, i, cluster);
    } else {
      LinkOfFree(runs, cluster);
    }
  }

  // The eager FAT, kept by the repository as the reference for the lazy one.

  /** Entry that the eager construction leaves behind: the last run written wins. */
  function EagerEntry(runs: seq<Run>, cluster: nat): nat {
    if runs == [] then
      if cluster == 0 then FAT_FIRST_RESERVED else if cluster == 1 then FAT_EOC else 0
    else
      var last := runs[|runs| - 1];
      if last.Has(cluster) then LinkIn(last, cluster) else EagerEntry(runs[..|runs| - 1], cluster)
  }

  lemma {:induction false} EagerIsLazy(runs: seq<Run>, cluster: nat)
    requires Disjoint(runs)
    ensures EagerEntry(runs, cluster) == FatEntry(runs, cluster)
  {
    if runs != [] {
      var last := |runs| - 1;
      if runs[last].Has(cluster) {
        LinkOfRun(runs, last, cluster);
      } else {
        DisjointInit(runs);
        EagerIsLazy(runs[..last], cluster);
        LinkWithoutLast(runs, cluster);
      }
    }
  }

  lemma {:induction false} LinkWithoutLast(runs: seq<Run>, cluster: nat)
    requires runs != [] && !runs[|runs| - 1].Has(cluster)
    ensures Link(runs[..|runs| - 1], cluster) == Link(runs, cluster)
  {
    if |runs| > 1 && !runs[0].Has(cluster) {
      LinkWithoutLast(runs[1..], cluster);
      assert runs[..|runs| - 1][1..] == runs[1..][..|runs[1..]| - 1];
    }
  }

  datatype FatError = PackOutsideBuffer

  /** Entry `cluster` of a FAT held in `s` is `value`. */
  ghost predicate Holds(s: seq<byte>, cluster: nat, value: nat) {
    4 * cluster + 4 <= |s| && s[4 * cluster..4 * cluster + 4] == Le(value, 4)
  }

  lemma PatchHolds(s: seq<byte>, cluster: nat, value: nat, other: nat, before: nat)
    requires 4 * cluster + 4 <= |s| && 4 * other + 4 <= |s|
    requires other != cluster ==> Holds(s, other, before)
    ensures Holds(Patch(s, 4 * cluster, Le(value, 4)), other, if other == cluster then value else before)
  {
  }

  /** Entries once the first clusters of `r`, up to `next`, are written over those of `done`. */
  function Partial(done: seq<Run>, r: Run, next: nat, cluster: nat): nat {
    if r.start <= cluster < next then LinkIn(r, cluster) else EagerEntry(done, cluster)
  }

  /** Writes the chain of one run into the FAT; packing past the buffer raises. */
  method PackChain(fat: array<byte>, r: Run, ghost done: seq<Run>) returns (ok: bool)
    requires r.count >= 1 && fat.Length <= 4 * FAT_EOC
    requires forall c: nat :: 4 * c + 4 <= fat.Length ==> Holds(fat[..], c, EagerEntry(done, c))
    modifies fat
    ensures ok == (4 * r.End() <= fat.Length)
    ensures ok ==> forall c: nat :: 4 * c + 4 <= fat.Length ==> Holds(fat[..], c, Partial(done, r, r.End(), c))
  {
    PowersOf256();
    var cluster := r.start;
    while cluster < r.End()
      invariant r.start <= cluster <= r.End()
      invariant cluster > r.start ==> 4 * cluster <= fat.Length
      invariant forall c: nat :: 4 * c + 4 <= fat.Length ==> Holds(fat[..], c, Partial(done, r, cluster, c))
    {
      if 4 * cluster + 4 > fat.Length {
        return false;
      }
      ghost var before := fat[..];
      Pack(fat, 4 * cluster, if cluster == r.End() - 1 then FAT_EOC else cluster + 1, 4);
      forall c: nat | 4 * c + 4 <= fat.Length ensures Holds(fat[..], c, Partial(done, r, cluster + 1, c)) {
        PatchHolds(before, cluster, LinkIn(r, cluster), c, Partial(done, r, cluster, c));
      }
      cluster := cluster + 1;
    }
    ok := true;
  }

  /** Builds the whole FAT for the given runs, or raises when a chain leaves the buffer. */
  method FatBytes(fatLength: nat, runs: seq<Run>) returns (r: Result<seq<byte>, FatError>)
    requires fatLength >= 1 && FAT_ENTRIES_PER_SECTOR * fatLength <= FAT_EOC
    requires forall i :: 0 <= i < |runs| ==> runs[i].count >= 1
    ensures r.Ok? <==> forall i :: 0 <= i < |runs| ==> runs[i].End() <= FAT_ENTRIES_PER_SECTOR * fatLength
    ensures r.Ok? ==> |r.value| == SECTOR_SIZE * fatLength
    ensures r.Ok? ==> forall c: nat :: c < FAT_ENTRIES_PER_SECTOR * fatLength ==> Holds(r.value, c, EagerEntry(runs, c))
  {
    var fat := new byte[SECTOR_SIZE * fatLength](_ => 0);
    ghost var empty := fat[..];
    PowersOf256();
    Pack(fat, 0, FAT_FIRST_RESERVED, 4);
    ghost var one := fat[..];
    Pack(fat, 4, FAT_EOC, 4);
    forall c: nat | 4 * c + 4 <= fat.Length ensures Holds(fat[..], c, EagerEntry([], c)) {
      EmptyHolds(empty, c);
      PatchHolds(empty, 0, FAT_FIRST_RESERVED, c, 0);
      PatchHolds(one, 1, FAT_EOC, c, if c == 0 then FAT_FIRST_RESERVED else 0);
    }
    for i := 0 to |runs|
      invariant forall k :: 0 <= k < i ==> runs[k].End() <= FAT_ENTRIES_PER_SECTOR * fatLength
      invariant forall c: nat :: 4 * c + 4 <= fat.Length ==> Holds(fat[..], c, EagerEntry(runs[..i], c))
    {
      var ok := PackChain(fat, runs[i], runs[..i]);
      if !ok {
        return Err(PackOutsideBuffer);
      }
      assert runs[..i + 1][..i] == runs[..i];
      forall c: nat | 4 * c + 4 <= fat.Length ensures Holds(fat[..], c, EagerEntry(runs[..i + 1], c)) {
        assert Holds(fat[..], c, Partial(runs[..i], runs[i], runs[i].End(), c));
      }
    }
    assert runs[..|runs|] == runs;
    r := Ok(fat[..]);
  }

  lemma EmptyHolds(s: seq<byte>, c: nat)
    requires 4 * c + 4 <= |s| && forall i :: 0 <= i < |s| ==> s[i] == 0
    ensures Holds(s, c, 0)
  {
    assert Le(0, 2) == [0, 0];
    assert Le(0, 4) == [0, 0] + Le(0, 2);
  }

  /** The lazy sector is the slice of the eager FAT, for runs that do not overlap. */
  lemma LazyRefinesEager(runs: seq<Run>, fat: seq<byte>, fatLength: nat, index: nat)
    requires Disjoint(runs) && index < fatLength
    requires |fat| == SECTOR_SIZE * fatLength
    requires forall c: nat :: c < FAT_ENTRIES_PER_SECTOR * fatLength ==> Holds(fat, c, EagerEntry(runs, c))
    ensures FatSector(runs, index) == fat[SECTOR_SIZE * index..SECTOR_SIZE * index + SECTOR_SIZE]
  {
    var s := FatSector(runs, index);
    forall k | 0 <= k < SECTOR_SIZE ensures s[k] == fat[SECTOR_SIZE * index + k] {
      var c := FAT_ENTRIES_PER_SECTOR * index + k / 4;
      assert Holds(fat, c, EagerEntry(runs, c));
      EagerIsLazy(runs, c);
      assert fat[4 * c..4 * c + 4][k % 4] == fat[4 * c + k % 4];
    }
  }
}
