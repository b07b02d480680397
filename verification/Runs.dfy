/** Runs of clusters: the compact form of every allocation. */
module Runs {
  import opened Sorting

  datatype Run = Run(start: nat, count: nat) {
    predicate Has(cluster: int) {
      start <= cluster < start + count
    }

    function End(): nat {
      start + count
    }
  }

  predicate Covered(runs: seq<Run>, cluster: int) {
    exists i :: 0 <= i < |runs| && runs[i].Has(cluster)
  }

  predicate Apart(a: Run, b: Run) {
    a.End() <= b.start || b.End() <= a.start
  }

  /** What the mapper relies on: non-empty runs of real clusters that do not overlap. */
  predicate Disjoint(runs: seq<Run>) {
    && (forall i :: 0 <= i < |runs| ==> runs[i].start >= 2 && runs[i].count >= 1)
    && (forall i, j :: 0 <= i < j < |runs| ==> Apart(runs[i], runs[j]))
  }

  lemma DisjointInit(runs: seq<Run>)
    requires Disjoint(runs) && runs != []
    ensures Disjoint(runs[..|runs| - 1])
    ensures runs[|runs| - 1].start >= 2 && runs[|runs| - 1].count >= 1
  {
    var init := runs[..|runs| - 1];
    forall i | 0 <= i < |init| ensures init[i].start >= 2 && init[i].count >= 1 {
      assert init[i] == runs[i];
    }
    forall i, j | 0 <= i < j < |init| ensures Apart(init[i], init[j]) {
      assert Apart(runs[i], runs[j]);
    }
  }

  /** The runs lie one after the other, without a gap, from `from` up to `to`. */
  predicate Tiles(runs: seq<Run>, from: int, to: int) {
    if runs == [] then from == to
    else
      var last := runs[|runs| - 1];
      last.count >= 1 && last.End() == to && Tiles(runs[..|runs| - 1], from, last.start)
  }

  lemma {:induction false} TilesAppend(a: seq<Run>, b: seq<Run>, from: int, mid: int, to: int)
    requires Tiles(a, from, mid) && Tiles(b, mid, to)
    ensures Tiles(a + b, from, to)
  {
    if b == [] {
      assert a + b == a;
    } else {
      TilesAppend(a, b[..|b| - 1], from, mid, b[|b| - 1].start);
      assert (a + b)[..|a + b| - 1] == a + b[..|b| - 1];
    }
  }

  /** Positions inside a tiling. */
  lemma {:induction false} TilesInOrder(runs: seq<Run>, from: int, to: int)
    requires Tiles(runs, from, to)
    ensures from <= to
    ensures forall i :: 0 <= i < |runs| ==> from <= runs[i].start < runs[i].End() <= to
    ensures forall i, j :: 0 <= i < j < |runs| ==> runs[i].End() <= runs[j].start
    ensures forall i :: 0 <= i < |runs| - 1 ==> runs[i].End() == runs[i + 1].start
    ensures runs != [] ==> runs[0].start == from && runs[|runs| - 1].End() == to
  {
    if runs != [] {
      var init := runs[..|runs| - 1];
      TilesInOrder(init, from, runs[|runs| - 1].start);
      assert forall i :: 0 <= i < |init| ==> runs[i] == init[i];
    }
  }

  /** A tiling covers exactly the clusters between its ends. */
  lemma {:induction false} TilesCover(runs: seq<Run>, from: int, to: int, cluster: int)
    requires Tiles(runs, from, to)
    ensures Covered(runs, cluster) <==> from <= cluster < to
  {
    TilesInOrder(runs, from, to);
    if runs != [] {
      var last := |runs| - 1;
      var init := runs[..last];
      TilesCover(init, from, runs[last].start, cluster);
      TilesInOrder(init, from, runs[last].start);
      if Covered(init, cluster) {
        var i :| 0 <= i < |init| && init[i].Has(cluster);
        assert runs[i].Has(cluster);
      }
      if from <= cluster < to && !Covered(init, cluster) {
        assert runs[last].Has(cluster);
      }
    }
  }

  function TotalCount(runs: seq<Run>): nat {
    if runs == [] then 0 else TotalCount(runs[..|runs| - 1]) + runs[|runs| - 1].count
  }

  lemma {:induction false} TilesTotal(runs: seq<Run>, from: int, to: int)
    requires Tiles(runs, from, to)
    ensures TotalCount(runs) == to - from
  {
    if runs != [] {
      TilesTotal(runs[..|runs| - 1], from, runs[|runs| - 1].start);
    }
  }

  lemma TilesDisjoint(runs: seq<Run>, from: int, to: int)
    requires Tiles(runs, from, to) && from >= 2
    ensures Disjoint(runs)
  {
    TilesInOrder(runs, from, to);
  }

  /** Python's order on pairs. */
  predicate RunLe(a: Run, b: Run) {
    a.start < b.start || (a.start == b.start && a.count <= b.count)
  }

  lemma TilesSorted(runs: seq<Run>, from: int, to: int)
    requires Tiles(runs, from, to)
    ensures Sort(runs, RunLe) == runs
  {
    TilesInOrder(runs, from, to);
    SortOfAscending(runs, RunLe);
  }
}
