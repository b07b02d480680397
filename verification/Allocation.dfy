/** Cluster assignment: what every successful build establishes about the placed tree. */
module Allocation {
  import opened Directory
  import opened Plan
  import opened Runs
  import opened Trees

  /** Two nodes that differ in cluster numbers only, as far as sizes are concerned. */
  predicate SameNode(a: Tree, b: Tree) {
    && a.item == b.item
    && |a.children| == |b.children|
    && forall i :: 0 <= i < |a.children| ==> a.children[i].item == b.children[i].item
  }

  predicate SameNodes(a: seq<Tree>, b: seq<Tree>) {
    |a| == |b| && forall i :: 0 <= i < |a| ==> SameNode(a[i], b[i])
  }

  /** Every node of the walk has the clusters that its position prescribes. */
  predicate Placed(walk: seq<Tree>, base: nat) {
    forall k: nat :: k < |walk| ==> PlacedNode(walk, k, base)
  }

  predicate PlacedNode(walk: seq<Tree>, k: nat, base: nat)
    requires k < |walk|
  {
    walk[k].count == ClustersOf(walk[k]) && walk[k].first == FirstFor(walk, k, base)
  }

  lemma SameClusters(a: Tree, b: Tree)
    requires SameNode(a, b)
    ensures ClustersOf(a) == ClustersOf(b)
    ensures EntryCount(a) == EntryCount(b)
  {
    assert NamesOf(a.children) == NamesOf(b.children);
  }

  /** Node `i` of a placed forest is node `i` of the scanned one with clusters filled in. */
  lemma {:induction false} PlaceItems(forest: seq<Tree>, walk: seq<Tree>, k: nat, base: nat)
    requires k + |Walk(forest)| <= |walk|
    ensures forall i :: 0 <= i < |forest| ==> Place(forest, walk, k, base)[i].item == forest[i].item
  {
    if forest != [] {
      assert |Walk(forest)| == 1 + |Below(forest[0])| + |Walk(forest[1..])|;
      PlaceItems(forest[1..], walk, k + 1 + |Below(forest[0])|, base);
    }
  }

  ghost predicate PlacedAs(placed: seq<Tree>, original: seq<Tree>, walk: seq<Tree>, k: nat, base: nat) {
    && k + |original| <= |walk|
    && SameNodes(placed, original)
    && forall j :: 0 <= j < |placed| ==>
        placed[j].first == FirstFor(walk, k + j, base) && placed[j].count == ClustersOf(original[j])
  }

  lemma PlacedAsAppend(a: seq<Tree>, b: seq<Tree>, x: seq<Tree>, y: seq<Tree>, walk: seq<Tree>, k: nat, base: nat)
    requires PlacedAs(a, x, walk, k, base) && PlacedAs(b, y, walk, k + |x|, base)
    ensures PlacedAs(a + b, x + y, walk, k, base)
  {
    hide FirstFor, ClustersOf, SameNode;
    assert SameNodes(a + b, x + y);
    forall j | 0 <= j < |a + b|
      ensures (a + b)[j].first == FirstFor(walk, k + j, base) && (a + b)[j].count == ClustersOf((x + y)[j])
    {
      if j >= |a| {
        var m := j - |a|;
        assert b[m].first == FirstFor(walk, k + |x| + m, base);
      }
    }
  }

  lemma WalkUnfold(forest: seq<Tree>)
    requires forest != []
    ensures Walk(forest) == [forest[0]] + Below(forest[0]) + Walk(forest[1..])
    ensures forest[0].item.isDirectory ==> Below(forest[0]) == Walk(forest[0].children)
  {
  }

  lemma PlaceUnfold(forest: seq<Tree>, walk: seq<Tree>, k: nat, base: nat)
    requires forest != [] && k + |Walk(forest)| <= |walk|
    ensures var t := forest[0];
      var p := Place(forest, walk, k, base);
      && k + 1 + |Below(t)| + |Walk(forest[1..])| <= |walk|
      && p[0] == Tree(t.item, FirstFor(walk, k, base), ClustersOf(t),
          if t.item.isDirectory then Place(t.children, walk, k + 1, base) else t.children)
      && p[1..] == Place(forest[1..], walk, k + 1 + |Below(t)|, base)
  {
    hide FirstFor, ClustersOf;
    WalkUnfold(forest);
  }

  /** What is below a placed node is what is below the scanned one, placed. */
  lemma BelowPlaced(p: Tree, t: Tree, walk: seq<Tree>, k: nat, base: nat)
    requires k + |Below(t)| <= |walk|
    requires p.item == t.item
    requires t.item.isDirectory ==> p.children == Place(t.children, walk, k, base)
    requires t.item.isDirectory ==> PlacedAs(Walk(p.children), Walk(t.children), walk, k, base)
    ensures PlacedAs(Below(p), Below(t), walk, k, base)
  {
  }

  lemma RootPlaced(p: Tree, t: Tree, walk: seq<Tree>, k: nat, base: nat)
    requires k < |walk| && p.item == t.item
    requires p.first == FirstFor(walk, k, base) && p.count == ClustersOf(t)
    requires if t.item.isDirectory then
      k + 1 + |Walk(t.children)| <= |walk| && p.children == Place(t.children, walk, k + 1, base)
             else p.children == t.children
    ensures PlacedAs([p], [t], walk, k, base)
  {
    hide FirstFor, ClustersOf, Walk, Place;
    if t.item.isDirectory {
      PlaceItems(t.children, walk, k + 1, base);
    }
    assert SameNode(p, t);
  }

  lemma PlaceNothing(walk: seq<Tree>, k: nat, base: nat)
    requires k <= |walk|
    ensures |Walk([])| == 0
    ensures PlacedAs(Walk(Place([], walk, k, base)), Walk([]), walk, k, base)
  {
  }

  /** Walking the placed forest visits the scanned nodes in the same order, each with its clusters. */
  lemma {:induction false} PlaceWalk(forest: seq<Tree>, walk: seq<Tree>, k: nat, base: nat)
    requires k + |Walk(forest)| <= |walk|
    ensures PlacedAs(Walk(Place(forest, walk, k, base)), Walk(forest), walk, k, base)
    decreases forest
  {
    hide Walk, Place, FirstFor, ClustersOf, PlacedAs, Below;
    if forest == [] {
      PlaceNothing(walk, k, base);
    } else {
      var t, rest := forest[0], forest[1..];
      var placed := Place(forest, walk, k, base);
      PlaceUnfold(forest, walk, k, base);
      WalkUnfold(forest);
      WalkUnfold(placed);
      var p := placed[0];
      if t.item.isDirectory {
        PlaceWalk(t.children, walk, k + 1, base);
      }
      RootPlaced(p, t, walk, k, base);
      BelowPlaced(p, t, walk, k + 1, base);
      PlaceWalk(rest, walk, k + 1 + |Below(t)|, base);
      PlacedAsAppend([p], Below(p), [t], Below(t), walk, k, base);
      PlacedAsAppend([p] + Below(p), Walk(placed[1..]), [t] + Below(t), Walk(rest), walk, k, base);
    }
  }

  lemma SelectStep(walk: seq<Tree>, k: nat, directories: bool)
    requires k < |walk|
    ensures Select(walk[..k + 1], directories)
      == Select(walk[..k], directories) + if walk[k].item.isDirectory == directories then [walk[k]] else []
  {
    assert walk[..k + 1][..k] == walk[..k];
  }

  lemma TotalStep(walk: seq<Tree>, k: nat, directories: bool)
    requires k < |walk|
    ensures TotalClusters(Select(walk[..k + 1], directories))
      == TotalClusters(Select(walk[..k], directories))
       + if walk[k].item.isDirectory == directories then ClustersOf(walk[k]) else 0
  {
    hide *;
    SelectStep(walk, k, directories);
    var ts := Select(walk[..k], directories);
    TotalAppend(ts, walk[k]);
    assert ts + [] == ts;
  }

  lemma {:induction false} SameTotals(a: seq<Tree>, b: seq<Tree>, k: nat, directories: bool)
    requires SameNodes(a, b) && k <= |a|
    ensures TotalClusters(Select(a[..k], directories)) == TotalClusters(Select(b[..k], directories))
  {
    hide Select, TotalClusters, ClustersOf, SameNode;
    if k == 0 {
      assert a[..k] == b[..k];
    } else {
      SameTotals(a, b, k - 1, directories);
      TotalStep(a, k - 1, directories);
      TotalStep(b, k - 1, directories);
      assert SameNode(a[k - 1], b[k - 1]);
      SameClusters(a[k - 1], b[k - 1]);
      SameItem(a[k - 1], b[k - 1]);
    }
  }

  lemma TotalAppend(ts: seq<Tree>, t: Tree)
    ensures TotalClusters(ts + [t]) == TotalClusters(ts) + ClustersOf(t)
  {
    assert (ts + [t])[..|ts|] == ts;
  }

  lemma PlacedConsistent(placed: seq<Tree>, walk: seq<Tree>, k: nat, base: nat)
    requires PlacedAs(placed, walk, walk, 0, base) && k < |placed|
    ensures placed[k].count == ClustersOf(placed[k]) && placed[k].first == FirstFor(placed, k, base)
  {
    hide ClustersOf, Select, TotalClusters, SameNode;
    assert SameNode(placed[k], walk[k]);
    SameClusters(placed[k], walk[k]);
    SameItem(placed[k], walk[k]);
    assert placed[..|placed|] == placed && walk[..|walk|] == walk;
    SameTotals(placed, walk, |walk|, true);
    SameTotals(placed, walk, k, placed[k].item.isDirectory);
  }

  /** The placed tree is consistent with itself. */
  lemma PlacedTree(root: Tree, base: nat)
    ensures var walk := Walk([root]);
      var placed := Walk([Place([root], walk, 0, base)[0]]);
      Placed(placed, base) && SameNodes(placed, walk) && NextCluster(placed, base) == NextCluster(walk, base)
  {
    hide Walk, Place, ClustersOf, Select, TotalClusters, SameNode, FirstFor;
    var walk := Walk([root]);
    var forest := Place([root], walk, 0, base);
    assert forest == [forest[0]];
    var placed := Walk(forest);
    PlaceWalk([root], walk, 0, base);
    forall k: nat | k < |placed| ensures PlacedNode(placed, k, base) {
      PlacedConsistent(placed, walk, k, base);
    }
    assert placed[..|placed|] == placed && walk[..|walk|] == walk;
    SameTotals(placed, walk, |walk|, true);
    SameTotals(placed, walk, |walk|, false);
  }

  lemma SameItem(a: Tree, b: Tree)
    requires SameNode(a, b)
    ensures a.item == b.item
  {
  }

  // Runs.

  lemma PlacedAt(walk: seq<Tree>, k: nat, base: nat)
    requires Placed(walk, base) && k < |walk|
    ensures var t := walk[k];
      var kind := t.item.isDirectory;
      && t.count == ClustersOf(t)
      && t.first == FirstOfKind(walk, kind, base) + TotalClusters(Select(walk[..k], kind))
  {
    hide ClustersOf, FirstOfKind, TotalClusters, Select;
    assert PlacedNode(walk, k, base);
  }

  lemma NoTiles(walk: seq<Tree>, directories: bool, base: nat)
    ensures var from := FirstOfKind(walk, directories, base);
      var ts := Select(walk[..0], directories);
      Tiles(RunsOf(ts), from, from + TotalClusters(ts))
  {
  }

  /** The runs of one kind lie one behind the other. */
  lemma {:induction false} KindTiles(walk: seq<Tree>, k: nat, directories: bool, base: nat)
    requires Placed(walk, base) && k <= |walk|
    ensures var from := FirstOfKind(walk, directories, base);
      var ts := Select(walk[..k], directories);
      Tiles(RunsOf(ts), from, from + TotalClusters(ts))
  {
    hide *;
    if k == 0 {
      NoTiles(walk, directories, base);
    } else {
      KindTiles(walk, k - 1, directories, base);
      SelectStep(walk, k - 1, directories);
      TotalStep(walk, k - 1, directories);
      PlacedAt(walk, k - 1, base);
      var t := walk[k - 1];
      var ts := Select(walk[..k - 1], directories);
      if t.item.isDirectory == directories {
        var from := FirstOfKind(walk, directories, base);
        ExtendTiles(ts, t, from, from + TotalClusters(ts));
      } else {
        assert ts + [] == ts;
      }
    }
  }

  lemma ExtendTiles(ts: seq<Tree>, t: Tree, from: int, to: int)
    requires Tiles(RunsOf(ts), from, to) && t.first == to && t.count >= 1
    ensures Tiles(RunsOf(ts + [t]), from, to + t.count)
  {
    var runs := RunsOf(ts + [t]);
    assert runs[..|runs| - 1] == RunsOf(ts);
  }

  /** The allocated runs tile the heap from cluster 2 up to the next free cluster. */
  lemma AllocationTiles(walk: seq<Tree>, clusterCount: int)
    requires Placed(walk, BaseCluster(clusterCount))
    ensures Tiles(AllocatedRuns(walk, clusterCount), BITMAP_CLUSTER, NextCluster(walk, BaseCluster(clusterCount)))
  {
    hide Tiles, Select;
    var base := BaseCluster(clusterCount);
    var mid := base + TotalClusters(Dirs(walk));
    KindTiles(walk, |walk|, true, base);
    KindTiles(walk, |walk|, false, base);
    assert walk[..|walk|] == walk;
    var bitmap, upcase :=
      Run(BITMAP_CLUSTER, BitmapClusters(clusterCount)), Run(UpcaseCluster(clusterCount), UpcaseClusters());
    OneTile(bitmap);
    OneTile(upcase);
    TilesAppend([bitmap], [upcase], BITMAP_CLUSTER, upcase.start, base);
    TilesAppend([bitmap] + [upcase], RunsOf(Dirs(walk)), BITMAP_CLUSTER, base, mid);
    TilesAppend([bitmap] + [upcase] + RunsOf(Dirs(walk)),
      RunsOf(Files(walk)), BITMAP_CLUSTER, mid, NextCluster(walk, base));
    assert [bitmap, upcase] == [bitmap] + [upcase];
  }

  lemma OneTile(r: Run)
    requires r.count >= 1
    ensures Tiles([r], r.start, r.End())
  {
    assert [r][..0] == [];
  }

  // Members of the walk.

  lemma {:induction false} SelectMembers(walk: seq<Tree>, directories: bool)
    ensures forall t :: t in Select(walk, directories) <==> t in walk && t.item.isDirectory == directories
  {
    if walk != [] {
      SelectMembers(walk[..|walk| - 1], directories);
    }
  }

  lemma SelectUnfold(walk: seq<Tree>, directories: bool)
    requires walk != []
    ensures var last := walk[|walk| - 1];
      Select(walk, directories)
      == Select(walk[..|walk| - 1], directories) + if last.item.isDirectory == directories then [last] else []
  {
  }

  lemma {:induction false} SelectCons(t: Tree, walk: seq<Tree>, directories: bool)
    ensures Select([t] + walk, directories)
      == (if t.item.isDirectory == directories then [t] else []) + Select(walk, directories)
  {
    var all := [t] + walk;
    if walk == [] {
      assert all[..0] == [];
    } else {
      hide Select;
      SelectUnfold(all, directories);
      SelectUnfold(walk, directories);
      SelectCons(t, walk[..|walk| - 1], directories);
      assert all[..|all| - 1] == [t] + walk[..|walk| - 1];
    }
  }

  /** The root comes first in its walk, and first among the directories. */
  lemma RootFirst(root: Tree)
    requires root.item.isDirectory
    ensures Walk([root]) == [root] + Walk(root.children)
    ensures Dirs(Walk([root])) == [root] + Dirs(Walk(root.children))
    ensures Files(Walk([root])) == Files(Walk(root.children))
  {
    assert [root][1..] == [];
    SelectCons(root, Walk(root.children), true);
    SelectCons(root, Walk(root.children), false);
  }
}
