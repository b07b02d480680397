/** Nodes together with the clusters assigned to them, as placed trees. */
module Filling {
  import opened Allocation
  import opened Names
  import opened Nodes
  import opened Plan
  import opened Sorting
  import opened Trees

  datatype Numbers = Numbers(first: nat, count: nat)

  /** The cluster numbers of a node in a snapshot of all nodes. */
  function NumbersOf(m: map<Node, Numbers>, n: Node): Numbers {
    if n in m then m[n] else Numbers(0, 0)
  }

  /** The tree that a node stands for once clusters are assigned. */
  ghost function Filled(n: Node, m: map<Node, Numbers>): Tree
    requires Mirrors(n)
    decreases n.tree
  {
    Tree(n.item, NumbersOf(m, n).first, NumbersOf(m, n).count,
         if n.item.isDirectory then seq(|n.children|, i requires 0 <= i < |n.children| => Filled(n.children[i], m))
         else n.tree.children)
  }

  ghost function FilledAll(nodes: seq<Node>, m: map<Node, Numbers>): (ts: seq<Tree>)
    requires AllMirror(nodes)
    ensures |ts| == |nodes|
  {
    seq(|nodes|, i requires 0 <= i < |nodes| => Filled(nodes[i], m))
  }

  lemma FilledChildren(n: Node, m: map<Node, Numbers>)
    requires Mirrors(n) && n.item.isDirectory
    ensures AllMirror(n.children)
    ensures Filled(n, m).children == FilledAll(n.children, m)
  {
  }

  lemma FilledFields(n: Node, m: map<Node, Numbers>)
    requires Mirrors(n)
    ensures var t := Filled(n, m);
      t.item == n.item && t.first == NumbersOf(m, n).first && t.count == NumbersOf(m, n).count
    ensures !n.item.isDirectory ==> Filled(n, m).children == n.tree.children
  {
  }

  lemma FilledSplit(nodes: seq<Node>, m: map<Node, Numbers>)
    requires AllMirror(nodes) && nodes != []
    ensures AllMirror(nodes[1..]) && Mirrors(nodes[0])
    ensures FilledAll(nodes, m) == [Filled(nodes[0], m)] + FilledAll(nodes[1..], m)
  {
    hide Filled;
  }

  lemma FilledJoin(n: Node, below: seq<Node>, rest: seq<Node>, m: map<Node, Numbers>)
    requires Mirrors(n) && AllMirror(below) && AllMirror(rest) && AllMirror([n] + below + rest)
    ensures FilledAll([n] + below + rest, m) == [Filled(n, m)] + FilledAll(below, m) + FilledAll(rest, m)
  {
    hide Filled;
  }

  /** Every node has the numbers that its position in the walk prescribes. */
  ghost predicate Numbered(nodes: seq<Node>, m: map<Node, Numbers>, walk: seq<Tree>, k: nat, base: nat) {
    && k + |nodes| <= |walk|
    && forall j :: 0 <= j < |nodes| ==>
        NumbersOf(m, nodes[j]) == Numbers(FirstFor(walk, k + j, base), ClustersOf(nodes[j].tree))
  }

  lemma NumberedSplit(n: Node, below: seq<Node>, rest: seq<Node>, m: map<Node, Numbers>, walk: seq<Tree>, k: nat,
          base: nat)
    requires Numbered([n] + below + rest, m, walk, k, base)
    ensures k < |walk| && NumbersOf(m, n) == Numbers(FirstFor(walk, k, base), ClustersOf(n.tree))
    ensures Numbered(below, m, walk, k + 1, base)
    ensures Numbered(rest, m, walk, k + 1 + |below|, base)
  {
    hide FirstFor, ClustersOf, NumbersOf;
    var all := [n] + below + rest;
    assert all[0] == n;
    forall j | 0 <= j < |below|
      ensures NumbersOf(m, below[j]) == Numbers(FirstFor(walk, k + 1 + j, base), ClustersOf(below[j].tree))
    {
      assert below[j] == all[1 + j];
    }
    forall j | 0 <= j < |rest|
      ensures NumbersOf(m, rest[j]) == Numbers(FirstFor(walk, k + 1 + |below| + j, base), ClustersOf(rest[j].tree))
    {
      assert rest[j] == all[1 + |below| + j];
      assert NumbersOf(m, all[1 + |below| + j])
        == Numbers(FirstFor(walk, k + (1 + |below| + j), base), ClustersOf(rest[j].tree));
    }
  }

  lemma NodeWalkUnfold(nodes: seq<Node>)
    requires AllMirror(nodes) && nodes != []
    ensures Mirrors(nodes[0]) && AllMirror(nodes[0].children) && AllMirror(nodes[1..])
    ensures NodeWalk(nodes) == [nodes[0]] + NodeBelow(nodes[0]) + NodeWalk(nodes[1..])
    ensures nodes[0].item.isDirectory ==> NodeBelow(nodes[0]) == NodeWalk(nodes[0].children)
    ensures !nodes[0].item.isDirectory ==> NodeBelow(nodes[0]) == []
  {
    RestShapes(nodes);
    ChildShapes(nodes[0]);
  }

  lemma PlaceNone(nodes: seq<Node>, m: map<Node, Numbers>, walk: seq<Tree>, k: nat, base: nat)
    requires nodes == [] && k <= |walk|
    ensures |Walk(Shapes(nodes))| == 0 && AllMirror(nodes) && FilledAll(nodes, m) == Place(Shapes(nodes), walk, k, base)
  {
  }

  /** The head of a placed forest is the filled head, if what is below it is. */
  lemma HeadPlaced(n: Node, nodes: seq<Node>, m: map<Node, Numbers>, walk: seq<Tree>, k: nat, base: nat)
    requires nodes != [] && n == nodes[0] && Mirrors(n) && AllMirror(nodes) && AllMirror(n.children) && k < |walk|
    requires NumbersOf(m, n) == Numbers(FirstFor(walk, k, base), ClustersOf(n.tree))
    requires k + |Walk(Shapes(nodes))| <= |walk|
    requires n.item.isDirectory ==>
      k + 1 + |Walk(Shapes(n.children))| <= |walk| &&
      FilledAll(n.children, m) == Place(Shapes(n.children), walk, k + 1, base)
    ensures Place(Shapes(nodes), walk, k, base)[0] == Filled(n, m)
  {
    hide Walk, FirstFor, ClustersOf, Place, FilledAll, Filled;
    ChildShapes(n);
    FilledFields(n, m);
    if n.item.isDirectory {
      FilledChildren(n, m);
    }
    PlaceUnfold(Shapes(nodes), walk, k, base);
    MirrorItem(n);
  }

  lemma TailPlaced(nodes: seq<Node>, m: map<Node, Numbers>, walk: seq<Tree>, k: nat, base: nat)
    requires nodes != [] && AllMirror(nodes) && AllMirror(nodes[1..]) && Mirrors(nodes[0])
    requires k + |Walk(Shapes(nodes))| <= |walk|
    requires k + 1 + |NodeBelow(nodes[0])| + |Walk(Shapes(nodes[1..]))| <= |walk|
    requires FilledAll(nodes[1..], m) == Place(Shapes(nodes[1..]), walk, k + 1 + |NodeBelow(nodes[0])|, base)
    requires Place(Shapes(nodes), walk, k, base)[0] == Filled(nodes[0], m)
    ensures FilledAll(nodes, m) == Place(Shapes(nodes), walk, k, base)
  {
    hide Walk, FirstFor, ClustersOf, Place, FilledAll, Filled, NodeBelow, Below;
    RestShapes(nodes);
    BelowLength(nodes[0]);
    FilledSplit(nodes, m);
    PlaceUnfold(Shapes(nodes), walk, k, base);
    var p := Place(Shapes(nodes), walk, k, base);
    assert p == [p[0]] + p[1..];
  }

  /** Nodes with the prescribed numbers are the placed trees. */
  lemma {:induction false} FilledIsPlaced(nodes: seq<Node>, m: map<Node, Numbers>, walk: seq<Tree>, k: nat, base: nat)
    requires AllMirror(nodes) && Numbered(NodeWalk(nodes), m, walk, k, base)
    ensures k + |Walk(Shapes(nodes))| <= |walk|
    ensures FilledAll(nodes, m) == Place(Shapes(nodes), walk, k, base)
    decreases Shapes(nodes)
  {
    hide Walk, Below, NodeWalk, NodeBelow, Place, FirstFor, ClustersOf, FilledAll, Filled, Numbered, Mirrors, NumbersOf;
    if nodes == [] {
      NumberedLength(nodes, m, walk, k, base);
      PlaceNone(nodes, m, walk, k, base);
    } else {
      var n, rest := nodes[0], nodes[1..];
      RestShapes(nodes);
      NodeWalkUnfold(nodes);
      ChildShapes(n);
      NumberedLength(nodes, m, walk, k, base);
      NumberedSplit(n, NodeBelow(n), NodeWalk(rest), m, walk, k, base);
      FilledIsPlaced(rest, m, walk, k + 1 + |NodeBelow(n)|, base);
      if n.item.isDirectory {
        FilledIsPlaced(n.children, m, walk, k + 1, base);
      }
      HeadPlaced(n, nodes, m, walk, k, base);
      TailPlaced(nodes, m, walk, k, base);
    }
  }

  lemma MirrorItem(n: Node)
    requires Mirrors(n)
    ensures n.tree.item == n.item
  {
  }

  lemma BelowLength(n: Node)
    requires Mirrors(n)
    ensures |Below(n.tree)| == |NodeBelow(n)|
  {
    ChildShapes(n);
    WalkShapes(n.children);
  }

  lemma NumberedLength(nodes: seq<Node>, m: map<Node, Numbers>, walk: seq<Tree>, k: nat, base: nat)
    requires AllMirror(nodes) && Numbered(NodeWalk(nodes), m, walk, k, base)
    ensures k + |Walk(Shapes(nodes))| <= |walk|
  {
    hide FirstFor, ClustersOf;
    WalkShapes(nodes);
  }

  /** Walking the filled trees is filling the walked nodes. */
  lemma {:induction false} FilledWalk(nodes: seq<Node>, m: map<Node, Numbers>)
    requires AllMirror(nodes)
    ensures Walk(FilledAll(nodes, m)) == FilledAll(NodeWalk(nodes), m)
    decreases Shapes(nodes)
  {
    if nodes == [] {
      assert FilledAll(nodes, m) == [];
    } else {
      var n, rest := nodes[0], nodes[1..];
      RestShapes(nodes);
      NodeWalkUnfold(nodes);
      ChildShapes(n);
      FilledBelow(n, m);
      hide Walk, Below, NodeWalk, NodeBelow, FilledAll, Filled, Shapes, AllMirror, Mirrors;
      FilledWalk(rest, m);
      if n.item.isDirectory {
        FilledWalk(n.children, m);
      }
      FilledSplit(nodes, m);
      WalkUnfold(FilledAll(nodes, m));
      var ts := FilledAll(nodes, m);
      assert ts[0] == Filled(n, m) && ts[1..] == FilledAll(rest, m);
      FilledJoin(n, NodeBelow(n), NodeWalk(rest), m);
    }
  }

  lemma FilledBelow(n: Node, m: map<Node, Numbers>)
    requires Mirrors(n) && AllMirror(n.children)
    ensures n.item.isDirectory ==> Below(Filled(n, m)) == Walk(FilledAll(n.children, m))
    ensures n.item.isDirectory ==> FilledAll(NodeBelow(n), m) == FilledAll(NodeWalk(n.children), m)
    ensures !n.item.isDirectory ==> Below(Filled(n, m)) == [] == FilledAll(NodeBelow(n), m)
  {
    hide Walk, NodeWalk;
    if n.item.isDirectory {
      FilledChildren(n, m);
    }
  }

  // Sorting.

  predicate NodeByName(a: Node, b: Node) {
    NameLe(a.item.name, b.item.name)
  }

  lemma InsertFront(n: Node, nodes: seq<Node>, m: map<Node, Numbers>)
    requires Mirrors(n) && AllMirror(nodes) && (nodes == [] || NodeByName(n, nodes[0]))
    ensures AllMirror(Insert(n, nodes, NodeByName))
    ensures Insert(Filled(n, m), FilledAll(nodes, m), ByName) == FilledAll(Insert(n, nodes, NodeByName), m)
  {
    hide Filled, FilledAll, Mirrors;
    FilledFields(n, m);
    if nodes != [] {
      FilledFields(nodes[0], m);
      FilledSplit(nodes, m);
    }
    var all := [n] + nodes;
    assert all[0] == n && all[1..] == nodes;
    assert AllMirror(all);
    FilledSplit(all, m);
  }

  lemma InsertBehind(n: Node, nodes: seq<Node>, m: map<Node, Numbers>)
    requires Mirrors(n) && AllMirror(nodes) && nodes != [] && !NodeByName(n, nodes[0])
    ensures Mirrors(nodes[0]) && AllMirror(nodes[1..])
    ensures Insert(n, nodes, NodeByName) == [nodes[0]] + Insert(n, nodes[1..], NodeByName)
    ensures Insert(Filled(n, m), FilledAll(nodes, m), ByName)
      == [Filled(nodes[0], m)] + Insert(Filled(n, m), FilledAll(nodes[1..], m), ByName)
  {
    FilledFields(n, m);
    FilledFields(nodes[0], m);
    FilledSplit(nodes, m);
    hide Filled, FilledAll, Mirrors;
    var ts := FilledAll(nodes, m);
    assert ts[0] == Filled(nodes[0], m) && ts[1..] == FilledAll(nodes[1..], m);
  }

  lemma {:induction false} InsertFilled(n: Node, nodes: seq<Node>, m: map<Node, Numbers>)
    requires Mirrors(n) && AllMirror(nodes)
    ensures AllMirror(Insert(n, nodes, NodeByName))
    ensures Insert(Filled(n, m), FilledAll(nodes, m), ByName) == FilledAll(Insert(n, nodes, NodeByName), m)
  {
    hide Filled, FilledAll, Mirrors, Insert;
    if nodes == [] || NodeByName(n, nodes[0]) {
      InsertFront(n, nodes, m);
    } else {
      InsertBehind(n, nodes, m);
      InsertFilled(n, nodes[1..], m);
      var r := Insert(n, nodes[1..], NodeByName);
      var all := [nodes[0]] + r;
      assert all[1..] == r;
      FilledSplit(all, m);
    }
  }

  /** Sorting the nodes sorts the trees. */
  lemma {:induction false} SortFilled(nodes: seq<Node>, m: map<Node, Numbers>)
    requires AllMirror(nodes)
    ensures AllMirror(Sort(nodes, NodeByName))
    ensures Sort(FilledAll(nodes, m), ByName) == FilledAll(Sort(nodes, NodeByName), m)
  {
    hide Filled, Mirrors, Insert;
    if nodes == [] {
      assert FilledAll(nodes, m) == [];
    } else {
      FilledSplit(nodes, m);
      SortFilled(nodes[1..], m);
      InsertFilled(nodes[0], Sort(nodes[1..], NodeByName), m);
      var ts := FilledAll(nodes, m);
      assert ts[0] == Filled(nodes[0], m) && ts[1..] == FilledAll(nodes[1..], m);
    }
  }
}
