/** The mutable nodes that the builder works on, and the two ways in which it walks them. */
module Nodes {
  import opened Trees

  /** A scanned node; the build assigns its clusters. */
  class Node {
    const item: Item
    const children: seq<Node>
    ghost const tree: Tree
    var firstCluster: nat
    var clusterCount: nat

    constructor (item: Item, children: seq<Node>)
      requires AllMirror(children)
      ensures this.item == item && this.children == children && Mirrors(this)
      ensures firstCluster == 0 && clusterCount == 0
    {
      this.item := item;
      this.children := children;
      this.tree := Tree(item, 0, 0, Shapes(children));
      firstCluster := 0;
      clusterCount := 0;
    }
  }

  /** The scanned trees that the nodes stand for. */
  ghost function Shapes(nodes: seq<Node>): (ts: seq<Tree>)
    ensures |ts| == |nodes|
  {
    seq(|nodes|, i requires 0 <= i < |nodes| => nodes[i].tree)
  }

  ghost predicate Mirrors(n: Node)
    decreases n.tree
  {
    && n.tree.item == n.item
    && |n.tree.children| == |n.children|
    && forall i :: 0 <= i < |n.children| ==> n.children[i].tree == n.tree.children[i] && Mirrors(n.children[i])
  }

  ghost predicate AllMirror(nodes: seq<Node>) {
    forall i :: 0 <= i < |nodes| ==> Mirrors(nodes[i])
  }

  predicate Distinct(nodes: seq<Node>) {
    forall i, j :: 0 <= i < j < |nodes| ==> nodes[i] != nodes[j]
  }

  lemma ChildShapes(n: Node)
    requires Mirrors(n)
    ensures AllMirror(n.children) && Shapes(n.children) == n.tree.children
  {
  }

  lemma RestShapes(nodes: seq<Node>)
    requires nodes != [] && AllMirror(nodes)
    ensures AllMirror(nodes[1..]) && Shapes(nodes[1..]) == Shapes(nodes)[1..]
    ensures Mirrors(nodes[0]) && Shapes(nodes)[0] == nodes[0].tree
  {
  }

  /** What the walk visits below a node: a file is not entered. */
  function NodeBelow(n: Node): (walk: seq<Node>)
    requires Mirrors(n)
    ensures AllMirror(walk)
    decreases n.tree
  {
    ChildShapes(n);
    if n.item.isDirectory then NodeWalk(n.children) else []
  }

  /** The recursive walk: depth first, parents first. */
  function NodeWalk(nodes: seq<Node>): (walk: seq<Node>)
    requires AllMirror(nodes)
    ensures AllMirror(walk)
    decreases Shapes(nodes)
  {
    if nodes == [] then []
    else
      RestShapes(nodes);
      [nodes[0]] + NodeBelow(nodes[0]) + NodeWalk(nodes[1..])
  }

  lemma ShapesJoin(n: Node, below: seq<Node>, rest: seq<Node>)
    ensures Shapes([n] + below + rest) == [n.tree] + Shapes(below) + Shapes(rest)
  {
  }

  /** The walk of the nodes stands for the walk of their trees. */
  lemma {:induction false} WalkShapes(nodes: seq<Node>)
    requires AllMirror(nodes)
    ensures Shapes(NodeWalk(nodes)) == Walk(Shapes(nodes))
    decreases Shapes(nodes)
  {
    if nodes != [] {
      hide Shapes, AllMirror, Mirrors;
      var n := nodes[0];
      RestShapes(nodes);
      ChildShapes(n);
      WalkShapes(nodes[1..]);
      if n.item.isDirectory {
        WalkShapes(n.children);
      }
      BelowShapes(n);
      ShapesJoin(n, NodeBelow(n), NodeWalk(nodes[1..]));
    }
  }

  lemma BelowShapes(n: Node)
    requires Mirrors(n) && AllMirror(n.children) && Shapes(n.children) == n.tree.children
    requires n.item.isDirectory ==> Shapes(NodeWalk(n.children)) == Walk(Shapes(n.children))
    ensures Shapes(NodeBelow(n)) == Below(n.tree)
  {
  }

  // Members of the walk.

  lemma {:induction false} NodeWalkContains(nodes: seq<Node>, i: nat)
    requires AllMirror(nodes) && i < |nodes|
    ensures nodes[i] in NodeWalk(nodes)
    ensures forall n :: n in NodeBelow(nodes[i]) ==> n in NodeWalk(nodes)
    decreases |nodes|
  {
    RestShapes(nodes);
    if i > 0 {
      NodeWalkContains(nodes[1..], i - 1);
    }
  }

  lemma {:induction false} NodeWalkClosed(nodes: seq<Node>, n: Node)
    requires AllMirror(nodes) && n in NodeWalk(nodes)
    ensures Mirrors(n)
    ensures forall c :: c in NodeBelow(n) ==> c in NodeWalk(nodes)
    decreases Shapes(nodes)
  {
    RestShapes(nodes);
    ChildShapes(nodes[0]);
    if n in NodeBelow(nodes[0]) {
      NodeWalkClosed(nodes[0].children, n);
    } else if n in NodeWalk(nodes[1..]) {
      NodeWalkClosed(nodes[1..], n);
    }
  }

  lemma ChildVisited(nodes: seq<Node>, n: Node, i: nat)
    requires AllMirror(nodes) && n in NodeWalk(nodes) && n.item.isDirectory && i < |n.children|
    ensures n.children[i] in NodeWalk(nodes)
  {
    hide NodeWalk;
    NodeWalkClosed(nodes, n);
    ChildShapes(n);
    NodeWalkContains(n.children, i);
  }

  // The explicit stack.

  /** All nodes, parents first: what is below a file is visited too. */
  ghost function Preorder(nodes: seq<Node>): (walk: seq<Node>)
    requires AllMirror(nodes)
    decreases Shapes(nodes)
  {
    if nodes == [] then []
    else
      RestShapes(nodes);
      ChildShapes(nodes[0]);
      [nodes[0]] + Preorder(nodes[0].children) + Preorder(nodes[1..])
  }

  lemma {:induction false} PreorderAppend(a: seq<Node>, b: seq<Node>)
    requires AllMirror(a) && AllMirror(b)
    ensures Preorder(a + b) == Preorder(a) + Preorder(b)
    decreases |a|
  {
    if a == [] {
      assert a + b == b;
    } else {
      RestShapes(a);
      ChildShapes(a[0]);
      PreorderAppend(a[1..], b);
      assert (a + b)[1..] == a[1..] + b;
    }
  }

  function Reversed(nodes: seq<Node>): (r: seq<Node>)
    ensures |r| == |nodes|
    ensures forall i :: 0 <= i < |nodes| ==> r[i] == nodes[|nodes| - 1 - i]
  {
    seq(|nodes|, i requires 0 <= i < |nodes| => nodes[|nodes| - 1 - i])
  }

  /** Popping the last node and pushing its children in reverse keeps the order. */
  lemma StackStep(stack: seq<Node>)
    requires stack != [] && AllMirror(stack)
    ensures var node := stack[|stack| - 1];
      var next := stack[..|stack| - 1] + Reversed(node.children);
      && AllMirror(next) && AllMirror(Reversed(next)) && AllMirror(Reversed(stack))
      && Preorder(Reversed(stack)) == [node] + Preorder(Reversed(next))
  {
    var node, rest := stack[|stack| - 1], stack[..|stack| - 1];
    ChildShapes(node);
    assert Reversed(stack)[1..] == Reversed(rest);
    assert Reversed(rest + Reversed(node.children)) == node.children + Reversed(rest);
    PreorderAppend(node.children, Reversed(rest));
  }

  lemma ReversedMirror(nodes: seq<Node>)
    requires AllMirror(nodes)
    ensures AllMirror(Reversed(nodes))
  {
  }

  lemma NoPreorder(nodes: seq<Node>)
    requires nodes == []
    ensures AllMirror(nodes) && Preorder(nodes) == []
  {
  }

  /** The walk with an explicit stack: it takes the given nodes from the last one on. */
  method WalkStatic(nodes: seq<Node>) returns (result: seq<Node>)
    requires AllMirror(nodes)
    ensures result == Preorder(Reversed(nodes))
  {
    hide Preorder, AllMirror;
    ReversedMirror(nodes);
    NoPreorder([]);
    result := [];
    var stack := nodes;
    while stack != []
      invariant AllMirror(stack) && AllMirror(Reversed(stack)) && AllMirror(Reversed(nodes))
      invariant result + Preorder(Reversed(stack)) == Preorder(Reversed(nodes))
      decreases |Preorder(Reversed(stack))|
    {
      StackStep(stack);
      var node := stack[|stack| - 1];
      stack := stack[..|stack| - 1];
      result := result + [node];
      stack := stack + Reversed(node.children);
    }
  }

  /** No file among the nodes has children. */
  ghost predicate LeafFiles(nodes: seq<Node>) {
    forall i :: 0 <= i < |nodes| ==> nodes[i].item.isDirectory || nodes[i].children == []
  }

  lemma NoLeaves()
    ensures LeafFiles([])
  {
  }

  lemma LeafFilesJoin(n: Node, below: seq<Node>, rest: seq<Node>)
    ensures LeafFiles([n] + below + rest)
      <==> (n.item.isDirectory || n.children == []) && LeafFiles(below) && LeafFiles(rest)
  {
    var all := [n] + below + rest;
    assert all[0] == n;
    assert forall i :: 0 <= i < |below| ==> below[i] == all[1 + i];
    assert forall i :: 0 <= i < |rest| ==> rest[i] == all[1 + |below| + i];
  }

  /** The two walks agree exactly when no visited file has children. */
  lemma {:induction false} WalksAgreeIff(nodes: seq<Node>)
    requires AllMirror(nodes)
    ensures |Preorder(nodes)| >= |NodeWalk(nodes)|
    ensures Preorder(nodes) == NodeWalk(nodes) <==> LeafFiles(NodeWalk(nodes))
    ensures |Preorder(nodes)| == |NodeWalk(nodes)| <==> LeafFiles(NodeWalk(nodes))
    decreases Shapes(nodes)
  {
    if nodes != [] {
      var n := nodes[0];
      RestShapes(nodes);
      ChildShapes(n);
      WalksAgreeIff(nodes[1..]);
      WalksAgreeIff(n.children);
      NoPreorder([]);
      hide LeafFiles, AllMirror, Mirrors;
      LeafFilesJoin(n, NodeBelow(n), NodeWalk(nodes[1..]));
      NoLeaves();
      assert !n.item.isDirectory && n.children != [] ==> |NodeWalk(n.children)| > 0;
    }
  }
}
