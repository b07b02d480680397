/** The scanned source tree, and the trees that result from placing it on clusters. */
module Trees {
  import opened Bytes
  import opened Names

  /** Date, time and increment fields of a file entry, bytes 8 to 21. */
  type Stamps = s: seq<byte> | |s| == 14 witness Zeros(14)

  /** One exFAT timestamp: date, time, and tens of milliseconds. */
  datatype Stamp = Stamp(date: u16, time: u16, increment: byte)

  datatype Times = Times(created: Stamp, modified: Stamp, accessed: Stamp)

  /** The timestamp fields as stored; there is none for the increment of the last access. */
  function StampBytes(t: Times): Stamps {
    Le(t.created.time, 2) + Le(t.created.date, 2)
    + Le(t.modified.time, 2) + Le(t.modified.date, 2)
    + Le(t.accessed.time, 2) + Le(t.accessed.date, 2)
    + [t.created.increment, t.modified.increment]
  }

  /** The timestamps that a reader decodes. */
  function ReadStamps(s: Stamps): Times {
    Times(Stamp(Pair(s[2], s[3]), Pair(s[0], s[1]), s[12]),
          Stamp(Pair(s[6], s[7]), Pair(s[4], s[5]), s[13]),
          Stamp(Pair(s[10], s[11]), Pair(s[8], s[9]), 0))
  }

  function StoredTimes(t: Times): Times {
    t.(accessed := t.accessed.(increment := 0))
  }

  lemma StampsRoundTrip(t: Times)
    ensures ReadStamps(StampBytes(t)) == StoredTimes(t)
  {
    PairOfLe(t.created.time);
    PairOfLe(t.created.date);
    PairOfLe(t.modified.time);
    PairOfLe(t.modified.date);
    PairOfLe(t.accessed.time);
    PairOfLe(t.accessed.date);
    hide Le, Pair;
  }

  lemma PairOfLe(v: u16)
    ensures Pair(Le(v, 2)[0], Le(v, 2)[1]) == v
  {
    assert Le(v, 2) == [v % 256] + Le(v / 256, 1);
  }

  datatype Item = Item(
    name: string,
    path: string,
    source: string,
    isDirectory: bool,
    size: nat,
    times: Times)

  /** A node with its cluster run; both numbers are 0 until clusters are assigned. */
  datatype Tree = Tree(item: Item, first: nat, count: nat, children: seq<Tree>)

  /** The nodes that the builder visits below a node: a file is never entered. */
  function Below(t: Tree): seq<Tree> {
    if t.item.isDirectory then Walk(t.children) else []
  }

  /** Depth-first order, parents first: the meaning of the recursive `_walk`. */
  function Walk(forest: seq<Tree>): seq<Tree> {
    if forest == [] then []
    else [forest[0]] + Below(forest[0]) + Walk(forest[1..])
  }

  predicate ByName(a: Tree, b: Tree) {
    NameLe(a.item.name, b.item.name)
  }

  /** Every node of the forest, and everything entered below it, is visited. */
  lemma {:induction false} WalkContains(forest: seq<Tree>, i: nat)
    requires i < |forest|
    ensures forest[i] in Walk(forest)
    ensures forall t :: t in Below(forest[i]) ==> t in Walk(forest)
  {
    if i > 0 {
      WalkContains(forest[1..], i - 1);
    }
  }

  /** What is visited below a visited node is visited. */
  lemma {:induction false} WalkClosed(forest: seq<Tree>, t: Tree)
    requires t in Walk(forest)
    ensures forall s :: s in Below(t) ==> s in Walk(forest)
  {
    if t in Below(forest[0]) {
      WalkClosed(forest[0].children, t);
    } else if t in Walk(forest[1..]) {
      WalkClosed(forest[1..], t);
    }
  }

  lemma VisitedChild(forest: seq<Tree>, t: Tree, child: Tree)
    requires t in Walk(forest) && t.item.isDirectory && child in t.children
    ensures child in Walk(forest)
  {
    WalkClosed(forest, t);
    var i :| 0 <= i < |t.children| && t.children[i] == child;
    WalkContains(t.children, i);
  }
}
