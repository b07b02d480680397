/** The builder: assigns clusters to the nodes of a scanned tree and lays out the image. */
module Builder {
  import opened Allocation
  import opened Boot
  import opened Bytes
  import opened Consts
  import opened Directory
  import opened DirectoryReader
  import opened Filling
  import opened Geometry
  import opened Layouts
  import opened Mounting
  import opened Names
  import opened Nodes
  import opened Plan
  import opened Printing
  import opened Ranges
  import opened Runs
  import opened Served
  import opened ServedImage
  import opened Sorting
  import opened Storing
  import opened Trees
  import opened Wrappers

  datatype BuildError = UnalignedSize | ImageTooSmall | FilesDoNotFit

  // Cluster counts of nodes.

  function NodeNames(children: seq<Node>): (names: seq<string>)
    ensures |names| == |children|
  {
    seq(|children|, i requires 0 <= i < |children| => children[i].item.name)
  }

  function DirectoryClusterCount(n: Node): (count: nat)
    ensures count >= 1
  {
    EntryClusters(EntriesFor(n.item.path, NodeNames(n.children)))
  }

  lemma ClustersOfNode(n: Node)
    requires Mirrors(n)
    ensures ClustersOf(n.tree) == if n.item.isDirectory then DirectoryClusterCount(n) else FileClusters(n.item.size)
  {
    assert forall i :: 0 <= i < |n.children| ==> n.children[i].tree.item == n.children[i].item;
    assert NodeNames(n.children) == NamesOf(n.tree.children);
  }

  // Cluster assignment.

  /** The nodes of a walk and the placed trees that they should become. */
  ghost predicate Planned(walk: seq<Node>, placed: seq<Tree>, base: nat) {
    && |walk| == |placed| && AllMirror(walk) && Distinct(walk) && Placed(placed, base)
    && forall j :: 0 <= j < |walk| ==>
      placed[j].item == walk[j].item && ClustersOf(placed[j]) == ClustersOf(walk[j].tree)
  }

  ghost predicate Carries(n: Node, t: Tree)
    reads n
  {
    n.firstCluster == t.first && n.clusterCount == t.count
  }

  lemma PlannedAt(walk: seq<Node>, placed: seq<Tree>, base: nat, k: nat)
    requires Planned(walk, placed, base) && k < |walk|
    ensures var t := placed[k];
      var kind := t.item.isDirectory;
      && t.item == walk[k].item
      && t.count == ClustersOf(t) == (if kind then DirectoryClusterCount(walk[k]) else FileClusters(walk[k].item.size))
      && t.first == FirstOfKind(placed, kind, base) + TotalClusters(Select(placed[..k], kind))
      && TotalClusters(Select(placed[..k + 1], true))
         == TotalClusters(Select(placed[..k], true)) + (if kind then t.count else 0)
      && TotalClusters(Select(placed[..k + 1], false))
         == TotalClusters(Select(placed[..k], false)) + (if kind then 0 else t.count)
    ensures forall j :: 0 <= j < |walk| && j != k ==> walk[j] != walk[k]
  {
    hide ClustersOf, FirstOfKind, TotalClusters, Select, FirstFor, DirectoryClusterCount, FileClusters, Mirrors;
    ClustersOfNode(walk[k]);
    PlacedAt(placed, k, base);
    TotalStep(placed, k, true);
    TotalStep(placed, k, false);
  }

  lemma NothingTotal(placed: seq<Tree>, directories: bool)
    ensures TotalClusters(Select(placed[..0], directories)) == 0
    ensures Select(placed[..0], directories) == []
  {
  }

  /** Directories take the clusters from `base` on, in the order of the walk. */
  method AssignDirectories(walk: seq<Node>, ghost placed: seq<Tree>, base: nat) returns (next: nat)
    requires Planned(walk, placed, base)
    modifies walk
    ensures next == base + TotalClusters(Dirs(placed))
    ensures forall j :: 0 <= j < |walk| && walk[j].item.isDirectory ==> Carries(walk[j], placed[j])
  {
    hide Planned, TotalClusters, Select, DirectoryClusterCount, FileClusters, ClustersOf;
    NothingTotal(placed, true);
    PlannedLength(walk, placed, base);
    next := base;
    for k := 0 to |walk|
      invariant next == base + TotalClusters(Select(placed[..k], true))
      invariant forall j :: 0 <= j < k && walk[j].item.isDirectory ==> Carries(walk[j], placed[j])
    {
      PlannedAt(walk, placed, base, k);
      var node := walk[k];
      node.clusterCount := if node.item.isDirectory then DirectoryClusterCount(node) else 0;
      if node.item.isDirectory {
        node.firstCluster := next;
        next := next + node.clusterCount;
      }
    }
    assert placed[..|walk|] == placed;
  }

  lemma PlannedLength(walk: seq<Node>, placed: seq<Tree>, base: nat)
    requires Planned(walk, placed, base)
    ensures |walk| == |placed|
  {
  }

  /** Files take the clusters behind the directories; each gets a mapping to its source. */
  method AssignFiles(walk: seq<Node>, ghost placed: seq<Tree>, base: nat, start: nat)
    returns (next: nat, mappings: seq<FileMapping>)
    requires Planned(walk, placed, base) && start == base + TotalClusters(Dirs(placed))
    requires forall j :: 0 <= j < |walk| && walk[j].item.isDirectory ==> Carries(walk[j], placed[j])
    modifies walk
    ensures next == NextCluster(placed, base) && mappings == MappingsOf(Files(placed))
    ensures forall j :: 0 <= j < |walk| ==> Carries(walk[j], placed[j])
  {
    hide Planned, TotalClusters, Select, DirectoryClusterCount, FileClusters, ClustersOf, MappingsOf;
    NothingTotal(placed, false);
    NoMappings(placed);
    PlannedLength(walk, placed, base);
    next := start;
    mappings := [];
    for k := 0 to |walk|
      invariant next == start + TotalClusters(Select(placed[..k], false))
      invariant mappings == MappingsOf(Select(placed[..k], false))
      invariant forall j :: 0 <= j < |walk| && (j < k || walk[j].item.isDirectory) ==> Carries(walk[j], placed[j])
    {
      PlannedAt(walk, placed, base, k);
      MappingsStep(placed, k);
      var node := walk[k];
      if !node.item.isDirectory {
        var size := node.item.size;
        node.clusterCount := FileClusters(size);
        node.firstCluster := next;
        next := next + node.clusterCount;
        mappings := mappings +
          [FileMapping(node.firstCluster, node.clusterCount, node.item.source, size, node.item.path)];
      }
    }
    assert placed[..|walk|] == placed;
  }

  lemma NoMappings(placed: seq<Tree>)
    ensures MappingsOf(Select(placed[..0], false)) == []
  {
  }

  lemma MappingsStep(placed: seq<Tree>, k: nat)
    requires k < |placed|
    ensures MappingsOf(Select(placed[..k + 1], false))
      == MappingsOf(Select(placed[..k], false)) + if placed[k].item.isDirectory then [] else [MappingOf(placed[k])]
  {
    hide Select;
    SelectStep(placed, k, false);
    var ts := Select(placed[..k], false);
    assert ts + [] == ts;
    assert MappingsOf(ts + [placed[k]]) == MappingsOf(ts) + [MappingOf(placed[k])];
    assert MappingsOf(ts) + [] == MappingsOf(ts);
  }

  // Allocated ranges.

  lemma RunsStep(placed: seq<Tree>, k: nat)
    requires k < |placed|
    ensures RunsOf(Select(placed[..k + 1], true))
      == RunsOf(Select(placed[..k], true)) +
           if placed[k].item.isDirectory then [Run(placed[k].first, placed[k].count)] else []
  {
    hide Select;
    SelectStep(placed, k, true);
    var ts := Select(placed[..k], true);
    assert ts + [] == ts;
    assert RunsOf(ts + [placed[k]]) == RunsOf(ts) + [RunOf(placed[k])];
    assert RunsOf(ts) + [] == RunsOf(ts);
  }

  lemma NoRuns(placed: seq<Tree>)
    ensures RunsOf(Select(placed[..0], true)) == []
  {
  }

  function MappedRuns(mappings: seq<FileMapping>): seq<Run> {
    seq(|mappings|, i requires 0 <= i < |mappings| => Run(mappings[i].start, mappings[i].count))
  }

  lemma RunsOfMappings(files: seq<Tree>)
    ensures MappedRuns(MappingsOf(files)) == RunsOf(files)
  {
  }

  lemma StaticWalk(root: Node)
    requires Mirrors(root) && LeafFiles(NodeWalk([root]))
    ensures Reversed([root]) == [root]
    ensures Preorder([root]) == NodeWalk([root])
  {
    WalksAgreeIff([root]);
  }

  lemma AlreadySorted(placed: seq<Tree>, clusterCount: int)
    requires Placed(placed, BaseCluster(clusterCount))
    ensures Sort(AllocatedRuns(placed, clusterCount), RunLe) == AllocatedRuns(placed, clusterCount)
  {
    AllocationTiles(placed, clusterCount);
    TilesSorted(AllocatedRuns(placed, clusterCount), BITMAP_CLUSTER, NextCluster(placed, BaseCluster(clusterCount)));
  }

  /** The runs of the directories, collected by the walk with the explicit stack. */
  method DirectoryRuns(root: Node, ghost nodes: seq<Node>, ghost placed: seq<Tree>, ghost base: nat)
    returns (ranges: seq<Run>)
    requires Mirrors(root) && nodes == NodeWalk([root]) && LeafFiles(nodes) && Planned(nodes, placed, base)
    requires forall j :: 0 <= j < |placed| ==> Carries(nodes[j], placed[j])
    ensures ranges == RunsOf(Dirs(placed))
  {
    hide Select, Planned, NodeWalk, Preorder, LeafFiles, Mirrors, RunsOf;
    StaticWalk(root);
    PlannedPlaced(nodes, placed, base);
    var walk := WalkStatic([root]);
    assert walk == nodes;
    ranges := [];
    NoRuns(placed);
    for k := 0 to |walk|
      invariant forall j :: 0 <= j < |placed| ==> Carries(walk[j], placed[j])
      invariant ranges == RunsOf(Select(placed[..k], true))
    {
      PlannedAt(walk, placed, base, k);
      RunsStep(placed, k);
      assert Carries(walk[k], placed[k]);
      if walk[k].item.isDirectory {
        ranges := ranges + [Run(walk[k].firstCluster, walk[k].clusterCount)];
      }
    }
    assert placed[..|walk|] == placed;
  }

  /** All allocated runs, sorted. */
  method AllocatedRanges(root: Node, mappings: seq<FileMapping>, clusterCount: int, ghost nodes: seq<Node>,
          ghost placed: seq<Tree>)
    returns (runs: seq<Run>)
    requires Mirrors(root) && nodes == NodeWalk([root]) && LeafFiles(nodes)
    requires Planned(nodes, placed, BaseCluster(clusterCount))
    requires forall j :: 0 <= j < |placed| ==> Carries(nodes[j], placed[j])
    requires mappings == MappingsOf(Files(placed))
    ensures runs == AllocatedRuns(placed, clusterCount)
  {
    hide Select, Planned, NodeWalk, MappingsOf, MappedRuns, RunsOf, BitmapClusters, UpcaseCluster, UpcaseClusters,
      LeafFiles, Mirrors, Sort, BaseCluster;
    var ranges := [Run(BITMAP_CLUSTER, BitmapClusters(clusterCount)),
      Run(UpcaseCluster(clusterCount), UpcaseClusters())];
    var directories := DirectoryRuns(root, nodes, placed, BaseCluster(clusterCount));
    ranges := ranges + directories;
    ranges := ranges + MappedRuns(mappings);
    RunsOfMappings(Files(placed));
    PlannedPlaced(nodes, placed, BaseCluster(clusterCount));
    AlreadySorted(placed, clusterCount);
    runs := Sort(ranges, RunLe);
  }

  lemma PlannedPlaced(walk: seq<Node>, placed: seq<Tree>, base: nat)
    requires Planned(walk, placed, base)
    ensures |walk| == |placed| && Placed(placed, base)
  {
  }

  // Metadata.

  /** The snapshot is up to date. */
  ghost predicate Synced(nodes: seq<Node>, m: map<Node, Numbers>)
    reads nodes
  {
    forall i :: 0 <= i < |nodes| ==> NumbersOf(m, nodes[i]) == Numbers(nodes[i].firstCluster, nodes[i].clusterCount)
  }

  /** A node below the root of a built tree can be printed. */
  lemma VisitedReady(config: Config, root: Node, below: seq<Node>, m: map<Node, Numbers>, c: Node)
    requires Mirrors(root) && root.item.isDirectory && Built(config, Filled(root, m))
    requires AllMirror(root.children) && below == NodeWalk(root.children) && Synced(below, m) && c in below
    ensures Mirrors(c) && NumbersOf(m, c) == Numbers(c.firstCluster, c.clusterCount) && Printable(Filled(c, m))
  {
    hide Built, NodeWalk, Walk, Filled, Printable, Mirrors, NumbersOf, ClustersOf, Select;
    var j :| 0 <= j < |below| && below[j] == c;
    FilledChildren(root, m);
    FilledWalk(root.children, m);
    assert FilledAll(below, m)[j] == Filled(c, m);
    VisitedPrintable(config, Filled(root, m), Filled(c, m));
  }

  lemma ReadyChildren(config: Config, root: Node, below: seq<Node>, m: map<Node, Numbers>, n: Node)
    requires Mirrors(root) && root.item.isDirectory && Built(config, Filled(root, m))
    requires AllMirror(root.children) && below == NodeWalk(root.children) && Synced(below, m)
    requires n == root || n in below
    requires n.item.isDirectory
    ensures Mirrors(n) && Ready(n.children, m)
  {
    hide Built, NodeWalk, Filled, NameFits, NumbersFit, NumbersOf, Synced;
    if n != root {
      NodeWalkClosed(root.children, n);
    }
    ChildShapes(n);
    hide Mirrors;
    forall i | 0 <= i < |n.children|
      ensures NumbersOf(m, n.children[i]) == Numbers(n.children[i].firstCluster, n.children[i].clusterCount)
      ensures Mirrors(n.children[i]) && Printable(Filled(n.children[i], m))
    {
      if n == root {
        NodeWalkContains(root.children, i);
      } else {
        ChildVisited(root.children, n, i);
      }
      VisitedReady(config, root, below, m, n.children[i]);
    }
  }

  lemma DirectoryPutIs(config: Config, g: Geometry, t: Tree)
    ensures DirectoryPut(config, g, t, false)
      == Put(PARTITION_START + g.heapOffset + (t.first - 2) * SECTORS_PER_CLUSTER,
             DirectoryBytes(t, [], config.strUpper))
  {
    hide DirectoryBytes;
  }

  /** The writes of the directories below the root. */
  function DirectoryPuts(config: Config, g: Geometry, dirs: seq<Tree>): (puts: seq<Put>)
    ensures |puts| == |dirs|
  {
    seq(|dirs|, i requires 0 <= i < |dirs| => DirectoryPut(config, g, dirs[i], false))
  }

  lemma DirectoryPutsStep(config: Config, g: Geometry, ts: seq<Tree>, k: nat, puts: seq<Put>)
    requires k < |ts|
    ensures Stored(puts + DirectoryPuts(config, g, Dirs(ts[..k + 1])))
      == if ts[k].item.isDirectory
         then Stored(puts + DirectoryPuts(config, g, Dirs(ts[..k]))) + WriteOf(DirectoryPut(config, g, ts[k], false))
         else Stored(puts + DirectoryPuts(config, g, Dirs(ts[..k])))
  {
    hide Select, Stored, WriteOf, DirectoryPut;
    SelectStep(ts, k, true);
    var ds := Select(ts[..k], true);
    var p := DirectoryPut(config, g, ts[k], false);
    if ts[k].item.isDirectory {
      assert DirectoryPuts(config, g, ds + [ts[k]]) == DirectoryPuts(config, g, ds) + [p];
      assert puts + (DirectoryPuts(config, g, ds) + [p]) == puts + DirectoryPuts(config, g, ds) + [p];
      StoredAppend(puts + DirectoryPuts(config, g, ds), p);
    } else {
      assert ds + [] == ds;
    }
  }

  lemma NoDirectoryPuts(config: Config, g: Geometry, ts: seq<Tree>, puts: seq<Put>)
    ensures puts + DirectoryPuts(config, g, Dirs(ts[..0])) == puts
  {
  }

  lemma PutsSplit(config: Config, g: Geometry, t: Tree, dirs: seq<Tree>)
    ensures Puts(config, g, [t] + dirs)
      == Puts(config, g, [t]) + DirectoryPuts(config, g, dirs)
  {
    hide DirectoryPut, BootRegion, UpcaseTable, VolumeOf, HeapSector;
    assert forall i :: 0 <= i < |dirs| ==> ([t] + dirs)[i + 1] == dirs[i];
  }

  lemma FirstPuts(config: Config, g: Geometry, t: Tree)
    ensures var region := BootRegion(VolumeOf(config, g, t.first), config.Serial());
      Stored(Puts(config, g, [t]))
      == map[] + WriteOf(Put(PARTITION_START, region)) + WriteOf(Put(PARTITION_START + BOOT_SECTORS, region))
         + WriteOf(DirectoryPut(config, g, t, true))
         + WriteOf(Put(HeapSector(g, UpcaseCluster(g.clusterCount)), UpcaseTable(config.strUpper)))
  {
    hide DirectoryPut, BootRegion, UpcaseTable, VolumeOf, HeapSector, WriteOf, Stored;
    var region := BootRegion(VolumeOf(config, g, t.first), config.Serial());
    var a, b := Put(PARTITION_START, region), Put(PARTITION_START + BOOT_SECTORS, region);
    var c := DirectoryPut(config, g, t, true);
    var d := Put(HeapSector(g, UpcaseCluster(g.clusterCount)), UpcaseTable(config.strUpper));
    NothingStored();
    StoredAppend([], a);
    StoredAppend([a], b);
    StoredAppend([a, b], c);
    StoredAppend([a, b, c], d);
    assert [] + [a] == [a] && [a] + [b] == [a, b] && [a, b] + [c] == [a, b, c] && [a, b, c] + [d] == [a, b, c, d];
    assert Puts(config, g, [t]) == [a, b, c, d];
  }

  lemma NothingStored()
    ensures Stored([]) == map[]
  {
  }

  lemma FilledAt(nodes: seq<Node>, m: map<Node, Numbers>, k: nat)
    requires AllMirror(nodes) && Synced(nodes, m) && k < |nodes|
    ensures var t := FilledAll(nodes, m)[k];
      t == Filled(nodes[k], m) && t.item == nodes[k].item &&
      t.first == nodes[k].firstCluster && t.count == nodes[k].clusterCount
  {
    hide Mirrors, Filled, NumbersOf;
    FilledFields(nodes[k], m);
  }

  // The build as a whole.

  /** What the scan delivers: a tree of distinct nodes whose files have no children. */
  ghost predicate Scanned(config: Config, root: Node) {
    && Mirrors(root) && Accepted(config, root.tree)
    && LeafFiles(NodeWalk([root])) && Distinct(NodeWalk([root]))
  }

  /** The nodes of the walk, with their clusters assigned. */
  function PlacedWalk(config: Config, root: Tree): seq<Tree> {
    Walk([PlacedRoot(config, root)])
  }

  lemma OneShape(root: Node)
    requires Mirrors(root)
    ensures AllMirror([root]) && Shapes([root]) == [root.tree]
    ensures Shapes(NodeWalk([root])) == Walk([root.tree])
    ensures |NodeWalk([root])| == |Walk([root.tree])|
    ensures forall j :: 0 <= j < |NodeWalk([root])| ==> NodeWalk([root])[j].tree == Walk([root.tree])[j]
  {
    WalkShapes([root]);
    assert Shapes([root]) == [root.tree];
  }

  lemma PlanFor(config: Config, root: Node)
    requires Scanned(config, root)
    ensures Planned(NodeWalk([root]), PlacedWalk(config, root.tree), BaseOf(config))
    ensures NextCluster(PlacedWalk(config, root.tree), BaseOf(config)) == NextCluster(Walk([root.tree]), BaseOf(config))
  {
    hide NodeWalk, Walk, Place, Placed, NextCluster, GeometryOf, SameNode, ClustersOf, BaseCluster, Mirrors, Accepted,
      LeafFiles;
    var walk, placed := NodeWalk([root]), PlacedWalk(config, root.tree);
    OneShape(root);
    PlacedTree(root.tree, BaseOf(config));
    forall j | 0 <= j < |walk|
      ensures placed[j].item == walk[j].item && ClustersOf(placed[j]) == ClustersOf(walk[j].tree)
    {
      assert SameNode(placed[j], Walk([root.tree])[j]);
      SameClusters(placed[j], walk[j].tree);
      SameItem(placed[j], walk[j].tree);
      MirrorItem(walk[j]);
    }
  }

  /** The snapshot of the assigned nodes fills the scanned tree up to the placed one. */
  lemma FilledRoot(config: Config, root: Node, m: map<Node, Numbers>)
    requires Scanned(config, root) && |NodeWalk([root])| == |PlacedWalk(config, root.tree)|
    requires forall j :: 0 <= j < |NodeWalk([root])| ==>
      NumbersOf(m, NodeWalk([root])[j])
        == Numbers(PlacedWalk(config, root.tree)[j].first, PlacedWalk(config, root.tree)[j].count)
    ensures Filled(root, m) == PlacedRoot(config, root.tree)
  {
    hide NodeWalk, Walk, Place, NextCluster, GeometryOf, SameNode, ClustersOf, BaseCluster, Mirrors, Accepted,
      LeafFiles, FirstFor, Filled, NumbersOf, Distinct;
    var walk, trees, base := NodeWalk([root]), Walk([root.tree]), BaseOf(config);
    OneShape(root);
    PlaceWalk([root.tree], trees, 0, base);
    var placed := Place([root.tree], trees, 0, base);
    assert placed == [placed[0]];
    assert Numbered(walk, m, trees, 0, base);
    FilledIsPlaced([root], m, trees, 0, base);
    assert FilledAll([root], m)[0] == Filled(root, m);
  }

  lemma FilledWalks(root: Node, m: map<Node, Numbers>)
    requires Mirrors(root) && root.item.isDirectory
    ensures AllMirror(root.children) && NodeWalk([root]) == [root] + NodeWalk(root.children)
    ensures Walk([Filled(root, m)]) == FilledAll(NodeWalk([root]), m)
    ensures Walk(Filled(root, m).children) == FilledAll(NodeWalk(root.children), m)
  {
    ChildShapes(root);
    NodeWalkUnfold([root]);
    assert [root][1..] == [];
    hide NodeWalk, Walk, Filled, Mirrors;
    FilledChildren(root, m);
    FilledWalk([root], m);
    FilledWalk(root.children, m);
    assert FilledAll([root], m) == [Filled(root, m)];
  }

  lemma RootItem(config: Config, root: Node)
    requires Scanned(config, root)
    ensures root.item.isDirectory
  {
    MirrorItem(root);
    IsDirectory(config, root.tree);
  }

  lemma RootPutIs(config: Config, g: Geometry, t: Tree)
    requires BitmapLength(g.clusterCount) >= 0
    ensures DirectoryPut(config, g, t, true)
      == Put(PARTITION_START + g.heapOffset + (t.first - 2) * SECTORS_PER_CLUSTER,
             DirectoryBytes(t, SpecialEntries(Special(config.volumeLabel, BITMAP_CLUSTER, BitmapLength(g.clusterCount),
                                                      UpcaseCluster(g.clusterCount), |UpcaseTable(config.strUpper)|,
                                                      Checksum(UpcaseTable(config.strUpper), {}, 0x1_0000_0000))),
                            config.strUpper))
  {
    hide DirectoryBytes, SpecialEntries, Checksum, UpcaseCluster;
  }

  class ExfatBuilder {
    const config: Config

    constructor (config: Config)
      ensures this.config == config
    {
      this.config := config;
    }

    /** Directories below the root, in the order of the walk. */
    method WriteDirectories(store: MetadataStore, root: Node, below: seq<Node>, g: Geometry,
            ghost m: map<Node, Numbers>, ghost puts: seq<Put>)
      requires Mirrors(root) && root.item.isDirectory && Built(config, Filled(root, m)) && g == Geo(config)
      requires AllMirror(root.children) && below == NodeWalk(root.children) && Synced(below, m)
      requires store.sectors == Stored(puts)
      modifies store
      ensures store.sectors == Stored(puts + DirectoryPuts(config, g, Dirs(FilledAll(below, m))))
    {
      hide *;
      ghost var trees := FilledAll(below, m);
      NoDirectoryPuts(config, g, trees, puts);
      for k := 0 to |below|
        invariant Synced(below, m)
        invariant store.sectors == Stored(puts + DirectoryPuts(config, g, Dirs(trees[..k])))
      {
        var node := below[k];
        FilledAt(below, m, k);
        DirectoryPutsStep(config, g, trees, k, puts);
        if node.item.isDirectory {
          ReadyChildren(config, root, below, m, node);
          var data := PrintDirectory(node, [], m, config.strUpper);
          DirectoryPutIs(config, g, trees[k]);
          store.PutClusterBytes(g.heapOffset, node.firstCluster, data);
        }
      }
      assert trees[..|below|] == trees;
    }

    /** All metadata sectors, in the order in which the build writes them. */
    method WriteMetadata(root: Node, below: seq<Node>, g: Geometry, ghost m: map<Node, Numbers>)
      returns (store: MetadataStore)
      requires Mirrors(root) && root.item.isDirectory && Built(config, Filled(root, m)) && g == Geo(config)
      requires AllMirror(root.children) && below == NodeWalk(root.children) && Synced(below, m) && Synced([root], m)
      ensures fresh(store)
      ensures store.sectors == Stored(Puts(config, g, [Filled(root, m)] + Dirs(FilledAll(below, m))))
    {
      hide *;
      ghost var t := Filled(root, m);
      RootAt(root, m);
      RootFields(config, t);
      store := new MetadataStore();
      store.PutBootRegions(VolumeOf(config, g, root.firstCluster), config.Serial());
      var upcase := UpcaseTable(config.strUpper);
      RootPutIs(config, g, t);
      var lead := RootEntries(config.volumeLabel, BITMAP_CLUSTER, BitmapLength(g.clusterCount),
        UpcaseCluster(g.clusterCount), |upcase|, upcase);
      ReadyChildren(config, root, below, m, root);
      var rootBytes := PrintDirectory(root, lead, m, config.strUpper);
      HeapSectorIs(g, UpcaseCluster(g.clusterCount));
      store.PutClusterBytes(g.heapOffset, root.firstCluster, rootBytes);
      store.PutClusterBytes(g.heapOffset, UpcaseCluster(g.clusterCount), upcase);
      FirstPuts(config, g, t);
      assert store.sectors == Stored(Puts(config, g, [t]));
      WriteDirectories(store, root, below, g, m, Puts(config, g, [t]));
      PutsSplit(config, g, t, Dirs(FilledAll(below, m)));
    }

    /** The records of all nodes below the root. */
    method EntryRecords(below: seq<Node>, ghost m: map<Node, Numbers>) returns (entries: seq<Entry>)
      requires AllMirror(below) && Synced(below, m)
      ensures entries == EntriesOf(config, FilledAll(below, m))
    {
      hide FilledAll, Synced, AllMirror, EntriesOf;
      ghost var trees := FilledAll(below, m);
      NoEntries(config, trees);
      entries := [];
      for k := 0 to |below|
        invariant entries == EntriesOf(config, trees[..k])
      {
        var node := below[k];
        FilledAt(below, m, k);
        EntriesStep(config, trees, k);
        entries := entries + [Entry(node.item.path, node.item.source, node.item.name,
          node.item.isDirectory, node.item.size, node.firstCluster, node.clusterCount,
          config.FileId(node.item.path), "")];
      }
      assert trees[..|below|] == trees;
    }

    /** Both passes over the tree. */
    method AssignClusters(walk: seq<Node>, ghost placed: seq<Tree>, base: nat)
      returns (next: nat, mappings: seq<FileMapping>)
      requires Planned(walk, placed, base)
      modifies walk
      ensures next == NextCluster(placed, base) && mappings == MappingsOf(Files(placed))
      ensures forall j :: 0 <= j < |walk| ==> Carries(walk[j], placed[j])
    {
      hide *;
      next := AssignDirectories(walk, placed, base);
      next, mappings := AssignFiles(walk, placed, base, next);
    }

    /** Everything that follows once the clusters suffice. */
    method LayOut(root: Node, walk: seq<Node>, below: seq<Node>, g: Geometry, mappings: seq<FileMapping>,
            ghost m: map<Node, Numbers>)
      returns (layout: Layout)
      requires Scanned(config, root) && walk == NodeWalk([root])
      requires AllMirror(root.children) && below == NodeWalk(root.children)
      requires g == Geo(config) && Built(config, Filled(root, m)) && Synced(walk, m)
      requires Planned(walk, Walk([Filled(root, m)]), BaseOf(config))
      requires forall j :: 0 <= j < |walk| ==> Carries(walk[j], Walk([Filled(root, m)])[j])
      requires mappings == MappingsOf(Files(Walk([Filled(root, m)])))
      ensures layout == LayoutOf(config, Filled(root, m), layout.hotRanges)
      ensures ExactlySectors(layout.hotRanges, layout.metadata.Keys)
    {
      hide *;
      ScannedParts(config, root);
      ghost var t := Filled(root, m);
      FilledWalks(root, m);
      SyncedParts(root, walk, below, m);
      RootAt(root, m);
      GeoBase(config);
      LayoutNats(g);
      PlannedLength(walk, Walk([t]), BaseOf(config));
      var runs := AllocatedRanges(root, mappings, g.clusterCount, walk, Walk([t]));
      var store := WriteMetadata(root, below, g, m);
      var entries := EntryRecords(below, m);
      var hotRanges := Collapse(store.sectors.Keys);
      layout := Layout(
        config.totalBytes,
        config.totalBytes / SECTOR_SIZE,
        PARTITION_START,
        FAT_OFFSET,
        Max(0, g.fatLength),
        Max(0, g.heapOffset),
        Max(0, g.clusterCount),
        root.firstCluster,
        BITMAP_CLUSTER,
        Max(0, BitmapLength(g.clusterCount)),
        UpcaseCluster(g.clusterCount),
        UPCASE_TABLE_BYTES,
        store.sectors,
        mappings,
        entries,
        hotRanges,
        runs);
      LayoutIs(config, t, layout);
    }

    /** Builds the layout of a scanned tree, or raises when its clusters do not fit the image. */
    method Build(root: Node) returns (r: Result<Layout, BuildError>)
      requires Scanned(config, root)
      modifies NodeWalk([root])
      ensures r.Ok? <==> FitsImage(config, root.tree)
      ensures r.Err? ==> r.error == FilesDoNotFit
      ensures r.Ok? ==>
        && r.value == LayoutOf(config, PlacedRoot(config, root.tree), r.value.hotRanges)
        && ExactlySectors(r.value.hotRanges, r.value.metadata.Keys)
      ensures |NodeWalk([root])| == |PlacedWalk(config, root.tree)|
      ensures forall j :: 0 <= j < |NodeWalk([root])| ==> Carries(NodeWalk([root])[j], PlacedWalk(config, root.tree)[j])
    {
      hide *;
      ScannedParts(config, root);
      PlanFor(config, root);
      ghost var placed := PlacedWalk(config, root.tree);
      var walk := NodeWalk([root]);
      PlannedLength(walk, placed, BaseOf(config));
      GeoBase(config);
      var g := ComputeGeometry(config.totalBytes / SECTOR_SIZE);
      var next, mappings := AssignClusters(walk, placed, BaseCluster(g.clusterCount));
      FitsWhen(config, root);
      if next - 2 > g.clusterCount {
        return Err(FilesDoNotFit);
      }
      ghost var m := Snapshot(walk);
      SnapshotCarries(config, root, walk, placed, m);
      PlacedFill(config, root, m);
      var layout := LayOut(root, walk, NodeWalk(root.children), g, mappings, m);
      r := Ok(layout);
    }
  }

  /** Checks the image size before a builder exists. */
  method CreateBuilder(config: Config) returns (r: Result<ExfatBuilder, BuildError>)
    ensures config.totalBytes % SECTOR_SIZE != 0 ==> r == Err(UnalignedSize)
    ensures config.totalBytes % SECTOR_SIZE == 0 && config.totalBytes <= 2 * REGION_BYTES ==> r == Err(ImageTooSmall)
    ensures config.totalBytes % SECTOR_SIZE == 0 && config.totalBytes > 2 * REGION_BYTES ==>
      r.Ok? && r.value.config == config
  {
    var totalSectors := config.totalBytes / SECTOR_SIZE;
    if config.totalBytes % SECTOR_SIZE != 0 {
      return Err(UnalignedSize);
    }
    if totalSectors <= PARTITION_START + 2 * BOOT_SECTORS {
      return Err(ImageTooSmall);
    }
    var builder := new ExfatBuilder(config);
    r := Ok(builder);
  }

  lemma NoEntries(config: Config, ts: seq<Tree>)
    ensures EntriesOf(config, ts[..0]) == []
  {
  }

  lemma EntriesStep(config: Config, ts: seq<Tree>, k: nat)
    requires k < |ts|
    ensures EntriesOf(config, ts[..k + 1]) == EntriesOf(config, ts[..k]) + [EntryOf(config, ts[k])]
  {
  }

  lemma ScannedParts(config: Config, root: Node)
    requires Scanned(config, root)
    ensures Mirrors(root) && AllMirror([root]) && AllMirror(root.children) && root.item.isDirectory
    ensures LeafFiles(NodeWalk([root]))
  {
    RootItem(config, root);
    ChildShapes(root);
  }

  lemma SyncedParts(root: Node, walk: seq<Node>, below: seq<Node>, m: map<Node, Numbers>)
    requires walk == [root] + below && Synced(walk, m)
    ensures Synced([root], m) && Synced(below, m)
  {
    hide NumbersOf;
    assert walk[0] == root;
    assert forall i :: 0 <= i < |below| ==> below[i] == walk[i + 1];
  }

  lemma GeoBase(config: Config)
    ensures Geo(config) == GeometryOf(config.totalBytes / SECTOR_SIZE)
    ensures BaseOf(config) == BaseCluster(Geo(config).clusterCount)
    ensures SECTOR_SIZE == 512
  {
    hide GeometryOf;
  }

  lemma LayoutNats(g: Geometry)
    ensures PARTITION_START == 0 && FAT_OFFSET == 2048 && BITMAP_CLUSTER == 2 && UPCASE_TABLE_BYTES == 131072
    ensures forall x: int :: Max(0, x) >= 0
  {
  }

  lemma FitsWhen(config: Config, root: Node)
    requires Mirrors(root)
    ensures FitsImage(config, root.tree) <==>
      NextCluster(Walk([root.tree]), BaseOf(config)) - 2 <= Geo(config).clusterCount
  {
    hide GeometryOf, Walk, NextCluster;
  }

  /** The cluster numbers that the nodes carry now. */
  ghost function Snapshot(walk: seq<Node>): map<Node, Numbers>
    reads walk
  {
    map n | n in walk :: Numbers(n.firstCluster, n.clusterCount)
  }

  lemma SnapshotCarries(config: Config, root: Node, walk: seq<Node>, placed: seq<Tree>, m: map<Node, Numbers>)
    requires |walk| == |placed| && m == Snapshot(walk)
    requires forall j :: 0 <= j < |walk| ==> Carries(walk[j], placed[j])
    ensures Synced(walk, m)
    ensures forall j :: 0 <= j < |walk| ==> NumbersOf(m, walk[j]) == Numbers(placed[j].first, placed[j].count)
  {
  }

  lemma PlacedFill(config: Config, root: Node, m: map<Node, Numbers>)
    requires Scanned(config, root) && FitsImage(config, root.tree)
    requires |NodeWalk([root])| == |PlacedWalk(config, root.tree)|
    requires forall j :: 0 <= j < |NodeWalk([root])| ==>
      NumbersOf(m, NodeWalk([root])[j])
        == Numbers(PlacedWalk(config, root.tree)[j].first, PlacedWalk(config, root.tree)[j].count)
    ensures Filled(root, m) == PlacedRoot(config, root.tree)
    ensures Walk([Filled(root, m)]) == PlacedWalk(config, root.tree)
    ensures Built(config, Filled(root, m))
  {
    hide NodeWalk, Walk, GeometryOf, Filled, NumbersOf, Built, FitsImage, PlacedRoot, Accepted, LeafFiles, Distinct,
      Mirrors;
    FilledRoot(config, root, m);
    PlacingBuilds(config, root.tree);
  }

  lemma LayoutIs(config: Config, t: Tree, l: Layout)
    requires Built(config, t)
    requires l.totalBytes == config.totalBytes && l.totalSectors == config.totalBytes / SECTOR_SIZE
    requires l.partitionStart == PARTITION_START && l.fatOffset == FAT_OFFSET
    requires l.fatLength == Max(0, Geo(config).fatLength) && l.heapOffset == Max(0, Geo(config).heapOffset)
    requires l.clusterCount == Max(0, Geo(config).clusterCount) && l.rootCluster == t.first
    requires l.bitmapCluster == BITMAP_CLUSTER && l.bitmapLength == Max(0, BitmapLength(Geo(config).clusterCount))
    requires l.upcaseCluster == UpcaseCluster(Geo(config).clusterCount) && l.upcaseLength == UPCASE_TABLE_BYTES
    requires l.metadata == Stored(Puts(config, Geo(config), [t] + Dirs(Walk(t.children))))
    requires l.mappings == MappingsOf(Files(Walk([t]))) && l.entries == EntriesOf(config, Walk(t.children))
    requires l.runs == AllocatedRuns(Walk([t]), Geo(config).clusterCount)
    ensures l == LayoutOf(config, t, l.hotRanges)
  {
    hide GeometryOf, Stored, Puts, Walk, AllocatedRuns, MappingsOf, EntriesOf, Select, Built;
  }

  lemma HeapSectorIs(g: Geometry, cluster: int)
    ensures HeapSector(g, cluster) == PARTITION_START + g.heapOffset + (cluster - 2) * SECTORS_PER_CLUSTER
  {
  }

  lemma RootAt(root: Node, m: map<Node, Numbers>)
    requires Mirrors(root) && Synced([root], m)
    ensures Filled(root, m).first == root.firstCluster
  {
    FilledAt([root], m, 0);
  }

  /** The numbers of the root's special entries and of the boot sector fit their fields. */
  lemma RootFields(config: Config, t: Tree)
    requires Built(config, t)
    ensures var g := Geo(config);
      && FitsFields(VolumeOf(config, g, t.first))
      && 0 <= BitmapLength(g.clusterCount) < 0x1_0000_0000_0000_0000
      && UpcaseCluster(g.clusterCount) < 0x1_0000_0000
      && |UpcaseTable(config.strUpper)| == UPCASE_TABLE_BYTES < 0x1_0000_0000 && BITMAP_CLUSTER == 2
  {
    hide Built, GeometryOf, VolumeOf, Plausible, FitsFields;
    VolumeNumbers(config, t);
    GeoNumbers(config, t);
  }
}
