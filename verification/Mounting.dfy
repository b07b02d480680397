/** The mount round trip, and exactly when it holds. */
module Mounting {
  import opened Allocation
  import opened Boot
  import opened Bytes
  import opened Consts
  import opened Directory
  import opened DirectoryReader
  import opened Geometry
  import opened Layouts
  import opened Names
  import opened Plan
  import opened Reader
  import opened Runs
  import opened Served
  import opened ServedImage
  import opened Sorting
  import opened Streams
  import opened Trees
  import opened Wrappers

  /** What the console should see of a scanned tree: children sorted by name, files with exactly
      their scanned size of source bytes. */
  function Expected(t: Tree, sources: Sources): Mounted
    decreases t
  {
    if t.item.isDirectory then
      var sorted := Sort(t.children, ByName);
      MountedDir(t.item.name, seq(|sorted|, i requires 0 <= i < |sorted| =>
        assert sorted[i] in multiset(sorted);
        assert sorted[i] in t.children;
        Expected(sorted[i], sources)))
    else MountedFile(t.item.name, FileData(Content(sources, t.item.source), t.item.size))
  }

  function ExpectedAll(ts: seq<Tree>, sources: Sources): (r: seq<Mounted>)
    ensures |r| == |ts|
  {
    seq(|ts|, i requires 0 <= i < |ts| => Expected(ts[i], sources))
  }

  function ExpectedVolume(root: Tree, sources: Sources): seq<Mounted> {
    ExpectedAll(Sort(root.children, ByName), sources)
  }

  lemma ExpectedDir(t: Tree, sources: Sources)
    requires t.item.isDirectory
    ensures Expected(t, sources) == MountedDir(t.item.name, ExpectedAll(Sort(t.children, ByName), sources))
  {
    assert Expected(t, sources).children == ExpectedAll(Sort(t.children, ByName), sources);
  }

  /** Everything about one image that the lemmas below share. */
  datatype Setting = Setting(config: Config, root: Tree, hot: seq<Range>, sources: Sources) {
    function Image(): seq<byte> {
      ImageOf(config, root, hot, sources)
    }

    function Vol(): Volume {
      VolumeFor(config, root)
    }

    function Table(): (table: seq<byte>)
      ensures |table| == UPCASE_TABLE_BYTES
    {
      UpcaseTable(config.strUpper)
    }

    function FatEntries(): int {
      FAT_ENTRIES_PER_SECTOR * Geo(config).fatLength
    }

    ghost predicate Valid() {
      Built(config, root) && Plausible(Vol(), |Image()|)
    }

    /** The node is served as it should be: its chain is complete, and its stream holds what belongs there. */
    ghost predicate NodeOk(t: Tree)
      requires Valid()
    {
      && t.first + t.count <= FatEntries()
      && (t.item.isDirectory ==> NoEntryLost(t))
      && (!t.item.isDirectory ==>
          match ReadStream(Image(), Vol(), t.first)
          case None => false
          case Some(s) =>
            t.item.size <= |s| && s[..t.item.size] == FileData(Content(sources, t.item.source), t.item.size))
    }

    ghost predicate AllOk(ts: seq<Tree>)
      requires Valid()
    {
      forall t :: t in ts ==> NodeOk(t)
    }

    function MountNode(t: Tree, depth: nat): Option<Mounted>
      requires Valid()
    {
      MountRecord(Image(), Vol(), Table(), RecordOf(t), depth)
    }

    ghost predicate Right(t: Tree, depth: nat)
      requires Valid()
    {
      MountNode(t, depth) == Some(Expected(t, sources))
    }
  }

  lemma SettingValid(s: Setting)
    requires Built(s.config, s.root)
    ensures s.Valid()
  {
    hide Built, Plausible, GeometryOf, VolumeOf, ImageOf;
    VolumeNumbers(s.config, s.root);
  }

  // Lists of records.

  /** A list mounts as expected exactly when each of its nodes does. */
  lemma {:induction false} RecordsRight(s: Setting, ts: seq<Tree>, depth: nat)
    requires s.Valid()
    ensures MountRecords(s.Image(), s.Vol(), s.Table(), Records(ts), depth) == Some(ExpectedAll(ts, s.sources))
      <==> forall i :: 0 <= i < |ts| ==> s.Right(ts[i], depth)
  {
    hide Built, Plausible, Setting.Image, Setting.Vol, Setting.Table, Setting.Right, ExpectedAll, Records, MountRecords;
    if ts == [] {
      NoRecords(s, depth);
    } else {
      RecordsRight(s, ts[1..], depth);
      RecordsStep(s, ts, depth);
      if forall i :: 0 <= i < |ts| ==> s.Right(ts[i], depth) {
        forall i | 0 <= i < |ts[1..]| ensures s.Right(ts[1..][i], depth) {
          assert ts[1..][i] == ts[i + 1];
        }
      }
      if s.Right(ts[0], depth) && forall i :: 0 <= i < |ts[1..]| ==> s.Right(ts[1..][i], depth) {
        forall i | 0 <= i < |ts| ensures s.Right(ts[i], depth) {
          if i > 0 {
            assert s.Right(ts[1..][i - 1], depth);
          }
        }
      }
    }
  }

  lemma NoRecords(s: Setting, depth: nat)
    requires s.Valid()
    ensures MountRecords(s.Image(), s.Vol(), s.Table(), Records([]), depth) == Some(ExpectedAll([], s.sources))
  {
    assert ExpectedAll([], s.sources) == [];
  }

  lemma RecordsStep(s: Setting, ts: seq<Tree>, depth: nat)
    requires s.Valid() && ts != []
    ensures MountRecords(s.Image(), s.Vol(), s.Table(), Records(ts), depth) == Some(ExpectedAll(ts, s.sources))
      <==> (s.Right(ts[0], depth)
            && MountRecords(s.Image(), s.Vol(), s.Table(), Records(ts[1..]), depth)
               == Some(ExpectedAll(ts[1..], s.sources)))
  {
    hide Built, Plausible, Setting.Image, Setting.Vol, Setting.Table, MountRecord, Expected, RecordOf;
    assert Records(ts)[1..] == Records(ts[1..]);
    assert Records(ts)[0] == RecordOf(ts[0]);
    var e := ExpectedAll(ts, s.sources);
    assert e[0] == Expected(ts[0], s.sources) && e[1..] == ExpectedAll(ts[1..], s.sources);
    var rest := MountRecords(s.Image(), s.Vol(), s.Table(), Records(ts[1..]), depth);
    var first := s.MountNode(ts[0], depth);
    if first.Some? && rest.Some? {
      var all := [first.value] + rest.value;
      assert all[0] == first.value && all[1..] == rest.value;
      assert all == e <==> first.value == e[0] && rest.value == e[1..];
    }
  }

  // Walks.

  lemma {:induction false} WalkMembers(ts: seq<Tree>, t: Tree)
    ensures t in Walk(ts) <==> exists i :: 0 <= i < |ts| && t in Walk([ts[i]])
  {
    if ts != [] {
      WalkMembers(ts[1..], t);
      WalkOne(ts[0]);
      WalkUnfold(ts);
      hide Walk, Below;
      if i :| 0 <= i < |ts[1..]| && t in Walk([ts[1..][i]]) {
        assert ts[i + 1] == ts[1..][i];
      }
      if i :| 0 <= i < |ts| && t in Walk([ts[i]]) {
        assert i > 0 ==> ts[1..][i - 1] == ts[i];
      }
    }
  }

  /** All nodes below a list are fine exactly when they are below each of its elements. */
  lemma AllOkEach(s: Setting, ts: seq<Tree>)
    requires s.Valid()
    ensures s.AllOk(Walk(ts)) <==> forall i :: 0 <= i < |ts| ==> s.AllOk(Walk([ts[i]]))
  {
    hide Setting.Valid, Setting.NodeOk, Walk;
    forall t ensures t in Walk(ts) <==> exists i :: 0 <= i < |ts| && t in Walk([ts[i]]) {
      WalkMembers(ts, t);
    }
  }

  /** The number of directories bounds the depth. */
  lemma {:induction false} FewerDirs(ts: seq<Tree>, i: nat)
    requires i < |ts|
    ensures |Dirs(Walk([ts[i]]))| <= |Dirs(Walk(ts))|
  {
    WalkUnfold(ts);
    WalkOne(ts[0]);
    hide Walk, Below, Dirs;
    var first := [ts[0]] + Below(ts[0]);
    DirsAppend(first, Walk(ts[1..]));
    if i > 0 {
      FewerDirs(ts[1..], i - 1);
      assert ts[1..][i - 1] == ts[i];
    }
  }

  lemma {:induction false} DirsAppend(a: seq<Tree>, b: seq<Tree>)
    ensures |Dirs(a + b)| == |Dirs(a)| + |Dirs(b)|
  {
    if b == [] {
      assert a + b == a;
    } else {
      DirsAppend(a, b[..|b| - 1]);
      assert (a + b)[..|a + b| - 1] == a + b[..|b| - 1];
    }
  }

  lemma DirsBelow(t: Tree)
    requires t.item.isDirectory
    ensures |Dirs(Walk([t]))| == 1 + |Dirs(Walk(t.children))|
  {
    RootFirst(t);
  }

  // Printable nodes.

  lemma VisitedPrintable(config: Config, root: Tree, t: Tree)
    requires Built(config, root) && t in Walk(root.children)
    ensures Printable(t)
    ensures t.count == ClustersOf(t)
    ensures t.first + t.count <= Next(config, root)
    ensures exists i ::
      0 <= i < |Select(Walk([root]), t.item.isDirectory)| && Select(Walk([root]), t.item.isDirectory)[i] == t
  {
    hide GeometryOf, Walk, Select, Next, FileBase, Placed, FitsImage, ClustersOf, BaseCluster;
    var kind := t.item.isDirectory;
    RootFirst(root);
    SelectMembers(Walk([root]), kind);
    assert t in Walk([root]);
    CountOf(config, root, t);
    var i :| 0 <= i < |Select(Walk([root]), kind)| && Select(Walk([root]), kind)[i] == t;
    FileBaseBounded(config, root);
    if kind {
      DirectoryOrder(config, root, i);
    } else {
      FileOrder(config, root, i);
    }
    GeoNumbers(config, root);
    SizeBounded(t);
  }

  lemma SizeBounded(t: Tree)
    requires t.count == ClustersOf(t) && t.count < 0x200_0000
    ensures DataLength(t) < 0x1_0000_0000_0000_0000
    ensures DataLength(t) <= t.count * CLUSTER_SIZE
    ensures t.item.isDirectory ==> DataLength(t) == t.count * CLUSTER_SIZE
  {
  }

  // Directories and files.

  lemma LeadFits(config: Config, root: Tree, i: nat)
    requires Built(config, root) && i < |DirsOf(root)|
    ensures var t := DirsOf(root)[i];
      var lead := Lead(config, Geo(config), i == 0);
      && AllPrintable(t.children)
      && |lead| == (if t.item.path == "" then 3 * ENTRY_SIZE else 0)
      && LeadOk(lead, SpecialOf(config, Geo(config)))
  {
    hide GeometryOf, Walk, Select, Placed, FitsImage, Printable, NameFits, SpecialEntries, SpecialOf;
    Tilings(config, root);
    RootPath(config, root);
    Visited(config, root, true, i);
    ChildNames(config, root, i);
    forall c | c in DirsOf(root)[i].children ensures Printable(c) {
      VisitedPrintable(config, root, c);
    }
  }

  /** The reserved part of a printed directory parses to its sorted children exactly when no entry is lost. */
  lemma DirectoryParses(config: Config, root: Tree, i: nat)
    requires Built(config, root) && i < |DirsOf(root)|
    ensures var t := DirsOf(root)[i];
      var keep := t.count * CLUSTER_SIZE;
      && keep <= |BytesOf(config, root, i)|
      && (var r := ParseEntries(BytesOf(config, root, i)[..keep], UpcaseTable(config.strUpper));
          if NoEntryLost(t) then r == Some(Records(Sort(t.children, ByName)))
          else r.Some? ==> |r.value| < |t.children|)
  {
    hide Built, GeometryOf, DirsOf, ParseEntries, UpcaseTable, DirectoryBytes, DirectoryBody, AllPrintable, Lead,
      LeadOk, Records, Sort, SpecialOf, DirectoryClusters, NoEntryLost;
    var t := DirsOf(root)[i];
    var lead := Lead(config, Geo(config), i == 0);
    DirectorySize(config, root, i);
    LeadFits(config, root, i);
    ChildNames(config, root, i);
    KeepIff(t, lead, config.strUpper);
    DirectoryRoundTrip(t, lead, SpecialOf(config, Geo(config)), t.count * CLUSTER_SIZE, config.strUpper);
  }

  lemma KeepIff(t: Tree, lead: seq<byte>, strUpper: u16 -> seq<nat>)
    requires t.count == DirectoryClusters(t)
    requires forall c :: c in t.children ==> NameFits(c.item.name)
    requires |lead| == if t.item.path == "" then 3 * ENTRY_SIZE else 0
    ensures NoEntryLost(t) <==> |DirectoryBody(t, lead, strUpper)| <= t.count * CLUSTER_SIZE
    ensures |lead| <= t.count * CLUSTER_SIZE && t.count * CLUSTER_SIZE % ENTRY_SIZE == 0
  {
    ReservedPositive(t);
    hide DirectoryBody, EntryCount, DirectoryClusters, NameFits;
    ExactDirectorySize(t, lead, strUpper);
  }

  lemma ReservedPositive(t: Tree)
    ensures DirectoryClusters(t) >= 1
  {
  }

  /** The contents of a directory mount as expected exactly when no entry is lost and each child mounts. */
  lemma ContentsRight(s: Setting, i: nat, depth: nat)
    requires s.Valid() && i < |DirsOf(s.root)|
    requires DirsOf(s.root)[i].count * CLUSTER_SIZE <= |BytesOf(s.config, s.root, i)|
    ensures var t := DirsOf(s.root)[i];
      var sorted := Sort(t.children, ByName);
      MountStream(s.Image(), s.Vol(), s.Table(), BytesOf(s.config, s.root, i)[..t.count * CLUSTER_SIZE], depth)
        == Some(ExpectedAll(sorted, s.sources))
      <==> NoEntryLost(t) && forall k :: 0 <= k < |sorted| ==> s.Right(sorted[k], depth)
  {
    hide Built, Plausible, Setting.Image, Setting.Vol, UpcaseTable, Setting.Right, ExpectedAll, Records, MountRecords,
      ParseEntries, BytesOf, NoEntryLost, DirsOf, Sort;
    DirectoryParses(s.config, s.root, i);
    RecordsRight(s, Sort(DirsOf(s.root)[i].children, ByName), depth);
  }

  ghost predicate EachOk(s: Setting, ts: seq<Tree>)
    requires s.Valid()
  {
    forall i :: 0 <= i < |ts| ==> s.AllOk(Walk([ts[i]]))
  }

  lemma PermutedEach(s: Setting, a: seq<Tree>, b: seq<Tree>)
    requires s.Valid() && multiset(a) == multiset(b) && EachOk(s, a)
    ensures EachOk(s, b)
  {
    hide Setting.Valid, Setting.AllOk, Walk;
    forall i | 0 <= i < |b| ensures s.AllOk(Walk([b[i]])) {
      assert b[i] in multiset(b);
      assert b[i] in a;
    }
  }

  lemma SortedAll(s: Setting, ts: seq<Tree>)
    requires s.Valid()
    ensures s.AllOk(Walk(ts)) <==> EachOk(s, Sort(ts, ByName))
  {
    hide Setting.Valid, Setting.AllOk, Walk, Sort;
    var sorted := Sort(ts, ByName);
    assert s.AllOk(Walk(ts)) <==> EachOk(s, ts) by {
      AllOkEach(s, ts);
    }
    if EachOk(s, ts) {
      PermutedEach(s, ts, sorted);
    }
    if EachOk(s, sorted) {
      PermutedEach(s, sorted, ts);
    }
  }

  /** Everything below a list is fine exactly when it is below each element of the sorted list. */
  lemma SortedEach(s: Setting, ts: seq<Tree>)
    requires s.Valid()
    ensures var sorted := Sort(ts, ByName);
      s.AllOk(Walk(ts)) <==> forall i :: 0 <= i < |sorted| ==> s.AllOk(Walk([sorted[i]]))
  {
    hide Setting.Valid, Setting.AllOk, Walk, Sort;
    SortedAll(s, ts);
  }

  lemma FileRecord(image: seq<byte>, v: Volume, table: seq<byte>, r: Record, depth: nat)
    requires Plausible(v, |image|) && |table| == UPCASE_TABLE_BYTES && !r.isDirectory
    ensures MountRecord(image, v, table, r, depth)
      == match ReadStream(image, v, r.first)
         case None => None
         case Some(stream) => if r.length > |stream| then None else Some(MountedFile(r.name, stream[..r.length]))
  {
    hide Plausible, ReadStream;
  }

  /** A file mounts as expected exactly when it is served as it should be. */
  lemma FileRight(s: Setting, t: Tree, depth: nat)
    requires s.Valid() && t in Walk(s.root.children) && !t.item.isDirectory
    ensures s.Right(t, depth) <==> s.AllOk(Walk([t]))
  {
    hide Built, Plausible, Walk, Setting.Image, Setting.Vol, ReadStream, Setting.FatEntries, Content, FileData,
      MountRecord, Below, Setting.NodeOk;
    WalkOne(t);
    NothingBelow(t);
    assert s.AllOk([t]) <==> s.NodeOk(t);
    assert [t] + [] == [t];
    FileRecord(s.Image(), s.Vol(), s.Table(), RecordOf(t), depth);
    FileOk(s, t);
  }

  lemma NothingBelow(t: Tree)
    requires !t.item.isDirectory
    ensures Below(t) == []
  {
  }

  lemma FileOk(s: Setting, t: Tree)
    requires s.Valid() && t in Walk(s.root.children) && !t.item.isDirectory
    ensures s.NodeOk(t) <==>
      match ReadStream(s.Image(), s.Vol(), t.first)
      case None => false
      case Some(stream) =>
        t.item.size <= |stream| && stream[..t.item.size] == FileData(Content(s.sources, t.item.source), t.item.size)
  {
    hide Built, Plausible, Walk, Setting.Image, Setting.Vol, ReadStream, Setting.FatEntries, Content, FileData, FilesOf;
    var k := FileIndex(s, t);
    FileReads(s, k);
  }

  lemma FileIndex(s: Setting, t: Tree) returns (k: nat)
    requires s.Valid() && t in Walk(s.root.children) && !t.item.isDirectory
    ensures k < |FilesOf(s.root)| && FilesOf(s.root)[k] == t
  {
    hide GeometryOf, Walk, Select, Printable, ClustersOf, Plausible, Next;
    VisitedPrintable(s.config, s.root, t);
    k :| 0 <= k < |Select(Walk([s.root]), false)| && Select(Walk([s.root]), false)[k] == t;
  }

  /** A file stream is complete or missing, and long enough. */
  lemma FileReads(s: Setting, k: nat)
    requires s.Valid() && k < |FilesOf(s.root)|
    ensures var t := FilesOf(s.root)[k];
      match ReadStream(s.Image(), s.Vol(), t.first)
      case None => t.first + t.count > s.FatEntries()
      case Some(stream) => t.first + t.count <= s.FatEntries() && t.item.size <= |stream|
  {
    hide Built, Plausible, GeometryOf, RunsFor, ReadStream, ImageOf, HeapSector;
    RunAt(s.config, s.root, false, k);
    FileHolds(s.config, s.root, k);
    hide FilesOf;
    RunSlice(s.config, s.root, s.hot, s.sources, RunIndex(s.root, false, k));
  }

  /** Every file run holds the file. */
  lemma FileHolds(config: Config, root: Tree, k: nat)
    requires Built(config, root) && k < |FilesOf(root)|
    ensures FilesOf(root)[k].item.size <= FilesOf(root)[k].count * CLUSTER_SIZE
  {
    hide GeometryOf, Walk, Select, FitsImage, Accepted, Placed;
    Visited(config, root, false, k);
  }

  lemma DirRecord(image: seq<byte>, v: Volume, table: seq<byte>, r: Record, depth: nat)
    requires Plausible(v, |image|) && |table| == UPCASE_TABLE_BYTES && r.isDirectory && depth > 0
    ensures MountRecord(image, v, table, r, depth)
      == match ReadStream(image, v, r.first)
         case None => None
         case Some(stream) =>
           if r.length > |stream| then None
           else
             match MountStream(image, v, table, stream[..r.length], depth - 1)
             case None => None
             case Some(children) => Some(MountedDir(r.name, children))
  {
    hide Plausible, ReadStream, MountStream;
  }

  lemma DirIndex(s: Setting, t: Tree) returns (k: nat)
    requires s.Valid() && t in Walk(s.root.children) && t.item.isDirectory
    ensures k < |DirsOf(s.root)| && DirsOf(s.root)[k] == t
    ensures DataLength(t) == t.count * CLUSTER_SIZE
  {
    hide GeometryOf, Walk, Select, Printable, ClustersOf, Plausible, Next;
    VisitedPrintable(s.config, s.root, t);
    k :| 0 <= k < |Select(Walk([s.root]), true)| && Select(Walk([s.root]), true)[k] == t;
  }

  /** The stream of directory `k` leads to the expected children exactly when its chain is complete,
      none of its entries is lost, and each child mounts. */
  lemma StreamRight(s: Setting, k: nat, depth: nat)
    requires s.Valid() && k < |DirsOf(s.root)|
    ensures var t := DirsOf(s.root)[k];
      var sorted := Sort(t.children, ByName);
      (match ReadStream(s.Image(), s.Vol(), t.first)
       case None => false
       case Some(stream) =>
         && |stream| == t.count * CLUSTER_SIZE
         && MountStream(s.Image(), s.Vol(), s.Table(), stream, depth) == Some(ExpectedAll(sorted, s.sources)))
      <==> (t.first + t.count <= s.FatEntries() && NoEntryLost(t)
            && forall i :: 0 <= i < |sorted| ==> s.Right(sorted[i], depth))
  {
    hide Built, Plausible, ReadStream, MountStream, Setting.Right, ExpectedAll, NoEntryLost, DirsOf, BytesOf, Sort,
      VolumeOf, ImageOf, UpcaseTable;
    DirectoryStream(s.config, s.root, s.hot, s.sources, k);
    ContentsRight(s, k, depth);
  }

  /** A directory mounts as expected exactly when it is served as it should be and its children mount. */
  lemma DirRight(s: Setting, t: Tree, depth: nat)
    requires s.Valid() && t in Walk(s.root.children) && t.item.isDirectory && depth > 0
    ensures var sorted := Sort(t.children, ByName);
      s.Right(t, depth) <==> s.NodeOk(t) && forall i :: 0 <= i < |sorted| ==> s.Right(sorted[i], depth - 1)
  {
    hide Built, Plausible, ReadStream, MountStream, MountRecord, ExpectedAll, NoEntryLost, DirsOf, Sort, Setting.Image,
      Setting.Vol, UpcaseTable, Walk, Setting.FatEntries, Expected;
    var k := DirIndex(s, t);
    StreamRight(s, k, depth - 1);
    DirRecord(s.Image(), s.Vol(), s.Table(), RecordOf(t), depth);
    ExpectedDir(t, s.sources);
    var r := ReadStream(s.Image(), s.Vol(), t.first);
    DirectoryStreamLength(s, k);
    assert r.Some? ==> r.value[..|r.value|] == r.value;
  }

  lemma DirectoryStreamLength(s: Setting, k: nat)
    requires s.Valid() && k < |DirsOf(s.root)|
    ensures var t := DirsOf(s.root)[k];
      var r := ReadStream(s.Image(), s.Vol(), t.first);
      r.Some? ==> |r.value| == t.count * CLUSTER_SIZE
  {
    hide Built, Plausible, ReadStream, DirsOf, BytesOf, VolumeOf, ImageOf;
    DirectoryStream(s.config, s.root, s.hot, s.sources, k);
  }

  lemma AllOkSplit(s: Setting, t: Tree)
    requires s.Valid() && t.item.isDirectory
    ensures s.AllOk(Walk([t])) <==> s.NodeOk(t) && s.AllOk(Walk(t.children))
  {
    WalkOne(t);
    hide Setting.Valid, Walk, Setting.NodeOk;
    assert t in [t] + Walk(t.children);
  }

  lemma ChildReady(s: Setting, t: Tree, i: nat, depth: nat)
    requires s.Valid() && t in Walk(s.root.children) && t.item.isDirectory && depth >= |Dirs(Walk([t]))|
    requires i < |Sort(t.children, ByName)|
    ensures var c := Sort(t.children, ByName)[i];
      c in t.children && c in Walk(s.root.children) && depth - 1 >= |Dirs(Walk([c]))|
  {
    hide Setting.Valid, Walk, Dirs, Sort;
    var sorted := Sort(t.children, ByName);
    DirsBelow(t);
    assert sorted[i] in multiset(sorted);
    var k :| 0 <= k < |t.children| && t.children[k] == sorted[i];
    VisitedChild(s.root.children, t, sorted[i]);
    FewerDirs(t.children, k);
  }

  /** A node mounts as expected exactly when everything below it is served as it should be. */
  lemma {:induction false} TreeRight(s: Setting, t: Tree, depth: nat)
    requires s.Valid() && t in Walk(s.root.children) && depth >= |Dirs(Walk([t]))|
    ensures s.Right(t, depth) <==> s.AllOk(Walk([t]))
    decreases t
  {
    hide Built, Plausible, Walk, Dirs, Sort, Setting.Right, Setting.AllOk, Setting.NodeOk, Setting.Valid;
    if t.item.isDirectory {
      DirsBelow(t);
      DirRight(s, t, depth);
      forall i | 0 <= i < |Sort(t.children, ByName)|
        ensures s.Right(Sort(t.children, ByName)[i], depth - 1) <==> s.AllOk(Walk([Sort(t.children, ByName)[i]]))
      {
        ChildReady(s, t, i, depth);
        TreeRight(s, Sort(t.children, ByName)[i], depth - 1);
      }
      SortedEach(s, t.children);
      AllOkSplit(s, t);
    } else {
      FileRight(s, t, depth);
    }
  }

  // The volume.

  lemma RootUpcase(s: Setting, root: seq<byte>)
    requires s.Valid() && DirsOf(s.root) != []
    requires ParsePrefix(s, root)
    ensures ReadUpcase(s.Image(), s.Vol(), root) == Some(s.Table())
  {
    hide Built, Plausible, ReadStream, ImageOf, VolumeOf, UpcaseTable, SpecialEntries, FindEntry, Checksum, UpcaseEntry,
      BitmapEntry, LabelEntry, DirsOf;
    var x := SpecialOf(s.config, Geo(s.config));
    var rest :| root == SpecialEntries(x) + rest;
    FindSpecials(x, rest);
    SpecialBounds(s.config, s.root);
    SpecialNumbers(x);
    UpcaseStream(s.config, s.root, s.hot, s.sources);
    assert s.Table()[..UPCASE_TABLE_BYTES] == s.Table();
  }

  /** The stream starts with the three special entries. */
  ghost predicate ParsePrefix(s: Setting, root: seq<byte>) {
    exists rest :: root == SpecialEntries(SpecialOf(s.config, Geo(s.config))) + rest
  }

  lemma SpecialBounds(config: Config, root: Tree)
    requires Built(config, root)
    ensures var x := SpecialOf(config, Geo(config));
      && x.bitmapCluster < 0x1_0000_0000 && x.upcaseCluster < 0x1_0000_0000 && x.upcaseChecksum < 0x1_0000_0000
      && x.bitmapLength < 0x1_0000_0000_0000_0000 && x.upcaseLength < 0x1_0000_0000_0000_0000
  {
    hide Built, GeometryOf;
    GeoNumbers(config, root);
  }

  lemma RootPrefix(s: Setting)
    requires s.Valid() && DirsOf(s.root) != []
    ensures var t := DirsOf(s.root)[0];
      t.count * CLUSTER_SIZE <= |BytesOf(s.config, s.root, 0)|
      && ParsePrefix(s, BytesOf(s.config, s.root, 0)[..t.count * CLUSTER_SIZE])
  {
    hide Built, Plausible, DirsOf, EntrySets, Sort, SpecialEntries, DirectoryClusters, PrintedClusters;
    var t := DirsOf(s.root)[0];
    DirectorySize(s.config, s.root, 0);
    ReservedPositive(t);
    var lead := Lead(s.config, Geo(s.config), true);
    var data := BytesOf(s.config, s.root, 0);
    var stream := data[..t.count * CLUSTER_SIZE];
    assert data[..|lead|] == lead;
    assert stream == lead + stream[|lead|..];
  }

  /** Mounting comes down to the stream of the root. */
  lemma MountUnfold(s: Setting)
    requires s.Valid()
    ensures Mount(s.Image())
      == match ReadStream(s.Image(), s.Vol(), s.root.first)
         case None => None
         case Some(stream) => MountStream(s.Image(), s.Vol(), s.Table(), stream, s.Vol().clusterCount)
  {
    hide Setting.Valid, Setting.Image, Setting.Vol, Setting.Table, ReadStream, ReadUpcase, RootStream, MountStream;
    RootStreamIs(s);
    RootTable(s);
  }

  lemma RootStreamIs(s: Setting)
    requires s.Valid()
    ensures RootStream(s.Image())
      == match ReadStream(s.Image(), s.Vol(), s.root.first)
         case None => None
         case Some(stream) => Some((s.Vol(), stream))
  {
    hide Built, Plausible, ReadStream, ReadVolume, VolumeOf, ImageOf;
    VolumeServed(s.config, s.root, s.hot, s.sources);
    RootCluster(s);
  }

  lemma RootTable(s: Setting)
    requires s.Valid()
    ensures match ReadStream(s.Image(), s.Vol(), s.root.first)
      case None => true
      case Some(stream) => ReadUpcase(s.Image(), s.Vol(), stream) == Some(s.Table())
  {
    hide Built, Plausible, ReadStream, ReadUpcase, DirsOf, VolumeOf, ImageOf, BytesOf, ParsePrefix, Setting.Table;
    Tilings(s.config, s.root);
    DirectoryStream(s.config, s.root, s.hot, s.sources, 0);
    RootPrefix(s);
    RootUpcase(s, BytesOf(s.config, s.root, 0)[..s.root.count * CLUSTER_SIZE]);
  }

  lemma RootCluster(s: Setting)
    requires s.Valid()
    ensures s.Vol().rootCluster == s.root.first
  {
    hide Built, Plausible;
  }

  /** The volume mounts as expected exactly when every node is served as it should be. */
  lemma VolumeRight(s: Setting)
    requires s.Valid()
    ensures Mount(s.Image()) == Some(ExpectedVolume(s.root, s.sources)) <==> s.AllOk(Walk([s.root]))
  {
    hide Built, Plausible, ReadStream, Mount, MountStream, ExpectedAll, Sort, Setting.Image, Setting.Vol, UpcaseTable,
      Walk, Setting.NodeOk, Setting.AllOk, Setting.Right, Dirs, DirsOf, NoEntryLost, Setting.FatEntries;
    var depth := s.Vol().clusterCount;
    Tilings(s.config, s.root);
    MountUnfold(s);
    StreamRight(s, 0, depth);
    DirectoryStreamLength(s, 0);
    ChildrenRight(s, depth);
    RootOk(s);
    SortedEach(s, s.root.children);
    AllOkSplit(s, s.root);
  }

  lemma RootOk(s: Setting)
    requires s.Valid()
    ensures s.root.item.isDirectory
    ensures s.NodeOk(s.root) <==> s.root.first + s.root.count <= s.FatEntries() && NoEntryLost(s.root)
  {
    hide NoEntryLost, Setting.FatEntries, Plausible;
  }

  lemma DepthEnough(s: Setting)
    requires s.Valid()
    ensures |Dirs(Walk(s.root.children))| <= s.Vol().clusterCount
  {
    hide Built, Walk, Dirs, Plausible;
    EnoughDepth(s.config, s.root);
  }

  /** There is depth enough for every child of the root. */
  lemma ChildrenRight(s: Setting, depth: nat)
    requires s.Valid() && depth == s.Vol().clusterCount
    ensures var sorted := Sort(s.root.children, ByName);
      forall i :: 0 <= i < |sorted| ==> (s.Right(sorted[i], depth) <==> s.AllOk(Walk([sorted[i]])))
  {
    hide Setting.Valid, Setting.Vol, Walk, Dirs, Sort, Setting.Right, Setting.AllOk;
    var sorted := Sort(s.root.children, ByName);
    DepthEnough(s);
    forall i | 0 <= i < |sorted| ensures s.Right(sorted[i], depth) <==> s.AllOk(Walk([sorted[i]])) {
      assert sorted[i] in multiset(sorted);
      assert sorted[i] in s.root.children;
      var k :| 0 <= k < |s.root.children| && s.root.children[k] == sorted[i];
      WalkContains(s.root.children, k);
      FewerDirs(s.root.children, k);
      TreeRight(s, sorted[i], depth);
    }
  }

  lemma {:induction false} TilesLength(runs: seq<Run>, from: int, to: int)
    requires Tiles(runs, from, to)
    ensures |runs| <= to - from
  {
    if runs != [] {
      TilesLength(runs[..|runs| - 1], from, runs[|runs| - 1].start);
    }
  }

  lemma EnoughDepth(config: Config, root: Tree)
    requires Built(config, root)
    ensures |Dirs(Walk(root.children))| <= VolumeFor(config, root).clusterCount
  {
    hide Walk, Dirs, Tiles, GeometryOf, Placed, FitsImage, NextCluster, TotalClusters;
    Tilings(config, root);
    IsDirectory(config, root);
    RootFirst(root);
    VolumeNumbers(config, root);
    FileBaseBounded(config, root);
    TilesLength(RunsOf(DirsOf(root)), BaseOf(config), FileBase(config, root));
  }
}
