/** What becomes of a volume whose FAT does not reach the last allocated cluster: it cannot be mounted at all. */
module Breaks {
  import opened Boot
  import opened Consts
  import opened Directory
  import opened DirectoryReader
  import opened Geometry
  import opened Layouts
  import opened Mounting
  import opened Names
  import opened Plan
  import opened Reader
  import opened RoundTrip
  import opened Served
  import opened ServedImage
  import opened Sorting
  import opened Streams
  import opened Trees
  import opened Wrappers

  /** The chain of the node breaks off. */
  predicate Broken(s: Setting, t: Tree) {
    t.first + t.count > s.FatEntries()
  }

  predicate SomeBroken(s: Setting, ts: seq<Tree>) {
    exists i :: 0 <= i < |ts| && Broken(s, ts[i])
  }

  lemma SomeBrokenIn(s: Setting, ts: seq<Tree>, t: Tree)
    requires t in ts && Broken(s, t)
    ensures SomeBroken(s, ts)
  {
    hide Broken;
    var i :| 0 <= i < |ts| && ts[i] == t;
  }

  lemma {:induction false} RecordsBroken(s: Setting, ts: seq<Tree>, i: nat, depth: nat)
    requires s.Valid() && i < |ts| && s.MountNode(ts[i], depth) == None
    ensures MountRecords(s.Image(), s.Vol(), s.Table(), Records(ts), depth) == None
  {
    hide Built, Plausible, Setting.Image, Setting.Vol, Setting.Table, MountRecord, RecordOf;
    assert Records(ts)[0] == RecordOf(ts[0]) && Records(ts)[1..] == Records(ts[1..]);
    if i > 0 {
      RecordsBroken(s, ts[1..], i - 1, depth);
    }
  }

  lemma FileBroken(s: Setting, t: Tree, depth: nat)
    requires s.Valid() && t in Walk(s.root.children) && !t.item.isDirectory && Broken(s, t)
    ensures s.MountNode(t, depth) == None
  {
    hide Built, Plausible, Walk, Setting.Image, Setting.Vol, ReadStream, Setting.FatEntries, Content, FileData,
      MountRecord, FilesOf;
    var k := FileIndex(s, t);
    FileReads(s, k);
    FileRecord(s.Image(), s.Vol(), s.Table(), RecordOf(t), depth);
  }

  /** A directory below which something is broken leads nowhere. */
  lemma ContentsBroken(s: Setting, k: nat, depth: nat, i: nat)
    requires s.Valid() && k < |DirsOf(s.root)| && NoEntryLost(DirsOf(s.root)[k])
    requires var sorted := Sort(DirsOf(s.root)[k].children, ByName);
      i < |sorted| && s.MountNode(sorted[i], depth) == None
    ensures DirsOf(s.root)[k].count * CLUSTER_SIZE <= |BytesOf(s.config, s.root, k)|
    ensures MountStream(s.Image(), s.Vol(), s.Table(),
      BytesOf(s.config, s.root, k)[..DirsOf(s.root)[k].count * CLUSTER_SIZE], depth) == None
  {
    hide Built, Plausible, Setting.Image, Setting.Vol, UpcaseTable, Records, MountRecords, ParseEntries, BytesOf,
      NoEntryLost, DirsOf, Sort, Setting.MountNode;
    DirectoryParses(s.config, s.root, k);
    RecordsBroken(s, Sort(DirsOf(s.root)[k].children, ByName), i, depth);
  }

  lemma StreamBroken(s: Setting, k: nat, depth: nat, i: nat)
    requires s.Valid() && k < |DirsOf(s.root)| && NoEntryLost(DirsOf(s.root)[k])
    requires var sorted := Sort(DirsOf(s.root)[k].children, ByName);
      Broken(s, DirsOf(s.root)[k]) || (i < |sorted| && s.MountNode(sorted[i], depth) == None)
    ensures match ReadStream(s.Image(), s.Vol(), DirsOf(s.root)[k].first)
      case None => true
      case Some(stream) =>
        |stream| == DirsOf(s.root)[k].count * CLUSTER_SIZE
        && MountStream(s.Image(), s.Vol(), s.Table(), stream, depth) == None
  {
    hide Built, Plausible, ReadStream, MountStream, NoEntryLost, DirsOf, BytesOf, Sort, VolumeOf, ImageOf, UpcaseTable,
      Setting.MountNode;
    DirectoryStream(s.config, s.root, s.hot, s.sources, k);
    if !Broken(s, DirsOf(s.root)[k]) {
      ContentsBroken(s, k, depth, i);
    }
  }

  lemma DirBroken(s: Setting, t: Tree, depth: nat, i: nat)
    requires s.Valid() && t in Walk(s.root.children) && t.item.isDirectory && depth > 0 && NoEntryLost(t)
    requires var sorted := Sort(t.children, ByName);
      Broken(s, t) || (i < |sorted| && s.MountNode(sorted[i], depth - 1) == None)
    ensures s.MountNode(t, depth) == None
  {
    hide Built, Plausible, ReadStream, MountStream, MountRecord, NoEntryLost, DirsOf, Sort, Setting.Image, Setting.Vol,
      UpcaseTable, Walk, Broken;
    var k := DirIndex(s, t);
    StreamBroken(s, k, depth - 1, i);
    DirRecord(s.Image(), s.Vol(), s.Table(), RecordOf(t), depth);
    var r := ReadStream(s.Image(), s.Vol(), t.first);
    assert r.Some? ==> r.value[..|r.value|] == r.value;
  }

  /** The child below which the broken node lies. */
  lemma BrokenChild(s: Setting, ts: seq<Tree>) returns (i: nat)
    requires SomeBroken(s, Walk(ts))
    ensures i < |Sort(ts, ByName)| && SomeBroken(s, Walk([Sort(ts, ByName)[i]]))
  {
    hide Walk, Sort, Broken;
    var k :| 0 <= k < |Walk(ts)| && Broken(s, Walk(ts)[k]);
    var t := Walk(ts)[k];
    WalkMembers(ts, t);
    var m :| 0 <= m < |ts| && t in Walk([ts[m]]);
    assert ts[m] in multiset(ts);
    assert ts[m] in multiset(Sort(ts, ByName));
    i :| 0 <= i < |Sort(ts, ByName)| && Sort(ts, ByName)[i] == ts[m];
    SomeBrokenIn(s, Walk([Sort(ts, ByName)[i]]), t);
  }

  lemma KeptAt(s: Setting, t: Tree)
    requires s.Valid() && EntriesKept(s.root) && t in Walk(s.root.children) && t.item.isDirectory
    ensures NoEntryLost(t)
  {
    hide Built, Plausible, Walk, NoEntryLost, DirsOf;
    var k := DirIndex(s, t);
  }

  lemma WalkSplit(s: Setting, t: Tree)
    requires SomeBroken(s, Walk([t])) && !Broken(s, t)
    ensures t.item.isDirectory && SomeBroken(s, Walk(t.children))
  {
    WalkOne(t);
    hide Walk, Broken;
    var k :| 0 <= k < |Walk([t])| && Broken(s, Walk([t])[k]);
    assert Walk([t])[0] == t;
    assert Broken(s, Below(t)[k - 1]);
  }

  /** A node at or below which a chain breaks off does not mount. */
  lemma {:induction false} BrokenUnmounts(s: Setting, t: Tree, depth: nat)
    requires s.Valid() && EntriesKept(s.root)
    requires t in Walk(s.root.children) && depth >= |Dirs(Walk([t]))| && SomeBroken(s, Walk([t]))
    ensures s.MountNode(t, depth) == None
    decreases t
  {
    hide Built, Plausible, Walk, Dirs, Sort, Setting.MountNode, Setting.Valid, Broken, SomeBroken, EntriesKept,
      NoEntryLost;
    if !Broken(s, t) {
      WalkSplit(s, t);
    }
    if t.item.isDirectory {
      DirsBelow(t);
      KeptAt(s, t);
      var i := 0;
      if !Broken(s, t) {
        i := BrokenChild(s, t.children);
        ChildReady(s, t, i, depth);
        BrokenUnmounts(s, Sort(t.children, ByName)[i], depth - 1);
      }
      DirBroken(s, t, depth, i);
    } else {
      FileBroken(s, t, depth);
    }
  }

  /** A volume all of whose directories keep their entries, but whose FAT does not reach the last allocated cluster,
      cannot be mounted, whatever the source files hold. */
  lemma ShortFatUnmounts(config: Config, root: Tree, hot: seq<Range>, sources: Sources)
    requires Built(config, root) && EntriesKept(root) && !FatRoom(config, root)
    ensures Mount(ImageOf(config, root, hot, sources)) == None
  {
    hide Built, Plausible, GeometryOf, Walk, ReadStream, Mount, MountStream, Sort, Setting.Image, Setting.Vol,
      UpcaseTable, DirsOf, EntriesKept, NoEntryLost, Setting.MountNode, Setting.Valid, Broken, SomeBroken, ImageOf;
    var s := Setting(config, root, hot, sources);
    SettingValid(s);
    ImageIs(s);
    var t := LastNode(config, root);
    LastBroken(s, t);
    SomeBrokenIn(s, Walk([root]), t);
    MountUnfold(s);
    RootKept(s);
    var i := 0;
    if !Broken(s, root) {
      i := RootBroken(s);
    }
    StreamBroken(s, 0, s.Vol().clusterCount, i);
  }

  lemma ImageIs(s: Setting)
    ensures s.Image() == ImageOf(s.config, s.root, s.hot, s.sources)
  {
    hide ImageOf;
  }

  lemma LastBroken(s: Setting, t: Tree)
    requires !FatRoom(s.config, s.root) && t.first + t.count == Next(s.config, s.root)
    ensures Broken(s, t)
  {
    hide Next, GeometryOf;
  }

  lemma RootKept(s: Setting)
    requires s.Valid() && EntriesKept(s.root)
    ensures DirsOf(s.root) != [] && DirsOf(s.root)[0] == s.root && NoEntryLost(s.root)
  {
    hide GeometryOf, DirsOf, Plausible, NoEntryLost, Built;
    Tilings(s.config, s.root);
  }

  /** Some child of the root does not mount. */
  lemma RootBroken(s: Setting) returns (i: nat)
    requires s.Valid() && EntriesKept(s.root) && SomeBroken(s, Walk([s.root])) && !Broken(s, s.root)
    ensures i < |Sort(s.root.children, ByName)|
    ensures s.MountNode(Sort(s.root.children, ByName)[i], s.Vol().clusterCount) == None
  {
    hide Built, Plausible, Walk, Dirs, Sort, Setting.MountNode, VolumeOf, EntriesKept, Broken, SomeBroken;
    WalkSplit(s, s.root);
    i := BrokenChild(s, s.root.children);
    var sorted := Sort(s.root.children, ByName);
    EnoughDepth(s.config, s.root);
    assert sorted[i] in multiset(sorted);
    assert sorted[i] in s.root.children;
    var k :| 0 <= k < |s.root.children| && s.root.children[k] == sorted[i];
    WalkContains(s.root.children, k);
    FewerDirs(s.root.children, k);
    BrokenUnmounts(s, sorted[i], s.Vol().clusterCount);
  }
}
