/** The exact condition for the mount round trip. */
module RoundTrip {
  import opened Allocation
  import opened Boot
  import opened Bytes
  import opened Consts
  import opened Directory
  import opened DirectoryReader
  import opened Geometry
  import opened Layouts
  import opened Mounting
  import opened Plan
  import opened Reader
  import opened Runs
  import opened Served
  import opened ServedImage
  import opened Streams
  import opened Trees
  import opened Wrappers

  /** The FAT has an entry for every allocated cluster. */
  predicate FatRoom(config: Config, root: Tree) {
    Next(config, root) <= FAT_ENTRIES_PER_SECTOR * Geo(config).fatLength
  }

  /** Every directory keeps all its entry sets within its reservation. */
  predicate EntriesKept(root: Tree) {
    forall i :: 0 <= i < |DirsOf(root)| ==> NoEntryLost(DirsOf(root)[i])
  }

  /** No file byte lies under the end marker of the last directory. */
  predicate FilesUncovered(root: Tree) {
    var dirs, files := DirsOf(root), FilesOf(root);
    dirs == [] || DirectoryFits(dirs[|dirs| - 1]) || files == [] || files[0].item.size == 0
  }

  /** A condition on the scanned tree and the image size alone. */
  predicate Mountable(config: Config, root: Tree) {
    FatRoom(config, root) && EntriesKept(root) && FilesUncovered(root)
  }

  /** Every source file exists. */
  ghost predicate Complete(root: Tree, sources: Sources) {
    forall i :: 0 <= i < |FilesOf(root)| ==> FilesOf(root)[i].item.source in sources
  }

  // Sufficiency.

  /** How far directory `i` is printed when no entry is lost. */
  lemma OverflowReach(config: Config, root: Tree, i: nat)
    requires Built(config, root) && EntriesKept(root) && i < |DirsOf(root)|
    ensures var dirs := DirsOf(root);
      var end := dirs[i].first + PrintedClusters(dirs[i]);
      && end <= FileBase(config, root) + 1
      && (i < |dirs| - 1 || DirectoryFits(dirs[|dirs| - 1]) ==> end <= FileBase(config, root))
  {
    hide Built, GeometryOf, DirsOf, FileBase, PrintedClusters, DirectoryClusters, NoEntryLost;
    var dirs := DirsOf(root);
    assert dirs[i].count == DirectoryClusters(dirs[i]) <= PrintedClusters(dirs[i]) by {
      DirectoryWrite(config, root, i);
    }
    PrintedAtMost(dirs[i]);
    DirectoryOrder(config, root, i);
    if i < |dirs| - 1 {
      DirectoryOrder(config, root, i + 1);
    }
  }

  lemma PrintedAtMost(t: Tree)
    requires NoEntryLost(t)
    ensures PrintedClusters(t) <= DirectoryClusters(t) + 1
  {
  }

  lemma FileSectorFree(config: Config, root: Tree, hot: seq<Range>, i: nat, k: nat)
    requires Built(config, root) && EntriesKept(root) && i < |FilesOf(root)|
    requires k < FilesOf(root)[i].count * SECTORS_PER_CLUSTER
    requires i > 0 || (DirsOf(root) != [] && DirectoryFits(DirsOf(root)[|DirsOf(root)| - 1]))
    ensures FileSector(config, root, i, k) !in LayoutOf(config, root, hot).metadata
  {
    hide Built, GeometryOf, DirsOf, FilesOf, FileBase, PrintedClusters, LayoutOf, DirectoryFits, EntriesKept;
    var sector := FileSector(config, root, i, k);
    var dirs := DirsOf(root);
    FileOrder(config, root, i);
    OverflowSector(config, root, hot, sector);
    forall m | 0 <= m < |dirs| ensures !(sector < HeapSector(Geo(config), dirs[m].first + PrintedClusters(dirs[m]))) {
      OverflowReach(config, root, m);
    }
  }

  lemma FileDataPrefix(content: seq<byte>, size: nat, length: nat)
    requires size <= length
    ensures FileData(content, length)[..size] == FileData(content, size)
  {
  }

  lemma FileNodeOk(s: Setting, i: nat)
    requires s.Valid() && Mountable(s.config, s.root) && i < |FilesOf(s.root)|
    ensures FilesOf(s.root)[i] in Walk([s.root]) && s.NodeOk(FilesOf(s.root)[i])
  {
    hide Built, GeometryOf, DirsOf, FilesOf, VolumeOf, ImageOf, ReadStream, LayoutOf, FileData, Content, EntriesKept,
      Next;
    var t := FilesOf(s.root)[i];
    FileVisited(s.config, s.root, i);
    FileOrder(s.config, s.root, i);
    FileReads(s, i);
    FileHolds(s.config, s.root, i);
    Tilings(s.config, s.root);
    if i == 0 && t.item.size == 0 {
      assert FileData(Content(s.sources, t.item.source), 0) == [];
    } else {
      forall k: nat | k < t.count * SECTORS_PER_CLUSTER
        ensures FileSector(s.config, s.root, i, k) !in LayoutOf(s.config, s.root, s.hot).metadata
      {
        FileSectorFree(s.config, s.root, s.hot, i, k);
      }
      FileStream(s.config, s.root, s.hot, s.sources, i);
      FileDataPrefix(Content(s.sources, t.item.source), t.item.size, t.count * CLUSTER_SIZE);
    }
  }

  lemma FileVisited(config: Config, root: Tree, i: nat)
    requires Built(config, root) && i < |FilesOf(root)|
    ensures FilesOf(root)[i] in Walk([root]) && !FilesOf(root)[i].item.isDirectory
  {
    hide GeometryOf, Walk, Select, Placed, FitsImage, NameFits;
    Visited(config, root, false, i);
  }

  lemma DirNodeOk(s: Setting, i: nat)
    requires s.Valid() && FatRoom(s.config, s.root) && EntriesKept(s.root) && i < |DirsOf(s.root)|
    ensures s.NodeOk(DirsOf(s.root)[i])
  {
    hide GeometryOf, Walk, Select, Plausible, Next, NoEntryLost, Placed, FitsImage, FileBase, NameFits;
    Visited(s.config, s.root, true, i);
    DirectoryOrder(s.config, s.root, i);
    FileBaseBounded(s.config, s.root);
  }

  lemma KindIndex(root: Tree, t: Tree) returns (i: nat)
    requires t in Walk([root])
    ensures i < |Select(Walk([root]), t.item.isDirectory)| && Select(Walk([root]), t.item.isDirectory)[i] == t
  {
    SelectMembers(Walk([root]), t.item.isDirectory);
    i :| 0 <= i < |Select(Walk([root]), t.item.isDirectory)| && Select(Walk([root]), t.item.isDirectory)[i] == t;
  }

  lemma MountableServes(s: Setting)
    requires s.Valid() && Mountable(s.config, s.root)
    ensures s.AllOk(Walk([s.root]))
  {
    hide Built, Plausible, GeometryOf, Walk, Select, Setting.NodeOk, FatRoom, EntriesKept, FilesUncovered;
    forall t | t in Walk([s.root]) ensures s.NodeOk(t) {
      var i := KindIndex(s.root, t);
      if t.item.isDirectory {
        DirNodeOk(s, i);
      } else {
        FileNodeOk(s, i);
      }
    }
  }

  // Necessity.

  /** Every source file of the tree, with `length` bytes of value 1. */
  function Ones(root: Tree, length: nat): Sources {
    map i: nat | i < |FilesOf(root)| :: FilesOf(root)[i].item.source := seq(length, _ => 1 as byte)
  }

  lemma OnesComplete(root: Tree, length: nat)
    ensures Complete(root, Ones(root, length))
    ensures forall i :: 0 <= i < |FilesOf(root)| ==>
      Content(Ones(root, length), FilesOf(root)[i].item.source) == seq(length, _ => 1 as byte)
  {
    hide FilesOf;
    forall i | 0 <= i < |FilesOf(root)| ensures FilesOf(root)[i].item.source in Ones(root, length) {
    }
  }

  /** Some node ends at the last allocated cluster. */
  lemma LastNode(config: Config, root: Tree) returns (t: Tree)
    requires Built(config, root)
    ensures t in Walk([root]) && t.first + t.count == Next(config, root)
  {
    hide Built, GeometryOf, DirsOf, FilesOf, Tiles, FileBase, Next, Walk;
    var files := FilesOf(root);
    LastEnd(config, root);
    Tilings(config, root);
    if files == [] {
      t := DirsOf(root)[|DirsOf(root)| - 1];
      NoFilesNext(config, root);
      DirVisited(config, root, |DirsOf(root)| - 1);
    } else {
      t := files[|files| - 1];
      FileVisited(config, root, |files| - 1);
      TilesInOrder(RunsOf(files), FileBase(config, root), Next(config, root));
      assert RunsOf(files)[|files| - 1] == RunOf(t);
    }
  }

  /** A volume all of whose nodes are served needs FAT entries up to the last allocated cluster. */
  lemma ServedNeedsFat(s: Setting)
    requires s.Valid() && s.AllOk(Walk([s.root]))
    ensures FatRoom(s.config, s.root)
  {
    hide Built, GeometryOf, Next, Walk, Boot.Plausible;
    var t := LastNode(s.config, s.root);
    assert s.NodeOk(t);
  }

  lemma NoFilesNext(config: Config, root: Tree)
    requires FilesOf(root) == []
    ensures Next(config, root) == FileBase(config, root)
  {
    hide GeometryOf, Select, Walk;
  }

  lemma DirVisited(config: Config, root: Tree, i: nat)
    requires Built(config, root) && i < |DirsOf(root)|
    ensures DirsOf(root)[i] in Walk([root]) && DirsOf(root)[i].item.isDirectory
  {
    hide GeometryOf, Walk, Select, Placed, FitsImage, NameFits;
    Visited(config, root, true, i);
  }

  lemma ServedNeedsEntries(s: Setting)
    requires s.Valid() && s.AllOk(Walk([s.root]))
    ensures EntriesKept(s.root)
  {
    hide Built, GeometryOf, DirsOf, Walk, NoEntryLost, Boot.Plausible, Setting.FatEntries;
    forall i | 0 <= i < |DirsOf(s.root)| ensures NoEntryLost(DirsOf(s.root)[i]) {
      DirVisited(s.config, s.root, i);
    }
  }

  lemma LastWrite(config: Config, root: Tree, sector: int)
    requires Built(config, root) && EntriesKept(root) && DirsOf(root) != []
    requires var last := DirsOf(root)[|DirsOf(root)| - 1];
      HeapSector(Geo(config), FileBase(config, root)) <= sector <
        HeapSector(Geo(config), last.first + PrintedClusters(last))
    ensures var i := |DirsOf(root)| - 1;
      && sector in Stored(PutsFor(config, root))
      && Stored(PutsFor(config, root))[sector] ==
         SectorOf(BytesOf(config, root, i), sector - HeapSector(Geo(config), DirsOf(root)[i].first))
  {
    hide Built, GeometryOf, DirsOf, FileBase, PrintedClusters, DirectoryClusters, PutsFor, BytesOf, SectorOf,
      EntriesKept, Put.Sectors, Stored;
    var i := |DirsOf(root)| - 1;
    DirectoryWrite(config, root, i);
    DirectoryOrder(config, root, i);
    FixedWrites(config, root);
    FileBaseBounded(config, root);
    var puts := PutsFor(config, root);
    forall j | PutIndex(i) < j < |puts| ensures !puts[j].Covers(sector) {
      assert j == 3;
      WriteStarts(config, root, 3);
    }
    assert puts[PutIndex(i)].Covers(sector);
    StoredAt(puts, PutIndex(i), sector);
  }

  /** When the end marker of the last directory overflows, the first cluster behind it reads as zeros. */
  lemma CoveredSector(config: Config, root: Tree, hot: seq<Range>, sources: Sources, k: nat, m: nat)
    requires Built(config, root) && EntriesKept(root) && DirsOf(root) != []
    requires !DirectoryFits(DirsOf(root)[|DirsOf(root)| - 1])
    requires k < SECTORS_PER_CLUSTER && m < SECTOR_SIZE
    ensures
      LayoutOf(config, root, hot).SectorBytes(sources, HeapSector(Geo(config), FileBase(config, root)) + k)[m] == 0
  {
    hide Built, GeometryOf, DirsOf, FileBase, PrintedClusters, DirectoryClusters, PutsFor, BytesOf, LayoutOf,
      Layout.SectorBytes, Stored, NoEntryLost;
    var i := |DirsOf(root)| - 1;
    var t := DirsOf(root)[i];
    var sector := HeapSector(Geo(config), FileBase(config, root)) + k;
    DirectorySize(config, root, i);
    LastEnd(config, root);
    LastWrite(config, root, sector);
    LayoutMetadata(config, root, hot);
    StoredSector(config, root, hot, sources, sector);
    assert sector - HeapSector(Geo(config), t.first) == t.count * SECTORS_PER_CLUSTER + k;
    BehindBody(config, root, i, t.count * CLUSTER_SIZE + SECTOR_SIZE * k + m);
  }

  lemma LastEnd(config: Config, root: Tree)
    requires Built(config, root)
    ensures DirsOf(root) != []
    ensures var last := DirsOf(root)[|DirsOf(root)| - 1];
      last.first + last.count == FileBase(config, root)
  {
    hide Built, GeometryOf, DirsOf, FileBase, Tiles;
    Tilings(config, root);
    var dirs := DirsOf(root);
    TilesInOrder(RunsOf(dirs), BaseOf(config), FileBase(config, root));
    assert RunsOf(dirs)[|dirs| - 1] == RunOf(dirs[|dirs| - 1]);
  }

  /** Behind its entries a printed directory is zero. */
  lemma BehindBody(config: Config, root: Tree, i: nat, at: nat)
    requires Built(config, root) && i < |DirsOf(root)| && NoEntryLost(DirsOf(root)[i])
    requires DirectoryClusters(DirsOf(root)[i]) * CLUSTER_SIZE <= at < |BytesOf(config, root, i)|
    ensures BytesOf(config, root, i)[at] == 0
  {
    hide Built, GeometryOf, DirsOf, DirectoryBody, EntryCount, Lead, AllPrintable, DirectoryClusters, WholeClusters;
    LeadFits(config, root, i);
    ChildNames(config, root, i);
    ExactDirectorySize(DirsOf(root)[i], Lead(config, Geo(config), i == 0), config.strUpper);
  }

  /** With ones in every source file, a served volume has no file under an end marker. */
  lemma ServedNeedsUncovered(s: Setting)
    requires s.Valid() && s.AllOk(Walk([s.root])) && EntriesKept(s.root)
    requires s.sources == Ones(s.root, 1)
    ensures FilesUncovered(s.root)
  {
    hide Built, GeometryOf, DirsOf, FilesOf, Walk, ReadStream, ImageOf, VolumeOf, RunsFor, EntriesKept,
      Setting.FatEntries, DirectoryFits, LayoutOf, Layout.SectorBytes, Layout.Image, FileBase, Boot.Plausible,
      NoEntryLost;
    OnesComplete(s.root, 1);
    if !FilesUncovered(s.root) {
      FileVisited(s.config, s.root, 0);
      FileReads(s, 0);
      CoveredByte(s);
      assert false;
    }
  }

  lemma CoveredByte(s: Setting)
    requires s.Valid() && EntriesKept(s.root) && DirsOf(s.root) != [] && FilesOf(s.root) != []
    requires !DirectoryFits(DirsOf(s.root)[|DirsOf(s.root)| - 1])
    ensures var r := ReadStream(s.Image(), s.Vol(), FilesOf(s.root)[0].first);
      r.Some? ==> |r.value| > 0 && r.value[0] == 0
  {
    hide Built, GeometryOf, DirsOf, FilesOf, ReadStream, VolumeOf, RunsFor, EntriesKept, DirectoryFits, LayoutOf,
      Layout.SectorBytes, Layout.Image, FileBase, Boot.Plausible, Next, HeapSector;
    FileOrder(s.config, s.root, 0);
    FileRunIndex(s.root, 0);
    RunAt(s.config, s.root, false, 0);
    CoveredSector(s.config, s.root, s.hot, s.sources, 0, 0);
    RunSlice(s.config, s.root, s.hot, s.sources, RunIndex(s.root, false, 0));
    var sector := HeapSector(Geo(s.config), FileBase(s.config, s.root));
    SectorNonNegative(s.config, s.root);
    ImageAt(LayoutOf(s.config, s.root, s.hot), s.sources, sector, 0);
  }

  lemma FileRunIndex(root: Tree, i: nat)
    requires i < |FilesOf(root)|
    ensures i < |Select(Walk([root]), false)| && FilesOf(root)[i] == Select(Walk([root]), false)[i]
  {
  }

  lemma SectorNonNegative(config: Config, root: Tree)
    requires Built(config, root)
    ensures HeapSector(Geo(config), FileBase(config, root)) >= 0
    ensures forall hot :: LayoutOf(config, root, hot).totalBytes == config.totalBytes
  {
    hide Built, GeometryOf, FileBase;
    HeapBehindBoot(config, root);
    FileBaseBounded(config, root);
  }

  // The theorem.

  /** Mounting the served image gives back the scanned tree, for every content of the source files,
      exactly when the tree is mountable: the FAT reaches the last cluster, no directory entry is lost,
      and the last directory's end marker covers no file. */
  lemma MountRoundTripIff(config: Config, root: Tree, hot: seq<Range>)
    requires Built(config, root)
    ensures (forall sources: Sources :: Complete(root, sources) ==>
        Mount(ImageOf(config, root, hot, sources)) == Some(ExpectedVolume(root, sources)))
      <==> Mountable(config, root)
  {
    hide Built, GeometryOf, DirsOf, FilesOf, Walk, ImageOf, Mount, ExpectedVolume, FatRoom, EntriesKept, FilesUncovered,
      Complete, Setting.AllOk, Setting.Valid, Ones;
    if Mountable(config, root) {
      forall sources: Sources | Complete(root, sources)
        ensures Mount(ImageOf(config, root, hot, sources)) == Some(ExpectedVolume(root, sources))
      {
        var s := Setting(config, root, hot, sources);
        SettingValid(s);
        MountableServes(s);
        VolumeRight(s);
      }
    } else {
      var sources := Ones(root, 1);
      var s := Setting(config, root, hot, sources);
      OnesComplete(root, 1);
      SettingValid(s);
      VolumeRight(s);
      if s.AllOk(Walk([root])) {
        ServedNeedsFat(s);
        ServedNeedsEntries(s);
        ServedNeedsUncovered(s);
      }
    }
  }
}
