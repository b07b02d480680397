/** Prefetch: when the selected ranges are exactly the metadata of the image. */
module Prefetch {
  import opened Allocation
  import opened Bitmap
  import opened Consts
  import opened Fat
  import opened Geometry
  import opened Layouts
  import opened Mapper
  import opened Plan
  import opened Ranges
  import Regions
  import opened Runs
  import opened Served
  import opened ServedImage
  import opened Trees
  import opened Wrappers

  lemma SectorRange(start: int, count: int, at: int)
    ensures Range(start * SECTOR_SIZE, count * SECTOR_SIZE).Has(at) <==> start <= at / SECTOR_SIZE < start + count
  {
  }

  /** The FAT sectors of a run. */
  predicate FatSectors(l: Layout, r: Run, sector: int) {
    l.FatStart() + r.start / FAT_ENTRIES_PER_SECTOR <= sector < l.FatStart() + CeilDiv(r.End(), FAT_ENTRIES_PER_SECTOR)
  }

  lemma FatRangeSectors(l: Layout, r: Run, at: int)
    ensures FatRange(l, r).Has(at) <==> FatSectors(l, r, at / SECTOR_SIZE)
  {
    var first := r.start * 4 / SECTOR_SIZE;
    SectorRange(l.FatStart() + first, CeilDiv(r.End() * 4, SECTOR_SIZE) - first, at);
    assert first == r.start / FAT_ENTRIES_PER_SECTOR;
    assert CeilDiv(r.End() * 4, SECTOR_SIZE) == CeilDiv(r.End(), FAT_ENTRIES_PER_SECTOR);
  }

  lemma FatRangesSectors(l: Layout, runs: seq<Run>, at: int)
    ensures CoveredBy(FatRanges(l, runs), at) <==>
      exists i :: 0 <= i < |runs| && FatSectors(l, runs[i], at / SECTOR_SIZE)
  {
    hide FatRange, FatSectors;
    var ranges := FatRanges(l, runs);
    forall i | 0 <= i < |runs| ensures ranges[i].Has(at) <==> FatSectors(l, runs[i], at / SECTOR_SIZE) {
      FatRangeSectors(l, runs[i], at);
    }
  }

  // The directory runs of a built tree.

  /** The first cluster of the root, and the whole runs of all directories below it. */
  function PrefetchRuns(root: Tree): seq<Run> {
    [Run(root.first, 1)] + RunsOf(Dirs(Walk(root.children)))
  }

  /** One past the last cluster whose FAT entry is prefetched for a directory. */
  function PrefetchEnd(config: Config, root: Tree): nat {
    if |DirsOf(root)| == 1 then BaseOf(config) + 1 else FileBase(config, root)
  }

  lemma {:induction false} EntryRunsOfWalk(config: Config, ts: seq<Tree>)
    requires forall t :: t in ts ==> t.count >= 1
    ensures EntryRuns(EntriesOf(config, ts)) == RunsOf(Dirs(ts))
  {
    if ts == [] {
      assert EntriesOf(config, ts) == [];
    } else {
      var init, last := ts[..|ts| - 1], ts[|ts| - 1];
      EntryRunsOfWalk(config, init);
      assert EntriesOf(config, ts)[..|ts| - 1] == EntriesOf(config, init);
      assert last in ts;
      if last.item.isDirectory {
        assert RunsOf(Dirs(ts)) == RunsOf(Dirs(init)) + [RunOf(last)];
      } else {
        assert Dirs(ts) == Dirs(init);
      }
    }
  }

  lemma EntriesPlaced(config: Config, root: Tree)
    requires Built(config, root)
    ensures DirsOf(root) == [root] + Dirs(Walk(root.children))
    ensures forall t :: t in Walk(root.children) ==> t.count >= 1
  {
    hide Walk, Select, ClustersOf, Placed, FitsImage;
    RootFirst(root);
    forall t | t in Walk(root.children) ensures t.count >= 1 {
      CountOf(config, root, t);
    }
  }

  lemma SelectedRuns(config: Config, root: Tree, hot: seq<Range>)
    requires Built(config, root)
    ensures var l := LayoutOf(config, root, hot);
      [Run(l.rootCluster, 1)] + EntryRuns(l.entries) == PrefetchRuns(root)
  {
    hide Built, GeometryOf, Stored, Puts, Walk, AllocatedRuns, MappingsOf, EntriesOf, Select, EntryRuns;
    EntriesPlaced(config, root);
    EntryRunsOfWalk(config, Walk(root.children));
  }

  /** The prefetched runs end at `PrefetchEnd` at most, and the last of them does. */
  lemma RunsInOrder(config: Config, root: Tree)
    requires Built(config, root)
    ensures forall i :: 0 <= i < |PrefetchRuns(root)| ==>
      PrefetchRuns(root)[i].count >= 1 && PrefetchRuns(root)[i].End() <= PrefetchEnd(config, root)
    ensures PrefetchRuns(root)[|PrefetchRuns(root)| - 1].End() == PrefetchEnd(config, root)
    ensures PrefetchEnd(config, root) <= Geo(config).clusterCount + 2
  {
    hide Built, GeometryOf, Walk, Dirs, FileBase, Tiles, DirsOf;
    var dirs := DirsOf(root);
    EntriesPlaced(config, root);
    Tilings(config, root);
    FileBaseBounded(config, root);
    TilesInOrder(RunsOf(dirs), BaseOf(config), FileBase(config, root));
    forall i | 0 <= i < |dirs| ensures RunsOf(dirs)[i] == RunOf(dirs[i]) {
    }
    assert RunsOf(dirs)[0].start == BaseOf(config);
    forall i | 1 <= i < |dirs| ensures PrefetchRuns(root)[i] == RunsOf(dirs)[i] {
    }
  }

  // What the two categories select.

  predicate InFat(l: Layout, sector: int) {
    l.FatStart() <= sector < l.FatStart() + l.fatLength
  }

  predicate InBitmap(l: Layout, sector: int) {
    l.StartSector(l.bitmapCluster) <= sector < l.StartSector(l.bitmapCluster) + l.BitmapSectors()
  }

  /** Stored sectors, the bitmap, and the FAT sectors of the directories. */
  predicate DirectorySector(l: Layout, root: Tree, sector: int) {
    || sector in l.metadata || InBitmap(l, sector)
    || exists i :: 0 <= i < |PrefetchRuns(root)| && FatSectors(l, PrefetchRuns(root)[i], sector)
  }

  lemma DirectoryRanges(config: Config, root: Tree, hot: seq<Range>, at: int)
    requires Built(config, root)
    requires ExactlySectors(hot, LayoutOf(config, root, hot).metadata.Keys)
    ensures var l := LayoutOf(config, root, hot);
      CoveredBy(l.hotRanges + FatRanges(l, [Run(l.rootCluster, 1)] + EntryRuns(l.entries)) + [BitmapRange(l)], at)
      <==> DirectorySector(l, root, at / SECTOR_SIZE)
  {
    hide Built, GeometryOf, LayoutOf, PrefetchRuns, FatRanges, FatSectors, EntryRuns, Separated, CoveredBy;
    var l := LayoutOf(config, root, hot);
    SelectedRuns(config, root, hot);
    HotRangesKept(config, root, hot);
    var fat := FatRanges(l, PrefetchRuns(root));
    FatRangesSectors(l, PrefetchRuns(root), at);
    SectorRange(l.StartSector(l.bitmapCluster), l.BitmapSectors(), at);
    CoveredAppend(hot, fat, at);
    CoveredAppend(hot + fat, [BitmapRange(l)], at);
    CoveredOne(BitmapRange(l), at);
    assert at / SECTOR_SIZE in l.metadata.Keys <==> at / SECTOR_SIZE in l.metadata;
  }

  /** What a policy selects, sector by sector. */
  lemma SelectedSectors(config: Config, root: Tree, hot: seq<Range>, directories: bool, fat: bool, at: int)
    requires Built(config, root)
    requires ExactlySectors(hot, LayoutOf(config, root, hot).metadata.Keys)
    ensures var l := LayoutOf(config, root, hot);
      CoveredBy(Selected(l, directories, fat), at)
      <==> (directories && DirectorySector(l, root, at / SECTOR_SIZE)) || (fat && InFat(l, at / SECTOR_SIZE))
  {
    hide Built, LayoutOf, FatRanges, EntryRuns, ExactlySectors, DirectorySector, CoveredBy, BitmapRange;
    var l := LayoutOf(config, root, hot);
    var metadata := l.hotRanges + FatRanges(l, [Run(l.rootCluster, 1)] + EntryRuns(l.entries)) + [BitmapRange(l)];
    DirectoryRanges(config, root, hot, at);
    SectorRange(l.FatStart(), l.fatLength, at);
    CoveredOne(FullFatRange(l), at);
    CoveredAppend(if directories then metadata else [], if fat then [FullFatRange(l)] else [], at);
    NothingCovered(at);
  }

  lemma NothingCovered(at: int)
    ensures !CoveredBy([], at)
  {
  }

  lemma MetadataKinds(l: Layout, sector: int)
    ensures l.MetadataSector(sector).Some? <==> sector in l.metadata || InFat(l, sector) || InBitmap(l, sector)
  {
    hide FatSector, BitmapSector;
  }

  lemma HotRangesKept(config: Config, root: Tree, hot: seq<Range>)
    ensures LayoutOf(config, root, hot).hotRanges == hot
  {
    hide GeometryOf, Stored, Puts, Walk, AllocatedRuns, MappingsOf, EntriesOf;
  }

  /** The FAT sectors of the directories lie within the FAT, or in the first sector of a heap right behind it. */
  predicate DirectoriesInFat(config: Config, root: Tree) {
    PrefetchEnd(config, root) <= FAT_ENTRIES_PER_SECTOR * Geo(config).fatLength
    || Geo(config).heapOffset == FAT_OFFSET + Geo(config).fatLength
  }

  lemma DirectoryFatIsMetadata(config: Config, root: Tree, hot: seq<Range>, i: nat, sector: int)
    requires Built(config, root) && DirectoriesInFat(config, root) && i < |PrefetchRuns(root)|
    requires FatSectors(LayoutOf(config, root, hot), PrefetchRuns(root)[i], sector)
    ensures LayoutOf(config, root, hot).MetadataSector(sector).Some?
  {
    hide Built, GeometryOf, LayoutOf, PrefetchRuns, PrefetchEnd, FatSector, BitmapSector;
    RunsInOrder(config, root);
    GeoNumbers(config, root);
    LayoutNumbers(config, root, hot);
    HeapBehindBoot(config, root);
  }

  /** Otherwise the sector between FAT and heap is selected, but reads as zeros. */
  lemma GapSelected(config: Config, root: Tree, hot: seq<Range>)
    requires Built(config, root) && !DirectoriesInFat(config, root)
    ensures var l := LayoutOf(config, root, hot);
      var sector := FAT_OFFSET + Geo(config).fatLength;
      && l.MetadataSector(sector) == None
      && FatSectors(l, PrefetchRuns(root)[|PrefetchRuns(root)| - 1], sector)
  {
    hide Built, GeometryOf, LayoutOf, PrefetchRuns, PrefetchEnd, FatSector, BitmapSector;
    RunsInOrder(config, root);
    GeoNumbers(config, root);
    LayoutNumbers(config, root, hot);
    HeapBehindBoot(config, root);
    FreeSector(config, root, hot, FAT_OFFSET + Geo(config).fatLength);
    SomeRun(root);
    var last := PrefetchRuns(root)[|PrefetchRuns(root)| - 1];
    assert LayoutOf(config, root, hot).MetadataSector(FAT_OFFSET + Geo(config).fatLength) == None;
    assert last.start / FAT_ENTRIES_PER_SECTOR <= Geo(config).fatLength;
    assert CeilDiv(last.End(), FAT_ENTRIES_PER_SECTOR) > Geo(config).fatLength;
  }

  // The theorems.

  /** With both categories on, the prefetched bytes are exactly the bytes of metadata sectors, if and only if
      the FAT entries of the directories lie in the FAT or the heap starts right behind it. */
  lemma PrefetchExactIff(config: Config, root: Tree, hot: seq<Range>, ranges: seq<Range>)
    requires Built(config, root)
    requires ExactlySectors(hot, LayoutOf(config, root, hot).metadata.Keys)
    requires SameCover(ranges, Selected(LayoutOf(config, root, hot), true, true))
    ensures (forall at: int ::
      CoveredBy(ranges, at) <==> LayoutOf(config, root, hot).MetadataSector(at / SECTOR_SIZE).Some?)
      <==> DirectoriesInFat(config, root)
  {
    hide Built, GeometryOf, LayoutOf, PrefetchRuns, DirectoriesInFat, FatSectors, Layout.MetadataSector, CoveredBy,
      Selected, ExactlySectors, InFat, InBitmap;
    var l := LayoutOf(config, root, hot);
    MetadataOnlyIff(config, root, hot, true, ranges);
    forall at: int ensures l.MetadataSector(at / SECTOR_SIZE).Some? ==> CoveredBy(ranges, at) {
      SelectedSectors(config, root, hot, true, true, at);
      MetadataKinds(l, at / SECTOR_SIZE);
    }
  }

  /** With the directory category on, and whatever the other one is, nothing but metadata is read ahead, if and only
      if the same condition holds. */
  lemma MetadataOnlyIff(config: Config, root: Tree, hot: seq<Range>, fat: bool, ranges: seq<Range>)
    requires Built(config, root)
    requires ExactlySectors(hot, LayoutOf(config, root, hot).metadata.Keys)
    requires SameCover(ranges, Selected(LayoutOf(config, root, hot), true, fat))
    ensures (forall at: int ::
      CoveredBy(ranges, at) ==> LayoutOf(config, root, hot).MetadataSector(at / SECTOR_SIZE).Some?)
      <==> DirectoriesInFat(config, root)
  {
    hide Built, GeometryOf, LayoutOf, PrefetchRuns, DirectoriesInFat, FatSectors, Layout.MetadataSector, CoveredBy,
      Selected, ExactlySectors, InFat, InBitmap;
    var l := LayoutOf(config, root, hot);
    if DirectoriesInFat(config, root) {
      forall at: int | CoveredBy(ranges, at) ensures l.MetadataSector(at / SECTOR_SIZE).Some? {
        SelectedSectors(config, root, hot, true, fat, at);
        MetadataKinds(l, at / SECTOR_SIZE);
        if i :| 0 <= i < |PrefetchRuns(root)| && FatSectors(l, PrefetchRuns(root)[i], at / SECTOR_SIZE) {
          DirectoryFatIsMetadata(config, root, hot, i, at / SECTOR_SIZE);
        }
      }
    } else {
      GapPrefetched(config, root, hot, fat, ranges);
    }
  }

  /** The first sector behind the FAT is read ahead, but holds no metadata. */
  lemma GapPrefetched(config: Config, root: Tree, hot: seq<Range>, fat: bool, ranges: seq<Range>)
    requires Built(config, root) && !DirectoriesInFat(config, root)
    requires ExactlySectors(hot, LayoutOf(config, root, hot).metadata.Keys)
    requires SameCover(ranges, Selected(LayoutOf(config, root, hot), true, fat))
    ensures var at := (FAT_OFFSET + Geo(config).fatLength) * SECTOR_SIZE;
      CoveredBy(ranges, at) && LayoutOf(config, root, hot).MetadataSector(at / SECTOR_SIZE) == None
  {
    hide Built, GeometryOf, LayoutOf, PrefetchRuns, DirectoriesInFat, FatSectors, Layout.MetadataSector, CoveredBy,
      Selected, ExactlySectors;
    var at := (FAT_OFFSET + Geo(config).fatLength) * SECTOR_SIZE;
    GapSelected(config, root, hot);
    SelectedSectors(config, root, hot, true, fat, at);
    assert at / SECTOR_SIZE == FAT_OFFSET + Geo(config).fatLength;
    SomeRun(root);
  }

  lemma SomeRun(root: Tree)
    ensures |PrefetchRuns(root)| >= 1
  {
  }

  /** With the FAT category alone, the bytes read ahead are exactly those of the FAT; with none, there are none. */
  lemma FatOnly(config: Config, root: Tree, hot: seq<Range>, fat: bool, ranges: seq<Range>)
    requires Built(config, root)
    requires ExactlySectors(hot, LayoutOf(config, root, hot).metadata.Keys)
    requires SameCover(ranges, Selected(LayoutOf(config, root, hot), false, fat))
    ensures forall at: int ::
      CoveredBy(ranges, at) <==>
      fat && FAT_OFFSET * SECTOR_SIZE <= at < (FAT_OFFSET + Geo(config).fatLength) * SECTOR_SIZE
  {
    hide Built, GeometryOf, LayoutOf, DirectorySector, CoveredBy, Selected, ExactlySectors;
    LayoutNumbers(config, root, hot);
    forall at: int ensures CoveredBy(ranges, at) <==>
      fat && FAT_OFFSET * SECTOR_SIZE <= at < (FAT_OFFSET + Geo(config).fatLength) * SECTOR_SIZE
    {
      SelectedSectors(config, root, hot, false, fat, at);
    }
  }

  // The FAT entries of the directories.

  /** The first byte of a FAT entry. */
  function EntryByte(cluster: nat): int {
    FAT_OFFSET * SECTOR_SIZE + 4 * cluster
  }

  lemma EntrySector(cluster: nat)
    ensures EntryByte(cluster) / SECTOR_SIZE == FAT_OFFSET + cluster / FAT_ENTRIES_PER_SECTOR
  {
  }

  predicate EntryExists(config: Config, cluster: nat) {
    cluster < FAT_ENTRIES_PER_SECTOR * Geo(config).fatLength
  }

  /** Every FAT entry that a console needs to read the directories is read ahead. */
  ghost predicate DirectoryEntriesRead(config: Config, root: Tree, ranges: seq<Range>) {
    forall i, cluster: nat ::
      0 <= i < |DirsOf(root)| && RunOf(DirsOf(root)[i]).Has(cluster) && EntryExists(config, cluster) ==>
      CoveredBy(ranges, EntryByte(cluster))
  }

  /** The FAT entries of the root lie in the first sector of the FAT, or in the first two, of which the second has the
      first entry of another directory too. */
  predicate RootEntriesRead(root: Tree) {
    var end := root.first + root.count;
    end <= FAT_ENTRIES_PER_SECTOR || (|DirsOf(root)| > 1 && end < 2 * FAT_ENTRIES_PER_SECTOR)
  }

  /** The root starts within the first sector of the FAT. */
  lemma RootLow(config: Config, root: Tree)
    requires Built(config, root)
    ensures DirsOf(root) != [] && DirsOf(root)[0] == root
    ensures root.first < FAT_ENTRIES_PER_SECTOR && root.count >= 1 && Geo(config).fatLength >= 2
  {
    hide Built, GeometryOf, FileBase;
    Tilings(config, root);
    DirectoryOrder(config, root, 0);
    GeoNumbers(config, root);
    RootAtBase(config, root);
  }

  lemma RootAtBase(config: Config, root: Tree)
    requires Built(config, root)
    ensures root.first == BaseOf(config)
  {
    hide Built, GeometryOf, FileBase, Tiles, BaseCluster;
    Tilings(config, root);
    TilesInOrder(RunsOf(DirsOf(root)), BaseOf(config), FileBase(config, root));
    assert RunsOf(DirsOf(root))[0] == RunOf(root);
  }

  lemma PrefetchRunAt(config: Config, root: Tree, i: nat)
    requires Built(config, root) && i < |DirsOf(root)|
    ensures |PrefetchRuns(root)| == |DirsOf(root)| && DirsOf(root)[0] == root
    ensures PrefetchRuns(root)[i] == if i == 0 then Run(root.first, 1) else RunOf(DirsOf(root)[i])
  {
    hide Built, Walk, Select;
    EntriesPlaced(config, root);
  }

  lemma EntryOfRun(l: Layout, r: Run, cluster: nat)
    requires r.Has(cluster)
    ensures FatSectors(l, r, l.FatStart() + cluster / FAT_ENTRIES_PER_SECTOR)
  {
  }

  lemma DirectoryEntry(config: Config, root: Tree, hot: seq<Range>, i: nat, cluster: nat)
    requires Built(config, root) && RootEntriesRead(root)
    requires i < |DirsOf(root)| && RunOf(DirsOf(root)[i]).Has(cluster) && EntryExists(config, cluster)
    ensures DirectorySector(LayoutOf(config, root, hot), root, FAT_OFFSET + cluster / FAT_ENTRIES_PER_SECTOR)
  {
    hide Built, GeometryOf, LayoutOf, PrefetchRuns, DirsOf, InBitmap, FatSectors;
    var l := LayoutOf(config, root, hot);
    LayoutNumbers(config, root, hot);
    RootLow(config, root);
    PrefetchRunAt(config, root, i);
    if i > 0 {
      EntryOfRun(l, PrefetchRuns(root)[i], cluster);
    } else if cluster < FAT_ENTRIES_PER_SECTOR {
      EntryOfRun(l, PrefetchRuns(root)[0], root.first);
    } else {
      PrefetchRunAt(config, root, 1);
      Regions.NextDirectory(config, root, 0);
      EntryOfRun(l, PrefetchRuns(root)[1], DirsOf(root)[1].first);
    }
  }

  /** Otherwise no selected range holds the first entry of the second FAT sector, which is one of the root. */
  lemma RootEntryMissed(config: Config, root: Tree, hot: seq<Range>)
    requires Built(config, root) && !RootEntriesRead(root)
    ensures RunOf(root).Has(FAT_ENTRIES_PER_SECTOR) && EntryExists(config, FAT_ENTRIES_PER_SECTOR)
    ensures !DirectorySector(LayoutOf(config, root, hot), root, FAT_OFFSET + 1)
  {
    hide Built, GeometryOf, LayoutOf, PrefetchRuns, DirsOf;
    var l := LayoutOf(config, root, hot);
    RootLow(config, root);
    LayoutNumbers(config, root, hot);
    HeapBehindBoot(config, root);
    FreeSector(config, root, hot, FAT_OFFSET + 1);
    PrefetchRunAt(config, root, 0);
    forall i | 0 <= i < |PrefetchRuns(root)| ensures !FatSectors(l, PrefetchRuns(root)[i], FAT_OFFSET + 1) {
      PrefetchRunAt(config, root, i);
      if i > 0 {
        DirectoryOrder(config, root, i);
      }
    }
  }

  /** With the directory category alone, all FAT entries of all directories are read ahead, if and only if those of
      the root are: of its run, the first cluster alone is taken. */
  lemma DirectoryEntriesReadIff(config: Config, root: Tree, hot: seq<Range>, ranges: seq<Range>)
    requires Built(config, root)
    requires ExactlySectors(hot, LayoutOf(config, root, hot).metadata.Keys)
    requires SameCover(ranges, Selected(LayoutOf(config, root, hot), true, false))
    ensures DirectoryEntriesRead(config, root, ranges) <==> RootEntriesRead(root)
  {
    hide Built, GeometryOf, LayoutOf, PrefetchRuns, DirsOf, RootEntriesRead, DirectorySector, CoveredBy, Selected,
      ExactlySectors, EntryByte, EntryExists;
    if RootEntriesRead(root) {
      forall i, cluster: nat |
        0 <= i < |DirsOf(root)| && RunOf(DirsOf(root)[i]).Has(cluster) && EntryExists(config, cluster)
        ensures CoveredBy(ranges, EntryByte(cluster))
      {
        DirectoryEntry(config, root, hot, i, cluster);
        EntrySector(cluster);
        SelectedSectors(config, root, hot, true, false, EntryByte(cluster));
      }
    } else {
      var cluster := FAT_ENTRIES_PER_SECTOR;
      RootEntryMissed(config, root, hot);
      EntrySector(cluster);
      SelectedSectors(config, root, hot, true, false, EntryByte(cluster));
      Tilings(config, root);
      assert RunOf(DirsOf(root)[0]).Has(cluster);
    }
  }
}
