/** Builder and mapper together: what a read of the whole volume delivers. */
module Serving {
  import opened Builder
  import opened Bytes
  import opened EndToEnd
  import opened Geometry
  import opened Host
  import opened Layouts
  import opened Mapper
  import opened Mounting
  import opened Nodes
  import opened Plan
  import opened Reader
  import opened RoundTrip
  import opened Served
  import opened ServedImage
  import opened Trees
  import opened Wrappers

  /** When every source file can be opened, every sector can be served. */
  lemma CompleteIsAvailable(config: Config, root: Tree, hot: seq<Range>, files: Sources, sector: int)
    requires Built(config, root) && Complete(root, files)
    ensures Available(LayoutOf(config, root, hot), files, sector)
  {
    hide Built, GeometryOf, LayoutOf, FilesOf, Layout.MetadataSector, HeapSector;
    LayoutNumbers(config, root, hot);
    var l := LayoutOf(config, root, hot);
    var found := l.FindMapping(sector, 0);
    assert found.Some? ==> l.mappings[found.value] == MappingOf(FilesOf(root)[found.value]);
  }

  lemma CompleteIsReadable(config: Config, root: Tree, hot: seq<Range>, files: Sources, offset: int, length: int)
    requires Accepted(config, root) && FitsImage(config, root) && Complete(root, files)
    ensures Readable(LayoutOf(config, PlacedRoot(config, root), hot), files, offset, length)
  {
    hide Built, GeometryOf, LayoutOf, Accepted, FitsImage, PlacedRoot, Complete, Available, FatRoom, EntriesKept,
      FilesUncovered;
    PlacingBuilds(config, root);
    ConditionsUnchanged(config, root);
    forall sector: int ensures Available(LayoutOf(config, PlacedRoot(config, root), hot), files, sector) {
      CompleteIsAvailable(config, PlacedRoot(config, root), hot, files, sector);
    }
  }

  datatype ServeError = BuildRaised(cause: BuildError) | ReadRaised(reason: MapError)

  /** Builds the layout of a scanned tree, reads the whole volume through a mapper, and closes the mapper. The buffer
      reads back as the scanned tree whenever the tree is mountable. */
  method ReadBack(config: Config, root: Node, host: Host) returns (r: Result<seq<byte>, ServeError>)
    requires Scanned(config, root) && host.Valid() && host.descriptors == map[]
    modifies NodeWalk([root]), host
    ensures host.Valid() && host.descriptors == map[]
    ensures !FitsImage(config, root.tree) ==> r == Err(BuildRaised(FilesDoNotFit))
    ensures FitsImage(config, root.tree) && Complete(root.tree, host.files) ==> r.Ok? && |r.value| == config.totalBytes
    ensures r.Ok? && Complete(root.tree, host.files) && Mountable(config, root.tree) ==>
      Mount(r.value) == Some(ExpectedVolume(root.tree, host.files))
    ensures r.Ok? && EntriesKept(root.tree) && !FatRoom(config, root.tree) ==> Mount(r.value) == None
  {
    hide *;
    var builder := new ExfatBuilder(config);
    var layout := builder.Build(root);
    if layout.Err? {
      return Err(BuildRaised(layout.error));
    }
    ScannedAccepted(config, root);
    ServedTreeMountsIff(config, root.tree, layout.value.hotRanges);
    LayoutBytes(config, PlacedRoot(config, root.tree), layout.value.hotRanges);
    var mapper := new SectorMapper(layout.value, host);
    var destination := new byte[layout.value.totalBytes](_ => 0);
    var read := mapper.Read(0, destination);
    if Complete(root.tree, host.files) {
      CompleteIsReadable(config, root.tree, layout.value.hotRanges, host.files, 0, destination.Length);
    }
    mapper.Close();
    if read.Err? {
      return Err(ReadRaised(read.error));
    }
    WholeImage(layout.value, host.files);
    r := Ok(destination[..]);
    if EntriesKept(root.tree) && !FatRoom(config, root.tree) {
      ShortFatServesNothing(config, root.tree, layout.value.hotRanges, host.files);
    }
  }

  lemma ScannedAccepted(config: Config, root: Node)
    requires Scanned(config, root)
    ensures Accepted(config, root.tree)
  {
  }

  lemma LayoutBytes(config: Config, root: Tree, hot: seq<Range>)
    ensures LayoutOf(config, root, hot).totalBytes == config.totalBytes
  {
  }

  lemma WholeImage(l: Layout, files: Sources)
    ensures |l.Image(files)| == l.totalBytes && l.Image(files)[0..l.totalBytes] == l.Image(files)
  {
  }
}
