# The virtual exFAT volume of RemotePFS, in Dafny

RemotePFS offers a directory tree as a USB drive formatted with exFAT. There is no image anywhere: a builder lays
the volume out, and a mapper answers every read from stored metadata sectors, from FAT and bitmap sectors that it
generates on the fly, from slices of source files, or with zeros. This project models the builder
(`exfat_builder.py`), the mapper (`sector_mapper.py`) and the activation cutover of the service (`service.py`), and
proves that the parts agree.

## What is proved

* **The volume reads back.** `Reader` is an exFAT reader that uses nothing but the bytes of the image and the numbers
  of the specification: it compares and verifies the boot regions, takes the sizes of sectors and clusters from them,
  follows the FAT, checks the up-case table, parses directories with their checksums and name hashes, and cuts files
  to their length. What both sides need, the checksums, the upper case and the order of names, is characterised on
  its own (`Checksums`, `Names`). `EndToEnd.ServedTreeMountsIff` says for every tree that the build accepts that this
  reader gets the scanned tree and all file contents back, for all contents of the source files, if and only if three
  conditions on the scanned tree and the image size hold. `Mapper.SectorMapper.Read` says that a read delivers slices
  of the same image.
* **Where the code falls short.** The three conditions are not always met, and the proofs say exactly when: the FAT
  is sized for `ClusterCount` instead of `ClusterCount + 2` entries, and a directory reserves one entry too few for
  each child. `Limits` has a concrete accepted tree for each of them. Without FAT room nothing can be mounted at
  all (`Breaks`). Where the exFAT specification (revision 1.00, section 3.1.7) and the code disagree, the model
  follows the code.
* **Geometry.** The fixpoint search is safe for every image size although it need not converge; the proof is the
  parity argument (`Geometry`), and one round less would be wrong.
* **Lazy forms.** Lazy FAT and bitmap sectors refine the eager FAT and the allocated runs; bitmap, FAT and runs
  agree, and no two regions collide (`Fat`, `Bitmap`, `Regions`).
* **Mapper.** Reads, extents, metadata ranges and prefetch ranges are loops proved against the meaning of the image;
  extents are unique; prefetch is exact under a condition that is again necessary, and each of its two categories has
  its own exact reach (`Mapper`, `Ranges`, `Prefetch`).
* **Builder.** `Builder.ExfatBuilder.Build` works on mutable nodes, with both assignment passes, the explicit-stack
  walk, field-by-field printing and the metadata dictionary, and is proved equal to the specification `Plan.LayoutOf`
  about which all of the above is stated.
* **Cutover.** A step machine in which every manager call may raise with a part of its effect, and a stop may return
  without one, with ejects and compilations in between (`Cutover`), and a service whose methods take its steps
  (`Service`). Its safety is stated for every world that the service can start over, with the exact condition on that
  world, and along single runs with the exact condition on the bind. A prefetch worker that cannot be started blocks
  all later activations, and the exact condition under which an eject can still unbind the gadget is proved.

## How the files fit together

`Consts`, `Wrappers`, `Sets`, `Bits`, `Bytes`, `Checksums`, `Sorting`, `Names` are the ground. `Geometry`, `Runs`,
`Fat`, `Bitmap`, `Trees`, `Directory`, `Boot`, `Layouts`, `Plan` say what a build produces and what each byte of the
image is. `Allocation`, `Served`, `ServedImage`, `Streams` derive where everything ends up; `DirectoryReader`,
`Reader`, `Mounting`, `RoundTrip`, `Breaks`, `EndToEnd`, `Limits` are the reader and the round trip; `Regions`,
`Announced` and `Prefetch` the other global properties. `Nodes`, `Filling`, `Printing`, `Storing`, `Builder` are the
imperative builder; `Ranges`, `Host`, `Mapper` the mapper, `Serving` both together; `Cutover`, `Service` the service.

## What the model takes as given

* Configuration and scan: the image size is at most 2047 GiB, the root has the empty path and all other nodes have
  non-empty paths and names of 1 to 255 UTF-16 units, nodes are distinct, and files have no children. `config.py`
  (lines 170-171 and 270-283) and the file system guarantee this. A size that is unaligned or too small raises in
  `Builder.CreateBuilder`.
* `str.upper` of one character is any function from 16-bit units to code point sequences, and SHA-256 any function
  from strings to 32 bytes; the timestamps of a node are given as exFAT dates and times.
* Source files are byte strings by path. Opening one may fail, and it may be longer or shorter than scanned, but it
  does not change while it is served.
* A manager call that returns had its effect, but for stops and starts, which check nothing and may have had less; one
  that raises may have had a part of it; starting a unit that already runs does nothing. A job of the service manager
  has its effect before its call returns or not at all. A generation stands for the mapper state that it writes, so
  that a server left behind by an earlier process may or may not serve the state of generation 1. Compilations are
  atomic, and so is stopping a worker.

## Model

| member | source | states |
|---|---|---|
| EndToEnd.ServedTreeMountsIff | src/remotepfs/exfat_builder.py:301-376 | for every accepted tree that fits: reading the served image back gives the scanned tree (names, order, kinds, sizes, file bytes) for all source contents, if and only if the FAT reaches the last allocated cluster, every directory keeps its entries within its reservation, and no file byte lies under the last directory's end marker |
| EndToEnd.ExpectedUnchanged | src/remotepfs/exfat_builder.py:310-328 | assigning clusters does not change what a console should see |
| EndToEnd.MountableUnchanged | src/remotepfs/exfat_builder.py:310-333 | the condition of the round trip depends on the scanned tree and the image size only |
| EndToEnd.ConditionsUnchanged | src/remotepfs/exfat_builder.py:310-333 | so does each of its three parts |
| EndToEnd.ShortFatServesNothing | src/remotepfs/exfat_builder.py:487-488 | when all directories keep their entries but the FAT is too short, the served image of a scanned tree cannot be mounted, for all source contents |
| EndToEnd.CoveredClusterIsZero | src/remotepfs/exfat_builder.py:631-633 | when only the last end marker overflows, the whole first cluster behind the directories reads as zeros, for all source contents |
| Serving.ReadBack | tests/test_virtual_fs.py:314-391 | building, reading the whole volume into a buffer and closing: raises exactly as the build does, needs no more than that all sources can be opened, and the buffer reads back as the scanned tree when the tree is mountable, or not at all when the FAT is too short |
| Serving.CompleteIsAvailable | src/remotepfs/sector_mapper.py:56-70 | when all sources of a built tree can be opened, every sector can be served |
| Breaks.BrokenUnmounts | src/remotepfs/exfat_builder.py:494-515 | a node at or below which a chain breaks off leads a reader nowhere |
| Breaks.ShortFatUnmounts | src/remotepfs/exfat_builder.py:487-488 | with all entries kept and a FAT that is too short, no mount succeeds, for all source contents |
| RoundTrip.MountRoundTripIff | src/remotepfs/exfat_builder.py:301-376 | the same equivalence for a tree whose clusters are assigned; necessity by source files of ones |
| RoundTrip.MountableServes | src/remotepfs/exfat_builder.py:334-353 | under the condition every node is served: complete chain, no lost entry, right file bytes |
| RoundTrip.CoveredSector | src/remotepfs/exfat_builder.py:343-352 | when the last end marker overflows, the first cluster behind the directories reads as zeros, whatever file owns it |
| RoundTrip.ServedNeedsFat | src/remotepfs/exfat_builder.py:487-488 | a volume that is served completely has FAT entries up to the last allocated cluster |
| Limits.FullImageDoesNotMount | src/remotepfs/exfat_builder.py:329-330 | a concrete tree that the build accepts and whose image the reader of this model cannot mount, whatever the file holds: 32768 clusters, all used, 32768 FAT entries |
| Limits.CrowdedMountsIff | src/remotepfs/exfat_builder.py:464-473 | concrete accepted trees, up to 2047 files with different names of five units in one directory: the volume reads back for all contents of the files, if and only if there are at most 1365 of them |
| Limits.CrowdedLosesEntries | src/remotepfs/exfat_builder.py:464-473 | a concrete accepted tree, 1366 files with different names of five units in one directory: entries are lost and the volume does not read back |
| Limits.CrowdedCoversFile | src/remotepfs/exfat_builder.py:627-633 | a concrete accepted tree, 1024 files with different names of 16 units in one directory: all entries are kept and the FAT suffices, but the first cluster of the first file, cluster 6, reads as zeros and the volume does not read back |
| Limits.WidePrefetchInexact | src/remotepfs/sector_mapper.py:185-196 | a concrete accepted tree, 32750 empty directories in an image of 32768 clusters: a sector behind the FAT is read ahead that is no metadata |
| Limits.ShortNamesKept | src/remotepfs/exfat_builder.py:465-473 | the exact numbers of children with names of at most 15 units for which a directory below the root keeps its entries, and for which its end marker fits too |
| Mounting.TreeRight | src/remotepfs/exfat_builder.py:635-661 | a node of the tree mounts as expected exactly when it and everything below it is served as it should be |
| Mounting.VolumeRight | tests/test_virtual_fs.py:314-391 | the whole volume mounts as expected exactly when every node is served as it should be |
| Mounting.DirectoryParses | src/remotepfs/exfat_builder.py:596-633 | the reserved part of a printed directory parses to its sorted children, or to fewer records when an entry is lost |
| Mounting.FileHolds | src/remotepfs/exfat_builder.py:320-325 | every file run holds at least the size of the file |
| Mounting.RootUpcase | src/remotepfs/exfat_builder.py:620-626 | the up-case table announced by the root directory is found, complete, and passes its checksum |
| Geometry.ComputeGeometry | src/remotepfs/exfat_builder.py:475-492 | the search loop with its early exit and its eight rounds computes the specified geometry |
| Geometry.StepAntitone | src/remotepfs/exfat_builder.py:482-491 | a longer FAT never leads to a longer FAT in the next round |
| Geometry.SearchConsistent | src/remotepfs/exfat_builder.py:482-491 | the search stops on a FAT that ends before the heap: the iterates alternate, and an even number of rounds starts from a low one |
| Geometry.GeometrySafe | src/remotepfs/exfat_builder.py:475-492 | for every image size the heap is aligned and behind the FAT; with a cluster, the FAT has 256 sectors per 32768 clusters, the heap lies in the image, and one more cluster would not fit |
| Geometry.SearchOscillates | src/remotepfs/exfat_builder.py:482-492 | an image size for which the FAT length still changes in the eighth round |
| Geometry.OddBoundOverlaps | src/remotepfs/exfat_builder.py:482 | for the same size seven rounds would make FAT and heap overlap |
| Geometry.FatHasAllEntriesIff | src/remotepfs/exfat_builder.py:486-488 | the FAT has ClusterCount + 2 entries exactly when the cluster count leaves a remainder of 1 to 32766 by 32768 |
| Geometry.FatTooShort | src/remotepfs/exfat_builder.py:486-488 | an image of 32768 clusters gets a FAT of 32768 entries |
| Geometry.LargestGeometry | src/remotepfs/exfat_builder.py:475-492 | the geometry of the default image of 2047 GiB, whose FAT has an entry for every cluster |
| Allocation.PlaceWalk | src/remotepfs/exfat_builder.py:313-328 | walking the placed tree visits the scanned nodes in order, each with the first cluster and the count that its position prescribes |
| Allocation.PlacedTree | src/remotepfs/exfat_builder.py:313-328 | placing is consistent: the placed tree prescribes its own numbers and the same next free cluster |
| Allocation.KindTiles | src/remotepfs/exfat_builder.py:313-325 | the runs of all directories, and those of all files, lie end to end |
| Allocation.AllocationTiles | src/remotepfs/exfat_builder.py:306-333 | all allocated runs lie end to end from cluster 2 to the next free cluster |
| Served.PlacingBuilds | src/remotepfs/exfat_builder.py:310-330 | an accepted tree that fits can be placed, with the same nodes in the same order |
| Served.Tilings | src/remotepfs/exfat_builder.py:306-333 | directories, files and all runs tile their parts of the heap, and take no more clusters than the image has |
| Runs.TilesCover | src/remotepfs/exfat_builder.py:428-443 | a tiling covers exactly the clusters between its ends |
| Runs.TilesTotal | src/remotepfs/exfat_builder.py:428-443 | the counts of a tiling sum to its width |
| Runs.TilesSorted | src/remotepfs/exfat_builder.py:443 | sorting the collected runs does not change them |
| Nodes.WalkShapes | src/remotepfs/exfat_builder.py:456-462 | the recursive walk over nodes is the walk over their trees |
| Nodes.StackStep | src/remotepfs/exfat_builder.py:450-453 | popping a node and pushing its children in reverse keeps the visiting order |
| Nodes.WalkStatic | src/remotepfs/exfat_builder.py:445-454 | the walk with an explicit stack terminates and returns the preorder of the given nodes taken from the last one on |
| Nodes.WalksAgreeIff | src/remotepfs/exfat_builder.py:445-462 | the two walks agree exactly when no visited file has children |
| Builder.CreateBuilder | src/remotepfs/exfat_builder.py:292-299 | an unaligned or too small image size raises |
| Builder.ClustersOfNode | src/remotepfs/exfat_builder.py:464-473 | the cluster count computed from a node is the one of its tree |
| Builder.AssignDirectories | src/remotepfs/exfat_builder.py:313-317 | the first pass gives every directory of the walk its run, in order |
| Builder.AssignFiles | src/remotepfs/exfat_builder.py:319-328 | the second pass gives every file its run behind the directories and collects its mapping |
| Builder.ExfatBuilder.AssignClusters | src/remotepfs/exfat_builder.py:311-328 | both passes: every node carries its placed numbers; next free cluster and mappings are right |
| Builder.DirectoryRuns | src/remotepfs/exfat_builder.py:438-441 | the runs of the directories, collected with the explicit stack, are those of the recursive walk |
| Builder.AllocatedRanges | src/remotepfs/exfat_builder.py:428-443 | the sorted ranges are bitmap, up-case table, directories and files |
| Builder.ExfatBuilder.WriteDirectories | src/remotepfs/exfat_builder.py:345-352 | the writes of the directories below the root |
| Builder.ExfatBuilder.WriteMetadata | src/remotepfs/exfat_builder.py:334-352 | the dictionary holds exactly what the specified sequence of writes leaves behind |
| Builder.ExfatBuilder.EntryRecords | src/remotepfs/exfat_builder.py:710-723 | one record for every node below the root, in the order of the walk, with its stable id |
| Plan.FileIdOf | src/remotepfs/exfat_builder.py:182-186 | a file id is made of the low 31 bits of the first four digest bytes |
| Plan.RecordsDescribe | src/remotepfs/exfat_builder.py:326-328 | entries and file mappings of a layout carry name, path, source, size, kind and clusters of their nodes, in walk order |
| Plan.FileClusters | src/remotepfs/exfat_builder.py:322-323 | a file gets the least number of clusters that hold it, and at least one |
| Builder.ExfatBuilder.LayOut | src/remotepfs/exfat_builder.py:331-376 | the finished layout is the specified one, and its hot ranges are exactly its stored sectors |
| Builder.ExfatBuilder.Build | src/remotepfs/exfat_builder.py:305-376 | succeeds exactly when the clusters suffice; then the layout is the specified one for the placed tree, its hot ranges are the maximal stretches of stored sectors, and every node carries its clusters |
| Filling.FilledIsPlaced | src/remotepfs/exfat_builder.py:313-328 | the nodes together with the numbers they carry are the placed tree |
| Filling.FilledWalk | src/remotepfs/exfat_builder.py:456-462 | walking nodes and reading their numbers commute |
| Filling.SortFilled | src/remotepfs/exfat_builder.py:627 | sorting nodes by name sorts their trees |
| Plan.StoredAt | src/remotepfs/exfat_builder.py:564-570 | the last write that covers a sector decides its contents |
| Plan.StoredKeys | src/remotepfs/exfat_builder.py:564-570 | a sector is stored exactly when some write covers it |
| Storing.MetadataStore.PutSectors | src/remotepfs/exfat_builder.py:564-570 | the given number of zero-padded sectors is stored, all others stay |
| Storing.MetadataStore.PutClusterBytes | src/remotepfs/exfat_builder.py:572-577 | padding to whole sectors neither changes nor adds a sector |
| Storing.MetadataStore.PutBootRegions | src/remotepfs/exfat_builder.py:517-551 | the interleaved loop stores the region at sector 0 and again at sector 12 |
| Storing.BootSectors | src/remotepfs/exfat_builder.py:528-543 | the field writes give the eleven boot sectors; every value fits its field |
| Storing.BootRegionBytes | src/remotepfs/exfat_builder.py:544-546 | checksum over the boot sectors, repeated over sector 11 |
| Boot.RegionFields | src/remotepfs/exfat_builder.py:529-543 | every geometry that fits the fields is decoded as printed, and the signatures are in place |
| Boot.RegionChecksum | src/remotepfs/exfat_builder.py:553-562 | every 32-bit number of sector 11 is the checksum recomputed over the sectors before it |
| Boot.BootRoundTrip | src/remotepfs/exfat_builder.py:517-562 | a reader that compares both regions and recomputes the checksum gets the printed geometry |
| ServedImage.RegionServed | src/remotepfs/exfat_builder.py:549-551 | both boot regions are in the served image, equal |
| ServedImage.VolumeServed | src/remotepfs/exfat_builder.py:517-562 | the served boot regions verify and decode to the volume of the build |
| ServedImage.BootMatchesLayout | src/remotepfs/exfat_builder.py:517-562 | what a reader decodes from the served boot sector, the sizes of sectors and clusters included, is the geometry that the mapper uses, down to the address of every cluster |
| ServedImage.BootBytesServed | src/remotepfs/exfat_builder.py:526-551 | both boot sectors of the served image byte for byte: jump, name, zeros, size, FAT offset 2048, serial from the label's digest, revision, shifts 9 and 8, one FAT, signature; and the checksum over all but three bytes, 128 times |
| Boot.Sizes | src/remotepfs/exfat_builder.py:542 | the announced shifts stand for sectors of 512 and clusters of 131072 bytes |
| Directory.ExactDirectorySize | src/remotepfs/exfat_builder.py:464-473 | a printed directory has the counted entries plus one for each child, rounded up to whole clusters |
| Directory.DirectoryFitsIff | src/remotepfs/exfat_builder.py:464-473 | it stays within its reservation exactly when both counts need the same number of clusters |
| Directory.ListingSorted | src/remotepfs/exfat_builder.py:627 | the printed children are a permutation of the given ones, ascending by name |
| Bytes.ComputeChecksum | src/remotepfs/exfat_builder.py:698-708 | the rotate-and-add loop with skipped positions, for 16 and 32 bits |
| Bytes.ChecksumSkips | src/remotepfs/exfat_builder.py:698-708 | a checksum does not depend on the bytes that it skips |
| Checksums.RotateBits | src/remotepfs/exfat_builder.py:706 | one rotation moves every bit one place down and the lowest one to the top |
| Checksums.ChecksumStep | src/remotepfs/exfat_builder.py:698-708 | a zero byte rotates the checksum of the bytes before it, any other byte is added to that, a skipped byte changes nothing |
| Checksums.ChecksumRotates | src/remotepfs/exfat_builder.py:698-708 | the checksum obeys these laws for every width and every set of skipped positions |
| Checksums.ChecksumUnique | src/remotepfs/exfat_builder.py:698-708 | no other function obeys them |
| Checksums.ChecksumOfOne | src/remotepfs/exfat_builder.py:688-708 | a one that is followed by n zeros ends at bit (w - n) modulo w, for 16 and 32 bits |
| Names.ComputeNameHash | src/remotepfs/exfat_builder.py:676-686 | the loop over upper-cased units, two bytes each, computes the name hash |
| Names.TableHashIsNameHash | src/remotepfs/exfat_builder.py:586-594 | the stored hash is the one recomputed through the up-case table of the volume |
| Names.TableUppers | src/remotepfs/exfat_builder.py:579-594 | the table holds exactly what `str.upper` makes of a unit, where that is one unit, and the unit itself otherwise, low byte first |
| Names.NameHashOf | src/remotepfs/exfat_builder.py:676-686 | the name hash is the checksum of the upper-cased units, so that names that differ in case only share it |
| Names.NameLeIff | src/remotepfs/exfat_builder.py:627 | names are ordered by their first different code point; a prefix comes first |
| Names.Utf16RoundTrip | src/remotepfs/exfat_builder.py:638 | every name is recovered from its UTF-16 units |
| Names.UnitBytesRoundTrip | src/remotepfs/exfat_builder.py:638 | units are recovered from their little-endian bytes |
| Printing.PutTimestamps | src/remotepfs/exfat_builder.py:663-674 | six times and dates, two increments and three zone bytes, each in its place |
| Trees.StampsRoundTrip | src/remotepfs/exfat_builder.py:663-674 | the three timestamps are decoded as stored; only the increment of the last access is dropped |
| Printing.PrimaryEntry | src/remotepfs/exfat_builder.py:638-645 | the field writes of the file entry |
| Printing.StreamEntry | src/remotepfs/exfat_builder.py:646-654 | the field writes of the stream entry; every value fits its field |
| Printing.NameChunks | src/remotepfs/exfat_builder.py:655-657 | the chunks of fifteen units, zero-padded, one entry for an empty name |
| Printing.FileEntrySet | src/remotepfs/exfat_builder.py:635-661 | the whole entry set with its checksum patched in |
| Printing.RootEntries | src/remotepfs/exfat_builder.py:608-626 | volume label, bitmap and up-case entries of the root |
| Printing.ChildSets | src/remotepfs/exfat_builder.py:627-628 | the entry sets of the children in the order of their names |
| Printing.PrintDirectory | src/remotepfs/exfat_builder.py:596-633 | entries, end marker, zeros up to a whole cluster |
| DirectoryReader.SetChecksumVerifies | src/remotepfs/exfat_builder.py:658-661 | the stored set checksum still verifies after it has been patched in |
| DirectoryReader.SetNumbers | src/remotepfs/exfat_builder.py:639-654 | attribute, timestamps, time zones, flags, hash, lengths and first cluster are decoded as printed |
| DirectoryReader.StoredHash | src/remotepfs/exfat_builder.py:650 | the hash stored in an entry set is the checksum of the upper-cased name |
| DirectoryReader.SetRoundTrip | src/remotepfs/exfat_builder.py:635-661 | decoding an entry set gives name, kind, timestamps, first cluster and length of the node |
| DirectoryReader.DirectoryRoundTrip | src/remotepfs/exfat_builder.py:596-633 | the first bytes of a printed directory parse to exactly its sorted children when all entry sets lie within them, and never to as many records otherwise |
| DirectoryReader.ParseTruncated | src/remotepfs/exfat_builder.py:627-632 | a directory that breaks off inside its entry sets yields fewer records or none |
| DirectoryReader.FindSpecials | src/remotepfs/exfat_builder.py:608-626 | a reader finds the three special entries of the root |
| DirectoryReader.SpecialNumbers | src/remotepfs/exfat_builder.py:615-626 | clusters, lengths and checksum in them are decoded as printed |
| DirectoryReader.LabelRoundTrip | src/remotepfs/exfat_builder.py:609-614 | a label of at most eleven units reads back |
| DirectoryReader.LabelStored | src/remotepfs/exfat_builder.py:608-613 | of a label the first eleven units are stored, counted, and followed by zeros |
| DirectoryReader.SetReserved | src/remotepfs/exfat_builder.py:638-654 | the reserved bytes of file and stream entries are zero |
| DirectoryReader.SpecialReserved | src/remotepfs/exfat_builder.py:614-626 | so are those of the bitmap and up-case entries |
| Fat.PackChain | src/remotepfs/exfat_builder.py:511-514 | writes the chain of one run; raises exactly when the run leaves the FAT |
| Fat.FatBytes | src/remotepfs/exfat_builder.py:494-515 | the eager FAT: succeeds exactly when every run fits, and then each entry is the one that the runs prescribe |
| Fat.LazyRefinesEager | src/remotepfs/sector_mapper.py:86-103 | for disjoint runs every lazily generated sector is the slice of the eager FAT |
| Fat.LinkOfRun | src/remotepfs/sector_mapper.py:98-101 | a cluster of a run links to its successor, the last one ends the chain |
| Fat.EntryIffAllocated | src/remotepfs/sector_mapper.py:95-101 | a FAT entry is not zero exactly when some run holds the cluster |
| Mapper.LazyFatSector | src/remotepfs/sector_mapper.py:86-103 | the loop over 128 entries gives the specified FAT sector; every value fits 32 bits |
| Mapper.LookUp | src/remotepfs/sector_mapper.py:97-101 | the first run that holds the cluster decides |
| Bitmap.SetBitSets | src/remotepfs/sector_mapper.py:114 | setting a bit changes that bit only |
| Bitmap.BitmapSectorUnique | src/remotepfs/sector_mapper.py:105-115 | a sector with the right 4096 bits is the bitmap sector |
| Bitmap.AllocatedBitsCount | src/remotepfs/sector_mapper.py:105-115 | the number of bits of disjoint runs is the sum of their lengths |
| Mapper.MarkBit | src/remotepfs/sector_mapper.py:113-114 | marks one bit of the sector and no other |
| Mapper.LazyBitmapSector | src/remotepfs/sector_mapper.py:105-115 | the loops over runs and clusters give the specified bitmap sector |
| Announced.VolumeBitmapRight | src/remotepfs/exfat_builder.py:614-619 | whenever the root directory can be read, the bitmap that it announces can: one bit for each cluster, set exactly for the clusters below the first free one, and zeros behind |
| Announced.VolumeUpcaseRight | src/remotepfs/exfat_builder.py:579-594 | whenever the root directory can be read, the up-case table that it announces can, and it maps each unit to what `str.upper` makes of it, where that is one unit, and to itself otherwise |
| Announced.AnnouncedMatchesLayout | src/remotepfs/exfat_builder.py:356-376 | bitmap, up-case table and label that the root directory announces are those of the layout |
| Announced.BitmapStream | src/remotepfs/exfat_builder.py:306-307 | the chain of the bitmap is always complete |
| Regions.BitmapServed | src/remotepfs/sector_mapper.py:105-115 | every bit of the served bitmap, behind the last cluster too, tells whether its cluster is allocated |
| Regions.BitmapAndFatAgree | src/remotepfs/sector_mapper.py:86-115 | bitmap bit, allocation, position below the first free cluster and non-zero FAT entry agree for every cluster |
| Regions.BitmapCounts | src/remotepfs/sector_mapper.py:105-115 | the number of set bits is the sum of the run lengths, and none lies behind the last allocated cluster |
| Regions.EagerFatFitsIff | src/remotepfs/exfat_builder.py:494-515 | the eager FAT fits exactly when the FAT reaches the last allocated cluster |
| Regions.EagerFatServed | src/remotepfs/exfat_builder.py:494-515 | the FAT region of the served image is the eager FAT, byte for byte |
| Regions.ChainsNeverMeet | src/remotepfs/sector_mapper.py:86-103 | following the served FAT from the first cluster of a run visits the run in order and ends; chains of two runs share no cluster |
| ServedImage.FatServed | src/remotepfs/sector_mapper.py:117-153 | the FAT entry that a reader finds in the image is the one of the runs |
| ServedImage.FatLiterals | src/remotepfs/sector_mapper.py:86-103 | the served FAT entry of every cluster: the two reserved values, zero for a free cluster, the successor within a run, and 0xFFFFFFFF at its end |
| Streams.ChainOfRun | src/remotepfs/sector_mapper.py:86-103 | from any cluster of a run the walk visits the rest of it; it breaks off exactly when the FAT is too short |
| Streams.StreamOfRun | src/remotepfs/sector_mapper.py:117-153 | reading a run gives the bytes at its address, exactly when the FAT reaches its end |
| Streams.DirectoryStream | src/remotepfs/exfat_builder.py:343-352 | the stream of a directory is what was printed for it, up to its reservation |
| Streams.UpcaseStream | src/remotepfs/exfat_builder.py:344 | the stream of the up-case table is the table |
| Streams.FileStream | src/remotepfs/sector_mapper.py:144-149 | the stream of a file is the source, then zeros |
| Streams.MappingUnique | src/remotepfs/sector_mapper.py:63-69 | the first mapping found for a sector of a file is the file's own |
| Regions.RegionsApart | src/remotepfs/exfat_builder.py:306-353 | boot regions, FAT and all allocated runs lie in ascending order, apart, inside the image |
| Regions.OneOriginIff | src/remotepfs/sector_mapper.py:56-84 | stored sectors, FAT, bitmap and file mappings exclude each other, so that the order of lookup does not matter, exactly when there are no files or no directory is printed into their clusters |
| Regions.FittingBeforeFiles | src/remotepfs/exfat_builder.py:464-473 | directories that fit their reservations are not printed into the clusters of files |
| Regions.WritesApartIff | src/remotepfs/exfat_builder.py:564-577 | no metadata write overwrites another one exactly when every directory with a successor fits its reservation |
| Served.FreeSector | src/remotepfs/exfat_builder.py:334-353 | between the boot regions and the up-case table nothing is stored |
| Served.DirectorySector | src/remotepfs/exfat_builder.py:343-352 | the reserved sectors of a directory hold the beginning of what was printed for it |
| Served.OverflowSector | src/remotepfs/exfat_builder.py:345-352 | behind the directories a sector is stored exactly when some directory was printed that far |
| Host.Clip | knowledge-base/13-future-features.md:137 | a positional read is short only at the end of the file |
| Mapper.SectorMapper.constructor | src/remotepfs/sector_mapper.py:27-30 | starts without descriptors |
| Mapper.SectorMapper.Open | src/remotepfs/sector_mapper.py:246-249 | opens a source at most once, or raises when it cannot be opened; descriptors and cached paths stay in bijection |
| Mapper.SectorMapper.Close | src/remotepfs/sector_mapper.py:240-244 | no descriptor stays open |
| Mapper.SectorMapper.MetadataSector | src/remotepfs/sector_mapper.py:72-84 | stored, FAT or bitmap sector, in this order, or none |
| Mapper.SectorMapper.Map | src/remotepfs/sector_mapper.py:56-70 | the origin of every sector; raises outside the image and for a missing source |
| Mapper.SectorMapper.ReadPart | src/remotepfs/sector_mapper.py:141-151 | one sector's part of a read, zero-padded behind the end of the source |
| Mapper.SectorMapper.Fill | src/remotepfs/sector_mapper.py:134-152 | the loop of a read: the bytes of the image, or those up to the first source that cannot be opened, with the rest of the buffer left alone |
| Mapper.SectorMapper.Read | src/remotepfs/sector_mapper.py:117-153 | every in-range read yields the slice of the image, independent of the descriptor cache; each error condition, and what the buffer holds after it |
| Mapper.SectorMapper.ReadBytes | src/remotepfs/sector_mapper.py:155-159 | returns the slice of the image, exactly for readable ranges inside the image |
| Mapper.SectorMapper.RunEnd | src/remotepfs/sector_mapper.py:171-174 | the end of the maximal run of sectors of one kind |
| Mapper.SectorMapper.Scan | src/remotepfs/sector_mapper.py:167-176 | the outer loop: maximal alternating extents |
| Mapper.SectorMapper.Extents | src/remotepfs/sector_mapper.py:161-176 | raises exactly when the range starts before the image or a source of one of its bytes is missing; otherwise every requested byte of the image lies in exactly one extent, less than a sector is added on each side, and the extents tile the rounded range and alternate in kind |
| Mapper.ExtentsUnique | src/remotepfs/sector_mapper.py:161-176 | there is only one such list of extents |
| Mapper.ZeroExtentReadsZero | src/remotepfs/sector_mapper.py:161-176 | every byte of a zero extent reads as zero; no sector of a data extent is zero by origin |
| Mapper.SectorMapper.IsMetadataRegion | src/remotepfs/sector_mapper.py:232-238 | true exactly when the sector of every byte is metadata |
| Mapper.SectorMapper.ReadMetadata | src/remotepfs/sector_mapper.py:226-230 | raises unless all is metadata, or when the range leaves the image; otherwise reads without needing any source |
| Mapper.MetadataReadable | src/remotepfs/sector_mapper.py:226-230 | a metadata range is readable whatever sources are missing |
| Mapper.MetadataOnlyIff | src/remotepfs/sector_mapper.py:232-238 | a range is metadata only exactly when the sector of each of its bytes is |
| Mapper.ReadableIff | src/remotepfs/sector_mapper.py:134-152 | a range is readable exactly when the sector of each of its bytes can be served |
| Ranges.Coalesce | src/remotepfs/sector_mapper.py:208-215 | ascending, non-touching ranges that cover the same bytes |
| Ranges.PiecesTile | src/remotepfs/sector_mapper.py:217-223 | the pieces of a range are in bounds, in order, and full but for the last |
| Ranges.PiecesCover | src/remotepfs/sector_mapper.py:217-223 | the pieces of a range cover exactly the range |
| Ranges.BoundedRanges | src/remotepfs/sector_mapper.py:205-224 | for any input: ascending disjoint pieces of 1 to 65536 bytes that cover exactly the bytes of the input |
| Ranges.TotalLengthCounts | src/remotepfs/preloader.py:75 | the summed length of the pieces is the number of bytes in them |
| Ranges.DistinctBytesCount | src/remotepfs/preloader.py:75 | the summed length of the pieces is the number of distinct bytes of the ranges that they were made from, in any order and with any overlaps |
| Ranges.SortedKeys | src/remotepfs/exfat_builder.py:730 | the keys of a dictionary in strictly ascending order |
| Ranges.Collapse | src/remotepfs/exfat_builder.py:725-736 | the ranges are exactly the maximal stretches of the given sectors |
| Mapper.SectorMapper.DirectoryFatRanges | src/remotepfs/sector_mapper.py:185-196 | the FAT sectors of the root's first cluster and of all other directories |
| Mapper.SectorMapper.GetHotRanges | src/remotepfs/sector_mapper.py:178-203 | bounded pieces that cover exactly what the policy selects |
| Prefetch.SelectedSectors | src/remotepfs/sector_mapper.py:178-203 | sector by sector, what a policy selects: stored sectors, bitmap and directory FAT sectors, or the FAT, or both, or nothing |
| Prefetch.PrefetchExactIff | src/remotepfs/sector_mapper.py:178-203 | with both categories the prefetched bytes are exactly the bytes of metadata sectors, if and only if the directories' FAT entries lie in the FAT or the heap starts right behind it |
| Prefetch.MetadataOnlyIff | src/remotepfs/sector_mapper.py:178-203 | with the directory category, whatever the other one is, nothing but metadata is read ahead, if and only if the same condition holds |
| Prefetch.FatOnly | src/remotepfs/sector_mapper.py:198-203 | with the FAT category alone the bytes read ahead are exactly those of the FAT; with no category there are none |
| Prefetch.DirectoryEntriesReadIff | src/remotepfs/sector_mapper.py:185-196 | with the directory category alone, the FAT entries of all directory clusters are read ahead, if and only if those of the root lie in the first FAT sector, or in the first two with another directory starting in the second |
| Cutover.StepSafe | src/remotepfs/service.py:89-106 | every step keeps the invariant, returning or raising, but for a stop that returns over a running server of another state |
| Cutover.RunSafe | src/remotepfs/service.py:89-106 | from every safe start all reachable states are safe, whatever raises and however ejects and compilations interleave, as long as stops take effect |
| Cutover.BoundIsServedIff | src/remotepfs/service.py:89-106 | for every world that a process can start over: on all runs whose stops take effect the gadget is bound only while the client is connected to a server started on the state last written, if and only if no server is left behind or it serves the state about to be written, and a bound gadget is connected to it |
| Cutover.LeftoverServerIsServed | src/remotepfs/service.py:89-106 | from every other start some run ends up bound to something else |
| Cutover.ServedOnRunIff | src/remotepfs/nbdkit_manager.py:100-115 | along any run over a gadget that is unbound or properly connected, whatever server is left behind and whatever stops do: the gadget is bound only to the state last written, exactly when no bind succeeds over a server of another generation |
| Cutover.LeftServerIsServed | src/remotepfs/nbdkit_manager.py:100-108 | from every start there is a run, with a stop that returns without effect, that ends up bound to another state than the one last written |
| Cutover.GenerationsOnRun | src/remotepfs/service.py:164-167 | on all runs from any start the active generation is a compiled one, and the compiled ones are numbered from 1 on |
| Cutover.IdsIncrease | src/remotepfs/service.py:164-166 | a later compilation gets a strictly larger id, not used before |
| Cutover.RaisingKeepsActive | src/remotepfs/service.py:188-200 | an activation that raises leaves the active generation as it was when it began |
| Cutover.ActiveOnRunIff | src/remotepfs/service.py:89-106 | along a run from a safe start whose stops take effect the bound gadget serves the active generation outside of activations, exactly when no call raises over a gadget bound to a generation not yet active |
| Cutover.ActiveIsServedIff | src/remotepfs/service.py:89-106 | for every start whose gadget is bound properly if at all: that equivalence holds on all runs whose stops take effect, if and only if no server of another state is left behind |
| Cutover.StuckOnRunIff | src/remotepfs/service.py:108-130 | along every run a worker that was never started stays recorded, outside of its own start, exactly when the start of a worker has raised before |
| Cutover.StuckForever | src/remotepfs/service.py:125-130 | from then on the worker and the active generation stay what they are, and no eject unbinds the gadget, for the rest of the run |
| Cutover.EjectUnbindsIff | src/remotepfs/service.py:293-297 | along every run an eject can unbind the gadget exactly when no start of a worker has raised before and none is about to be made |
| Cutover.PrefetchRaisesUnrecorded | src/remotepfs/service.py:105-106 | from every start there is a run in which the console sees a generation that the service does not report, on a gadget that no eject can unbind |
| Service.Hardware.Call | src/remotepfs/service.py:91-106 | a manager call returns with its effect, or with less where it does not check, or raises with a part of it |
| Service.RemotePfsService.StopWorker | src/remotepfs/service.py:125-130 | a recorded worker is stopped and forgotten; one that was never started raises and stays |
| Service.RemotePfsService.Eject | src/remotepfs/service.py:293-297 | stops the worker, ejects the medium, unbinds the gadget, or raises on the way; over a worker that was never started it raises and changes nothing |
| Service.RemotePfsService.Compile | src/remotepfs/service.py:145-167 | succeeds exactly when, on Linux, every source is mounted or can be, every entry is there and of its kind, and the build does not raise; otherwise the first cause in this order decides what is raised, and nothing changes; on success the next id is recorded as compiled |
| Service.RemotePfsService.Interleave | src/remotepfs/service.py:145-167 | any number of ejects and compilations of other threads, as steps of the machine |
| Service.RemotePfsService.ReplaceWorker | src/remotepfs/service.py:110-116 | the old worker is stopped and the new one recorded, not yet started, or nothing changes and the call raises |
| Service.RemotePfsService.StartPrefetch | src/remotepfs/service.py:108-117 | the recorded worker runs, or the call raises and the recorded one has not been started |
| Service.RemotePfsService.ActivateHardware | src/remotepfs/service.py:89-106 | the calls of an activation, with other requests in between, are a path of the machine; a cold start skips the first two |
| Service.RemotePfsService.ActivateGeneration | src/remotepfs/service.py:180-200 | unknown and concurrent requests raise without a step; otherwise the steps lead from the old state to the new one and, when stops take effect, keep it safe; over a worker that was never started it raises; no hardware is touched off Linux; the lock is released; active generation and status change on success only |
| Service.RemotePfsService.Startup | src/remotepfs/service.py:73-87 | a run over whatever world the process finds, safe if that start is; running with generation 1 active, degraded, or left by an exception that is not caught, such as the build's `ValueError` |

## Left out

- Mapper.SectorMapper.Open: whether a source can be opened does not change over time, and reads of an opened source do not raise.
- Builder.ExfatBuilder.Build: starts from the scanned nodes; `_build_tree`, `_scan`, `_source_stat` and symbolic links are not part of this model.
- Reader.Mount: does not compare the partition offset or the serial number, and takes its depth limit from the cluster count, which no tree exceeds.
- Service.Hardware.Call: the subprocesses and ConfigFS writes behind a manager call are reduced to its effect; jobs that take effect later, `shutdown`, and the passes and counters of the prefetch worker, are not part of this model.
- Service.RemotePfsService.Compile: what mounts, file checks and the build do is given with the request; the build itself is `Builder.ExfatBuilder.Build`.
- The children of a node are fixed once it exists; the source appends to them during the scan only.
- Strings with lone surrogates, which Python refuses to encode as UTF-16: a Dafny string has none.
- The checksum rotations use `+` where the source uses `|`; the two operands have no bit in common.
- The modulus of checksums, field widths and truncations are modelled; integers are otherwise unbounded, as in Python.
- `to_state`, `from_state` and pickling: plain copying.
- `_exfat_timestamp`: calendar arithmetic.
- `scan_directory`, `config.py`, `api.py`, `mount_manager.py`, `remotepfs_nbd.py`, and the command line: glue around the core.
- Short reads before the end of a file, source files that change while they are served, nbdkit filters, the kernel and the console.
