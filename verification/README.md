# A verified model of a writable Git file system

The repository serves a Git branch as a read-write NFS file system. Every mutation is applied to an
inode graph and a copy-on-write byte overlay, and logged by path. A commit, at shutdown, on a timer
or after a crash, replays the logs into a fresh graph, rebuilds the Git trees that changed, packs
the new objects, uploads pack and index, moves the branch, and marks the logs done. Objects are
read back from remote packs through an index and a block cache.

This project models those parts in Dafny and proves that they fit together. Run
`dafny verify dfyconfig.toml` to check it.

## How it is built

Code that updates objects in place is a class (`VfsManager`, `StagingStore`, `WalManager`,
`GitNfsFileSystem`, `BlockCache`, `GcsGitStorage`, `GitEngine`) or a method with loops, and each is proved to do
exactly what a function of the state says, or to satisfy a property of its own. What the functions
mean is then proved of them. Concurrent and crash-prone code (the block cache, recovery and
publishing) is a state machine whose steps interleave, fail, are cancelled, or are cut by a crash.
That a reader and a writer agree does not say what a format is: the modules named `Octets`, and the
laws of Git's entry order, speak of single bytes and name no function that reads or writes them.

| part | files |
|---|---|
| paths, inode graph, the tree of paths it shows | `Paths` `GitData` `Inodes` `TreeView` `VfsInvariant` `Population` `VfsChanges` `VfsOperations` `EdgeCases` `VfsManager` |
| staging, log, live server, replay | `Staging` `StagingStore` `Wal` `WalManager` `NfsServer` `GitNfsFileSystem` `Recovery` `ReplayWal` `StoreChanges` `ReplayProofs` `LiveRuns` `Listings` `Handles` `StaleHandles` `Modifications` `Framing` |
| packs and deltas | `Numbers` `Zlib` `Delta` `PackFormat` `PackResolve` `PackReader` `Layout` `PackWriter` `PackPlaces` `LooseObjects` `PackRandomAccess` `ReadersAgree` `PackLoops` `PackOctets` |
| pack index | `Sorting` `PackIndex` `IndexWriter` `IndexLookup` `IndexOctets` |
| block cache | `Blocks` `CacheSteps` `CacheWaits` `BlockCache` |
| recovery and publishing | `Publishing` `PublishingProofs` `PublishingRuns` `PublishingTip` `PublishingParents` `PublishingHistory` `PublishingStrays` |
| trees, pruning, commit, reload | `GitTree` `TreeBuilder` `Sources` `PackClosure` `ClosedPacks` `TreeOrder` `Accretion` `DirtyWalk` `Recovered` `Reload` `Origins` `CommitHolds` `LostDeletions` `Unmodified` `GitBuilder` `CommitRun` `CommitText` `TreeOctets` `TreeWaves` |

Two notions run through the first and last parts. The *view* of a state is the map from paths to
directories or files with their bytes that a client can see in it, whether or not a directory has
been populated yet. A *change* is one step of such a map: create, make a directory, write, resize,
delete, move.

## Model

| member | source | states |
|---|---|---|
| LiveRuns.ReplayRefinesLive | src/wal/recovery.rs:22-144 | Crash recovery refines the live server: for every run of allowed calls from a fresh session, replaying its log into fresh stores succeeds and shows the same tree of paths, though inode numbers and population order differ. |
| LiveRuns.RunKeepsInvariant | src/vfs/inode.rs:71-342 | In every state a run reaches: a name maps to an inode exactly when that inode is listed once under the directory and is a live node with that parent and name; numbers are below the next one; every parent chain reaches the root. |
| LiveRuns.StepMakes | src/nfs/fs.rs:151-489 | Every allowed call either shows nothing new and logs nothing, or makes one change of the tree of paths and logs exactly that change. |
| LiveRuns.CreateMakes | src/nfs/fs.rs:323-355 | CREATE succeeds exactly in a directory, empties or makes the file, logs its path, and answers with the inode that the path then leads to; elsewhere it is an I/O error. |
| LiveRuns.MkdirMakes | src/nfs/fs.rs:390-416 | MKDIR of a free name succeeds exactly in a directory, adds one empty directory, logs its path, and answers with the inode that the path then leads to; elsewhere it is an I/O error. |
| LiveRuns.WriteMakes | src/nfs/fs.rs:281-321 | WRITE succeeds exactly on a file, overwrites its bytes at the offset over the base blob, and logs path, offset and data; on a directory it is refused as one, and changes nothing. |
| LiveRuns.SetSizeMakes | src/nfs/fs.rs:186-226 | SETATTR with a size cuts or extends with zeros, on files only, and logs it; on a directory it is refused as one. |
| LiveRuns.RemoveMakes | src/nfs/fs.rs:418-445 | REMOVE succeeds exactly on a name that is seen, takes away it and all below it, and logs its path; else there is no such entry. |
| LiveRuns.RenameMakes | src/nfs/fs.rs:447-489 | RENAME moves the whole subtree over whatever was at the target and logs both paths, which are printed before the move; it fails, with an I/O error, exactly when the source or the target directory is not seen. |
| LiveRuns.ReadSees | src/nfs/fs.rs:228-279 | READ returns the bytes of the tree of paths at the asked range, and says whether they reach the end; directories and missing blobs are errors. |
| Listings.LookupGives | src/nfs/fs.rs:151-164 | LOOKUP succeeds exactly on a name that the server shows, and gives the inode that its path then leads to. |
| Listings.ListingGives | src/nfs/fs.rs:491-545 | A directory's listing is itself, its parent, and each name that the server shows there, once, with the inode that its path leads to, in the order of its child list; files are refused; nothing shown changes. |
| Listings.PagesOfRun | src/nfs/fs.rs:547-563 | In every state a run reaches, the pages that a client follows are together the listing if and only if the directory is not the root, or the root is empty, or pages hold at least three entries. |
| Listings.RootPages | src/nfs/fs.rs:547-563 | The condition for a listing that starts with the root twice; `PagesCover` is that for a listing without repeats. |
| Handles.CreateReturns | src/nfs/fs.rs:323-355 | In any directory inode, reachable or not, CREATE answers with the live inode of that parent and name, whose content is then staged and empty; no other content changes. |
| Handles.MkdirReturns | src/nfs/fs.rs:390-416 | MKDIR answers with an inode that was not there, of that parent and name: an empty directory. |
| Handles.GoneAnswers | src/nfs/fs.rs:228-321 | WRITE, SETATTR with a size and READ answer that there is no such file exactly for inodes that are unknown, deleted in the graph, or removed in this session. |
| Handles.RemoveMarks | src/nfs/fs.rs:418-445 | REMOVE marks the one inode that LOOKUP of the name gives, in graph and staging; every later call on it answers that it is gone. |
| Handles.LookupDots | src/vfs/inode.rs:154-168 | In every run, LOOKUP of `.` gives the directory and of `..` the one above it, at the root the root. |
| Handles.LoggedAs | src/nfs/fs.rs:281-489 | The entry that each kind of change is logged as, with its printed paths in order. |
| Handles.PathsNoted | src/nfs/fs.rs:72-80 | The path of a call joins the changed paths, both paths of a rename. |
| Handles.PrintedPath | src/vfs/inode.rs:388-391 | A path prints as its names with one slash between each two. |
| Handles.RunNumbers | src/wal/mod.rs:97-113 | In every run, allowed or not, the entries of a log are numbered from 1 on without a gap. |
| StaleHandles.ReachableExactly | src/vfs/inode.rs:273-298 | A path leads to an inode exactly when neither it nor any inode above it is deleted. |
| StaleHandles.RemoveLeavesStale | src/vfs/inode.rs:273-298 | After a directory is removed, a file below it is still a live inode, prints as before, and no path leads to it. |
| StaleHandles.WriteReplays | src/wal/recovery.rs:56-96 | A WRITE to any live file is logged under its printed path; from stores that show what the server showed, replaying the entry shows what the server then shows if and only if a path leads to the file, or writing at that path changes nothing. |
| StaleHandles.CreateReplays | src/wal/recovery.rs:38-49 | The same for a CREATE in any directory inode, removed or not; it answers with the live inode of that parent and name. |
| VfsInvariant.TablesAgree | src/vfs/inode.rs:25-31 | What the invariant says of the three tables: the child map, the child lists and the nodes agree on every name. |
| VfsInvariant.WalkUnique | src/vfs/inode.rs:154-189 | No inode is reached by two paths. |
| Paths.ParseJoin | src/vfs/inode.rs:395-405 | Trimming and splitting a printed path gives back its names. |
| Paths.JoinInjective | src/vfs/inode.rs:390-391 | Different paths print differently, so a log entry names one path. |
| Population.PopulateGrows | src/vfs/inode.rs:71-151 | Populating a directory keeps the invariant and never changes what a path denotes. |
| Population.LookupPathFinds | src/vfs/inode.rs:395-410 | Resolving a printed path finds exactly what the path denotes, populated or not. |
| Population.EnsureParentDirsFinds | src/vfs/inode.rs:414-437 | When the parent exists, it is returned with the last name and nothing is created. |
| Population.PrintThenResolve | src/vfs/inode.rs:364-410 | Printing a reachable inode's path and resolving it gives the inode back. |
| Population.PrintThenParent | src/vfs/inode.rs:364-437 | The printed path's parent and name are the inode's own, and finding them creates nothing. |
| VfsOperations.CreateChanges | src/vfs/inode.rs:216-245 | Creating and staging an empty copy changes one path: the file is new, or empty with its old mode; a directory stays. |
| VfsOperations.MkdirChanges | src/vfs/inode.rs:248-270 | A new directory on a free name adds one path. |
| VfsOperations.RemoveChanges | src/vfs/inode.rs:273-298 | Removing takes away the path and everything below it, and nothing else. |
| VfsOperations.RenameChanges | src/vfs/inode.rs:301-342 | Renaming, not onto or below itself, moves the subtree and keeps the invariant. |
| EdgeCases.RenameKeeps | src/vfs/inode.rs:301-342 | A rename succeeds exactly when source and target directory are seen; and then the tables stay right, and the entry is found under its new path, if and only if it was moved neither onto itself nor below itself. |
| EdgeCases.MovedBelowItself | src/vfs/inode.rs:364-392 | After a move below itself, printing the entry's path ends if and only if it was moved directly inside itself. |
| EdgeCases.MkdirKeeps | src/vfs/inode.rs:248-270 | A new directory keeps the tables right if and only if its name was free. |
| VfsManager.VfsManager.EnsureDirPopulated | src/vfs/inode.rs:71-151 | The method makes of the tables exactly the populated graph, and fails only where there is no directory. |
| VfsManager.VfsManager.Lookup | src/vfs/inode.rs:154-189 | The state and result are those of the lookup function, with `.` and `..`. |
| VfsManager.VfsManager.CreateFile | src/vfs/inode.rs:216-245 | The state and inode are those of the create function that `CreateChanges` gives the meaning of. |
| VfsManager.VfsManager.Mkdir | src/vfs/inode.rs:248-270 | The same for `MkdirChanges`. |
| VfsManager.VfsManager.Remove | src/vfs/inode.rs:273-298 | The same for `RemoveChanges`. |
| VfsManager.VfsManager.Rename | src/vfs/inode.rs:301-342 | The same for `RenameChanges`. |
| VfsManager.VfsManager.GetPath | src/vfs/inode.rs:364-392 | The climbing loop ends when the parent chain does, and prints the names from the root down. |
| VfsManager.VfsManager.LookupPath | src/vfs/inode.rs:395-410 | The loop over the parts is the function that `LookupPathFinds` gives the meaning of. |
| VfsManager.VfsManager.EnsureParentDirs | src/vfs/inode.rs:414-437 | The same for `EnsureParentDirsFinds`. |
| TreeView.Overwrite | src/staging/mod.rs:87-98 | Seek and write: the data stands at the offset, a gap is zeros, the rest is kept. |
| TreeView.Resized | src/staging/mod.rs:128-134 | `set_len`: cut, or extended with zeros. |
| Staging.Slice | src/staging/mod.rs:152-163 | The read returns the bytes of the range that exist, and whether they reach the end. |
| StoreChanges.WriteShows | src/staging/mod.rs:71-110 | Writing to the overlay, over the base blob the first time, overwrites what a reader sees and changes no other path. |
| StoreChanges.TruncateShows | src/staging/mod.rs:113-138 | The same for resizing. |
| StagingStore.StagingStore.WriteAt | src/staging/mod.rs:71-110 | The new overlay is that of the write function, and the new length is returned. |
| StagingStore.StagingStore.Truncate | src/staging/mod.rs:113-138 | The new overlay is that of the truncate function. |
| StagingStore.StagingStore.ReadAt | src/staging/mod.rs:141-164 | A staged file is read by `Slice`; one that is not staged gives nothing. |
| WalManager.WalManager.StartActiveWal | src/wal/mod.rs:57-94 | The header is the first entry of a new log, and takes the next entry number. |
| WalManager.WalManager.LogMutation | src/wal/mod.rs:97-113 | The entry is appended with the next number; without a writer it is dropped and its number used up. |
| WalManager.WalManager.AdvanceSeq | src/wal/mod.rs:51-54 | The log number grows by one and entry numbers start again. |
| GitNfsFileSystem.GitNfsFileSystem.Create | src/nfs/fs.rs:323-355 | The handler leaves graph, overlay and log as the function says that `CreateMakes` gives the meaning of, and keeps the server valid. |
| GitNfsFileSystem.GitNfsFileSystem.Mkdir | src/nfs/fs.rs:390-416 | The same for `MkdirMakes`. |
| GitNfsFileSystem.GitNfsFileSystem.Write | src/nfs/fs.rs:281-321 | The same for `WriteMakes`. |
| GitNfsFileSystem.GitNfsFileSystem.SetSize | src/nfs/fs.rs:186-226 | The same for `SetSizeMakes`. |
| GitNfsFileSystem.GitNfsFileSystem.Remove | src/nfs/fs.rs:418-445 | The same for `RemoveMakes`. |
| GitNfsFileSystem.GitNfsFileSystem.Rename | src/nfs/fs.rs:447-489 | The same for `RenameMakes`. |
| GitNfsFileSystem.GitNfsFileSystem.Read | src/nfs/fs.rs:228-279 | The same for `ReadSees`; it changes nothing. |
| GitNfsFileSystem.GitNfsFileSystem.ReadDir | src/nfs/fs.rs:491-563 | The loops over children and entries give the page of the listing that `ListingGives` and `PagesOfRun` give the meaning of. |
| ReplayProofs.ReplayCreateShows | src/wal/recovery.rs:38-49 | Replaying a create entry creates at its path. |
| ReplayProofs.KindReplayed | src/wal/recovery.rs:38-49 | On a free path a create entry makes an executable, a symbolic link or a plain file, as its kind says, staged empty. |
| ReplayProofs.ReplayMkdirShows | src/wal/recovery.rs:50-55 | Replaying a mkdir entry makes the directory at its path. |
| ReplayProofs.ReplayWriteShows | src/wal/recovery.rs:56-96 | Replaying a write overwrites the file at its path. |
| ReplayProofs.ReplayTruncateShows | src/wal/recovery.rs:97-119 | Replaying a truncate resizes the file at its path. |
| ReplayProofs.ReplayRemoveShows | src/wal/recovery.rs:120-129 | Replaying a remove takes away the path and all below it. |
| ReplayProofs.ReplayRenameShows | src/wal/recovery.rs:130-139 | Replaying a rename moves the subtree. |
| ReplayProofs.ReplayShows | src/wal/recovery.rs:22-144 | Replaying any log of applicable changes succeeds and applies them in order, whatever has been populated before. |
| ReplayWal.ReplayWalEntries | src/wal/recovery.rs:22-144 | The loop over the entries leaves the two objects as the replay function says, and stops where an entry fails. |
| ReplayWal.RecoverSession | src/wal/mod.rs:165-201 | From the log alone, fresh objects show what the crashed server showed, for every run that could have written that log. |
| Modifications.ReplayModifies | src/staging/mod.rs:181-199 | Replaying any log of applicable changes leaves something modified if and only if it creates, writes, resizes or deletes, or makes or moves something under a path that is not blank once trimmed. |
| Framing.DecodeAllFramed | src/wal/proto.rs:118-144 | The loop reads whole frames until one is cut or bad, and counts their bytes. |
| Framing.FrameBytes | src/wal/proto.rs:107-113 | A frame is the number of bytes that follow, in four bytes, highest first, and these bytes. |
| Framing.DecodedBytes | src/wal/proto.rs:118-144 | Byte by byte, what is read of data that starts with any four bytes. |
| Framing.TornLog | src/wal/proto.rs:107-144 | For every list of entries and every cut of its frames, decoding gives exactly the longest run of whole frames before the cut and consumes exactly their length. |
| Framing.LongerSurvives | src/wal/proto.rs:115-144 | A longer surviving prefix only extends what is decoded. |
| Numbers.DecodeVarint | src/git/pack.rs:65-83 | The shift-and-or loop reads the number in base 128, low digits first, and where it ends; cut bytes are an error. |
| Numbers.VarintRoundTrip | src/git/pack.rs:65-83 | An encoded number is read back, to its last byte. |
| Numbers.DecodeDistance | src/git/pack.rs:235-245 | The loop of the distance code computes `Distance`; the random-access reader contains the same loop. |
| Numbers.DistanceDecodes | src/git/gcs_storage.rs:508-518 | A terminated string is read to its end and no further. |
| Numbers.DistanceUnique | src/git/pack.rs:235-245 | Each number is the value of exactly one terminated string. |
| Numbers.DistanceRange | src/git/pack.rs:235-245 | Strings of k bytes cover one contiguous range. |
| Numbers.SameRange | src/git/pack.rs:235-245 | A string has k bytes exactly when its value lies in the k-th range. |
| Zlib.StoredIsLawful | src/git/pack.rs:250-256 | A concrete stored-block codec meets what the proofs ask of zlib: streams are self-delimiting and inflate to what was deflated. |
| Delta.ApplyGitDelta | src/git/pack.rs:85-180 | Applying a delta fails, or gives the concatenation that its parsed copies and inserts denote, with exactly the declared length. |
| Delta.EncodedApplies | src/git/pack.rs:85-180 | Encoding instructions and applying the delta gives their denotation when the declared length is right, and an error when it is not or a copy is out of bounds. |
| PackFormat.SizeRoundTrip | src/git/pack_writer.rs:79-97 | The 4+7+7 bit header gives back type and size. |
| PackFormat.ObjectRoundTrip | src/git/pack_writer.rs:76-110 | What is written for an object reads back as that object, to its last byte. |
| PackFormat.RecordLocal | src/git/gcs_storage.rs:476-501 | A record is known from its own bytes: any window that holds them reads the same. |
| PackOctets.TypeNumbers | src/git/pack.rs:8-29 | Bits 4 to 6 of a record's first byte say what it is: 1 to 4 a whole commit, tree, blob, tag; 6 and 7 the two deltas, with where base and data stand; 0 and 5 nothing. |
| PackOctets.FirstByte | src/git/pack_writer.rs:79-97 | The same bits, and the lowest four of the size, in the first byte that is written. |
| PackOctets.SizeBytes | src/git/pack.rs:205-230 | The type and size that any terminated header bytes say. |
| PackOctets.VarintSums | src/git/pack.rs:65-83 | A varint is the sum of its digits of seven bits, lowest first. |
| PackOctets.DistanceBytes | src/git/pack.rs:235-245 | Distances of one, two and three bytes, in numbers. |
| PackOctets.CopyBytes | src/git/pack.rs:107-139 | A copy with all its bytes: offset and size, lowest first, size 0 meaning 65536; `CopyOffsetLow`, `CopyOffsetHigh` and `CopySizeHigh` say which bit announces which byte. |
| PackOctets.InsertBytes | src/git/pack.rs:150-165 | An insert is its length and its bytes; 0 is no instruction. |
| PackOctets.PackStart | src/git/pack.rs:184-199 | A pack is accepted exactly when it starts with PACK and version 2 or 3; then come four bytes of count. |
| PackOctets.PackLayout | src/git/pack_writer.rs:64-129 | Each object's bytes stand where its entry says, from byte 12 on without a gap; its checksum is over just these; the pack ends with the checksum of all before. |
| PackReader.ParseRecord | src/git/pack.rs:205-309 | The parsing steps read one record and where the next begins. |
| PackReader.ResolvePass | src/git/pack.rs:316-346 | One pass over the waiting deltas resolves only what stands; one that resolves nothing leaves only deltas whose bases are unresolved. |
| PackReader.ResolveAll | src/git/pack.rs:311-357 | The passes end, with success exactly when every record's base chain ends at a whole object, a delta error exactly when a delta with a resolvable base does not apply, and missing bases in the remaining case. |
| PackResolve.UniqueObject | src/git/pack.rs:311-357 | A record stands for at most one object, whatever order deltas come in. |
| PackResolve.SaturatedHasAll | src/git/pack.rs:348-354 | When nothing more can be resolved, everything that stands has been: the loop reaches the least fixpoint. |
| PackReader.UnpackPackfile | src/git/pack.rs:184-358 | Malformed bytes are refused exactly; else the outcome is that of `ResolveAll`, and every id returned is the hash of its own type and data. |
| PackWriter.PushSize | src/git/pack_writer.rs:79-97 | The loop appends the encoded type and size. |
| PackWriter.CreatePackData | src/git/pack_writer.rs:64-129 | The loop writes header, objects and checksum, and an entry per object with its id, start and checksum. |
| PackWriter.WrittenRecords | src/git/pack_writer.rs:64-129 | The reader finds in a written pack the header and each object exactly where it was put. |
| PackWriter.PackThenUnpack | src/git/pack_writer.rs:64-129 | Writing fewer than 2^32 objects under the hashes of their contents and unpacking gives exactly the map from ids to objects. |
| PackRandomAccess.GcsGitStorage.ReadPackObject | src/git/gcs_storage.rs:470-568 | Within the calls it is given, the recursion through deltas by distance and by id gives what `ReadWithin` says of the storage as it was, and the object cache only takes in what reading by id gives. |
| PackRandomAccess.GcsGitStorage.ReadObjectRaw | src/git/gcs_storage.rs:270-337 | The same by id: from the cache, the pack whose index lists the id, or the loose objects; what was read is in the cache. |
| PackRandomAccess.WhereFound | src/git/gcs_storage.rs:270-331 | The order of the search, case by case: the cache; an error for an id of other than 20 bytes; the first index that lists it; its loose file, missing or corrupt being an error. |
| LooseObjects.LooseExactly | src/git/gcs_storage.rs:306-331 | An inflated loose file is read as the bytes after its first NUL, under the type whose name and a space it starts with, and as nothing else. |
| PackRandomAccess.CacheKeepsResults | src/git/gcs_storage.rs:270-337 | Whatever the cache has taken in, every read that ends gives the same object. |
| PackRandomAccess.ReadEnds | src/git/gcs_storage.rs:519-556 | On any bytes, indexes and cache, the program's recursion ends if and only if its chain of bases, by distance and by id and from pack to pack, never comes back to a place whose delta can be read again; then one call more than there are bytes suffices. |
| PackPlaces.NotItself | src/git/gcs_storage.rs:508-532 | A delta by distance whose base chain ends at a whole object is not its own base. |
| PackPlaces.AcceptedHasNoLoop | src/git/pack.rs:311-357 | No pack that the bulk reader accepts has a delta at distance zero. |
| ReadersAgree.ResolversAgree | src/git/gcs_storage.rs:470-568 | In an accepted pack, with an index that lists the base of every delta by id at some record that stands for it, reading any record gives the bulk reader's object or never ends, and ends if and only if its chain does not come back; the last record must fit the window. |
| ReadersAgree.IdsAgree | src/git/gcs_storage.rs:270-295 | By id, whatever ends gives the object of that id. |
| ReadersAgree.LeastEnds | src/git/gcs_storage.rs:519-556 | When bases by id are listed at the copies that take the fewest deltas, reading takes one call more than there are deltas. |
| ReadersAgree.AcceptedReads | src/git/gcs_storage.rs:470-568 | In an accepted pack so listed, which every pack is that has no object twice, every record is read and gives the bulk reader's object. |
| PackLoops.ZeroDistanceNeverEnds | src/git/gcs_storage.rs:519-532 | Reading a delta at distance zero never ends. |
| PackLoops.SelfNamedNeverEnds | src/git/gcs_storage.rs:537-556 | Nor does reading a delta by id whose base's id is listed at the delta itself. |
| PackLoops.DuplicateNeverEnds | src/git/gcs_storage.rs:537-556 | Nor does reading either object of a pack that the bulk reader accepts: `a`, `b` as a delta on `a`, and `a` again as a delta on `b`, when the index lists `a` at its second copy. |
| PackLoops.DuplicateExists | src/git/gcs_storage.rs:537-556 | There is such a pack and index for any two small objects of one type with different ids. |
| PackIndex.Parse | src/git/idx.rs:15-107 | The parse is refused exactly for short data, a wrong header or a large offset out of bounds; else it holds every column as the format says, large offsets filled in, and the offsets sorted. |
| PackIndex.FindOffset | src/git/idx.rs:110-147 | On an index in order, fanout and binary search agree with a linear scan: offset and length, or nothing. |
| PackIndex.GetObjectLenAtOffset | src/git/idx.rs:155-167 | The length is the distance to the next greater offset, and nothing for the last or an unknown one. |
| PackIndex.FanoutSplits | src/git/idx.rs:111-123 | In a sorted list the ids up to a first byte come first, as many as the fanout counts. |
| IndexOctets.ParsedBytes | src/git/idx.rs:15-107 | Place by place, which bytes fanout, ids, offsets of 31 and of 64 bits, and pack checksum are read from. |
| IndexOctets.RefusedBytes | src/git/idx.rs:15-98 | And which bytes are refused. |
| IndexWriter.BuildFanout | src/git/pack_writer.rs:146-156 | Counting first bytes and accumulating gives, for each byte, how many ids are at or below it. |
| IndexWriter.CreateIdx | src/git/pack_writer.rs:132-191 | An offset above 2^31 - 1 is refused, exactly; else the bytes are the columns of the entries in order of their ids. |
| IndexOctets.WrittenColumns | src/git/pack_writer.rs:161-180 | Place by place, where a written index has each id, checksum and offset. |
| IndexOctets.WrittenEnds | src/git/pack_writer.rs:139-188 | It starts with ff 74 4f 63 and version 2, and ends with the pack's checksum and that of all before. |
| IndexOctets.WrittenFanout | src/git/pack_writer.rs:146-158 | Its fanout counts the ids by their first bytes. |
| IndexOctets.WrittenInOrder | src/git/pack_writer.rs:136-137 | Of two ids, the earlier has the lower byte where they first differ. |
| IndexWriter.WrittenParses | src/git/idx.rs:15-107 | A written index is not refused, and its parse has the columns that were written. |
| IndexLookup.WriteThenParse | src/git/pack_writer.rs:132-191 | Writing entries and parsing gives an index in order whose every lookup, present or absent, is right for the entries in any order. |
| IndexLookup.LengthsExact | src/git/idx.rs:129-138 | The distance to the next start is exactly the object's bytes, for all but the last. |
| IndexLookup.WrittenFound | src/git/idx.rs:110-147 | The index of a written pack gives each object its start, and its exact length or 64 KiB for the last. |
| IndexLookup.WriteThenReadById | src/git/gcs_storage.rs:270-295 | Objects written to a pack and its index are read back by id: the object, or nothing for an unknown id. |
| Blocks.GatherStep | src/cache/block.rs:138-152 | Adding a block's overlap gives the range up to the next block. |
| Blocks.GatherEnds | src/cache/block.rs:154-158 | A last or short block completes the range. |
| BlockCache.BlockCache.GetOrFetchBlock | src/cache/block.rs:164-288 | A block comes from memory, file or fetch, is the remote block, is put first in the list, and counts one hit or one miss; a fetched one, and no other, joins the block files if its file can be written. |
| BlockCache.TouchedKeeps | src/cache/block.rs:34-38 | The other blocks in memory keep their order; beyond 31, the least recently used go. |
| BlockCache.BlockCache.ReadRange | src/cache/block.rs:101-161 | A read that succeeds gives `remote[off..min(off+len, size)]`, empty past the end; it fails only when a fetch can. |
| CacheSteps.StepKeeps | src/cache/block.rs:164-288 | Every step of every reader, eviction, cancellation, failed fetch or restart keeps: stored blocks are remote blocks, partial results are right, entries are held by exactly one reader. |
| CacheSteps.ReadsAgreeWithRemote | src/cache/block.rs:101-288 | In every interleaving, a finished read has the remote bytes, every stored block is the remote block, and a key is in flight exactly while one reader holds it. |
| CacheWaits.FetcherDelivers | src/cache/block.rs:244-274 | From a fetch that succeeds, the reader's own steps leave the block in memory, and in its file if that can be written, remove the entry, and wake exactly those who wait for it. |
| CacheWaits.AbandonedStays | src/cache/block.rs:191-218 | A reader cancelled while it fetches leaves its entry for good: nobody else fetches that block until a restart. |
| CacheWaits.EntryHasFetcher | src/cache/block.rs:191-218 | In every run, an entry in flight has a reader that will remove it if and only if no fetcher of its key has been cancelled since the last restart. |
| CacheWaits.NeverWakesExactly | src/cache/block.rs:199-230 | In every run, a waiting reader stays waiting whatever steps follow, its own cancellation and a restart apart, if and only if nobody will send its notification; otherwise at most five steps of the sender wake it. |
| CacheWaits.SilentExactly | src/cache/block.rs:199-285 | In every run, nobody will send a notification if and only if it has been sent, or the fetcher that was to send it has been cancelled since the last restart. |
| CacheWaits.CancelStrands | src/cache/block.rs:199-218 | There is a run where a reader waits for ever on a cancelled fetcher. |
| CacheWaits.NotificationLost | src/cache/block.rs:199-212 | There is a run without cancellation where a reader waits for ever for a notification that was sent before it waited, with its block in memory. |
| PublishingProofs.RunKeeps | src/wal/mod.rs:128-252 | Every run of recovery, publishing and sessions keeps the invariant, whatever crashes, fails or is missed. |
| PublishingProofs.DoneIsReplayed | src/wal/mod.rs:174-246 | In every run a done marker stands for a log whose entries, as far as they went when it was read, were replayed into a commit that the branch has named, or into nothing to commit. |
| PublishingProofs.DoneIsWhole | src/wal/mod.rs:143-152 | When no lockout fails on a log that is not sealed, a log marked done is sealed and was replayed to its end. |
| PublishingRuns.LockoutLoses | src/wal/gcs.rs:186-228 | The other half: after any run, a lockout that fails on such a log can lead to a done marker for a log with an entry that was never replayed. |
| PublishingRuns.LockoutSlips | src/wal/gcs.rs:186-228 | There is a run with such a lockout. |
| PublishingProofs.RefHasObjects | src/git/gcs_storage.rs:744-777 | The branch names no commit whose pack and index are not both uploaded. |
| PublishingProofs.NewLogIsNewest | src/main.rs:271-291 | A new log's number is above every other; no log is overwritten or shortened, or changed once sealed. |
| PublishingTip.TipHoldsDone | src/main.rs:503-583 | If no server fails between its first done marker and the end of recovery and goes on, the branch's tip holds every commit that a marker names. |
| PublishingTip.LapseLoses | src/main.rs:517-553 | The other half: after any run, such a failure can lead to a tip without a commit that a marker names. |
| PublishingTip.TipCanLose | src/main.rs:517-553 | There is a run that ends so. |
| PublishingParents.ParentNamed | src/wal/mod.rs:165-218 | In every run, each commit that the branch has named has as parent the base in the last header among the logs that it replayed, or without one the server's base, which for a starting server is what the branch named. |
| PublishingHistory.NextIsChild | src/git/builder.rs:127-130 | While nothing strays, each commit that the branch comes to name has as parent the one before, and is built over its tree. |
| PublishingHistory.TipReachesAll | src/main.rs:503-583 | Then the parents of the branch's tip reach every commit that the branch has ever named. |
| PublishingStrays.StrayLoses | src/wal/mod.rs:165-218 | The other half: the first step that strays can lead to a tip whose parents do not reach such a commit. A step strays if it ends the server, goes on with an old base, or misses a marker, so that logs are left to be read whose last header names another commit than the branch, and which can leave something to commit. |
| PublishingStrays.CrashDrops | src/wal/mod.rs:206-236 | There is such a run: a crash between the move of the branch and the first marker. |
| GitTree.OctalRoundTrip | src/git/tree.rs:21-24 | A number below 2^32 printed in octal is read back. |
| GitTree.ModeRoundTrip | src/git/tree.rs:14-26 | A mode is read back as it was written if and only if it is no unnamed mode with the number of a named one. |
| GitTree.Parse | src/git/tree.rs:61-94 | The loop reads the entries that the bytes hold, or fails where one is cut or not UTF-8. |
| GitTree.TreeRoundTrip | src/git/builder.rs:206-210 | A written tree is parsed back to its entries. |
| GitTree.TreeBytesInjective | src/git/builder.rs:206-213 | Different trees have different bytes. |
| TreeOctets.EntryAppends | src/git/builder.rs:206-210 | An entry is its mode's text, a space, its name, a NUL and its id, one after another. |
| TreeOctets.EntryRead | src/git/tree.rs:61-94 | Bytes of that form are read as that entry, if mode and name are UTF-8; `EntryReadOnly`: nothing else is. |
| TreeOctets.ModesWritten | src/git/builder.rs:196-204 | The five texts, and octal digits without a zero in front. |
| TreeOctets.NumbersRead | src/git/tree.rs:14-26 | Any other octal number below 2^32 is read as it is, a plus sign allowed; what is none, as that of a plain file; `NamesRead` has the texts. |
| TreeOctets.Utf8Exactly | src/git/tree.rs:65-80 | A name or mode is accepted if and only if it is the UTF-8 (RFC 3629, section 3) of some Unicode scalar values. |
| TreeOctets.NeverWritten | src/vfs/filter.rs:3-18 | No tree that is written has an entry of the desktop's names, which `MetadataNames` lists. |
| TreeOrder.CanonicalUnique | src/git/builder.rs:25-35 | The same entries in canonical order are the same tree. |
| TreeOrder.NewEntriesAre | src/git/builder.rs:161-211 | What is written for a directory is each committed child that has an id, once, in canonical order. |
| TreeOrder.OrderIsGits | src/git/builder.rs:25-35 | An entry comes before another by the first byte that differs; before one whose name goes on, if it is no directory or the next byte is above the slash. |
| TreeOrder.WrittenInOrder | src/git/builder.rs:168-175 | Of any two entries written for a directory, the earlier comes first in that order. |
| TreeBuilder.PruningKeepsRoot | src/git/builder.rs:153-229 | A dirty set that holds every directory whose stored id differs from its full rebuild gives the root the id of its full rebuild. |
| TreeBuilder.DirtySetsAgree | src/git/builder.rs:153-229 | Any two such sets that agree on directories without an id give the same root. |
| DirtyWalk.DirtyMeansStaged | src/git/builder.rs:77-95 | The walk marks a directory below the root exactly when a staged inode lies below it. |
| DirtyWalk.WalkCoversStale | src/git/builder.rs:77-95 | After any run of additions over canonical base trees, the walk marks every stale directory, so pruning keeps the root. |
| Accretion.ReplayAccrues | src/wal/recovery.rs:22-144 | After replaying any log of additions, every inode is new (and staged unless a directory) or an entry of its parent's base tree. |
| Sources.ReplaySourced | src/wal/recovery.rs:22-144 | Whatever the log, a replay gives no inode an id from outside the base. |
| PackClosure.PackIsClosed | src/git/builder.rs:180-226 | The emitted pack is closed over the base whatever the dirty set; with the walk's own set, and no blob under the id of a rebuilt tree, directories name trees and files blobs. |
| ClosedPacks.ReplayedPackIsClosed | src/wal/recovery.rs:147-171 | The same for the state after every log of applicable changes, deletions and renames included. |
| GitBuilder.StageBlobs | src/git/builder.rs:51-75 | The loop gives each live staged file that is no metadata file the id of its blob, and emits exactly those blobs. |
| GitBuilder.DirtyDirs | src/git/builder.rs:77-95 | The loops compute exactly the set that the walk defines. |
| GitBuilder.RebuildTree | src/git/builder.rs:153-229 | The recursion returns the rebuilt id and adds exactly the rebuilt trees that the base lacks. |
| GitBuilder.RebuildGitObjects | src/git/builder.rs:41-151 | The whole build: blobs, the walk's dirty set, rebuilt root, and a commit under its own hash. |
| CommitText.CommitRead | src/git/mod.rs:196-208 | From a commit's text, the first line that names a tree gives the root that was rebuilt, and the parent's line the parent that recovery named. |
| Recovered.EmittedAs | src/git/builder.rs:61-149 | A staged file's bytes are emitted as a blob, the rebuilt root as a tree unless the base has it, and the commit as a commit. |
| Recovered.NewTreeFound | src/git/mod.rs:447-472 | After applying the objects, a rebuilt directory's id reads as its new entries. |
| Recovered.NewBlobFound | src/git/mod.rs:464-468 | And a staged file's blob is there with its bytes. |
| Recovered.BaseTreeStays | src/git/mod.rs:459-463 | And base trees are as they were. |
| Reload.CommitThenReload | src/git/mod.rs:447-472 | A fresh graph over the new root shows what was committed, minus new directories that hold no file. |
| Origins.ReplayGrounds | src/wal/recovery.rs:22-144 | After any log of applicable changes on names that can be committed, every inode has mode and id of an entry of some base tree, or is new, and then staged unless a directory. |
| CommitHolds.CommitHoldsExactly | src/git/builder.rs:77-229 | For every such log, removals and renames included, and whatever is marked: the commit holds exactly the files that were shown if and only if every directory that is not rebuilt, but hangs from one that is, shows the files of the tree that it carries. |
| LostDeletions.RemovalsCommitted | src/git/builder.rs:77-95 | After a log of removals only, that is so if and only if no file was removed from below a top-level entry that is still there. |
| LostDeletions.OneFileRemoved | src/git/builder.rs:77-95 | For the removal of one file: if and only if it lay in the root directory. |
| Unmodified.NothingToCommit | src/wal/recovery.rs:155-157 | When nothing counts as modified, no change of the log leaves anything, and the base already shows what a commit would show. |
| GitBuilder.GitEngine.ApplyRecoveredObjects | src/git/mod.rs:447-472 | The loop adds every tree that parses and every blob, in any order, and moves commit and root. |
| CommitRun.BuildRecovered | src/wal/recovery.rs:147-191 | No commit exactly when nothing is staged, deleted or noted; else the rebuilt root, its commit and the objects, after additions with a dirty set that covers all stale directories. |
| CommitRun.RecoverAndCommit | src/wal/mod.rs:165-212 | End to end, for every log of applicable changes: replay, build, apply. A commit is made if and only if some change leaves something; the engine's root then shows exactly the files that the changes make under the condition of `CommitHoldsExactly`. After additions it shows the tree of paths that they make, minus new directories that hold no file, whether or not a commit was made. |
| TreeWaves.AddSubtrees | src/git/mod.rs:245-249 | The entries' directories that nobody has seen join the next level, once each. |
| TreeWaves.LoadTrees | src/git/mod.rs:210-257 | The waves end over any finite tree graph, schedule exactly the ids reachable through directory entries, each once, and load those that can be read. |

## Findings

What the code does not keep, each with its exact condition:

- `EdgeCases.RenameKeeps`, `EdgeCases.MovedBelowItself`: renaming onto itself deletes the entry, where RFC 1813, section 3.3.14, asks for nothing to happen; renaming below itself cuts the subtree off, and printing its path may never end. No check is made (src/vfs/inode.rs:301-342).
- `EdgeCases.MkdirKeeps`: MKDIR on a name that is taken makes a second node of that name (src/vfs/inode.rs:248-270).
- `PublishingProofs.DoneIsWhole`, `PublishingRuns.LockoutLoses`: a lockout that fails is only noted (src/wal/gcs.rs:186-228), and a log that stays open can take an entry after it was read and marked done.
- `PublishingTip.TipHoldsDone`, `PublishingTip.LapseLoses`: a server that fails after its first done marker, for instance when it cannot write the pack file locally (src/main.rs:542-545), and goes on, commits next over the tree from before; what it had committed is then no longer in the branch's tip.
- `CommitHolds.CommitHoldsExactly`, `LostDeletions.RemovalsCommitted`: the walk that marks directories for rebuilding looks up every staged or deleted inode, and finds no deleted one (src/git/builder.rs:82-84, src/vfs/inode.rs:63-69), where its comment says that it marks the ancestors of deleted nodes too; nor does it see a rename. A directory in which something was only removed or moved, and below which nothing is staged, is committed as it was before: a file removed from a subdirectory stays in the commit (`OneFileRemoved`), and its log is marked done.
- `PublishingHistory.TipReachesAll`, `PublishingStrays.StrayLoses`: a log names the commit it was opened over, and recovery takes the last such name as parent (src/wal/mod.rs:185-190). A server that ends after it has moved the branch and before all markers are written leaves logs that name the commit before; the next server commits them again beside the branch's commit, which the branch's history then no longer has (`CrashDrops`). The same happens to a server that goes on after a failure there, and when a marker that is missed brings back an old log.
- `Modifications.ReplayModifies`: a log that only makes directories or renames, all under paths that are blank once trimmed, counts as unmodified, and is marked done without a commit (src/staging/mod.rs:182-187, src/wal/recovery.rs:155-157).
- `PackRandomAccess.ReadEnds`: the random-access reader has no guard against a chain of bases that comes back, and then calls itself for ever: on a delta at distance zero (`PackLoops.ZeroDistanceNeverEnds`), on a delta by id that the index lists as its own base (`SelfNamedNeverEnds`), and on a pack that the bulk reader accepts, but that holds an object twice and whose index lists the copy that is a delta on its own delta (`DuplicateNeverEnds`, `DuplicateExists`). It ends, with the bulk reader's objects, when bases by id are listed at the copies of fewest deltas (`ReadersAgree.AcceptedReads`).
- `CacheWaits.EntryHasFetcher`, `CacheWaits.CancelStrands`: cancelling the one reader that fetches a block leaves its in-flight entry, exactly until a restart; readers of that block wait as long (`AbandonedStays`, `NeverWakesExactly`).
- `CacheWaits.NotificationLost`: a reader finds an entry in flight and waits for its notification in two steps (src/cache/block.rs:199-212); a notification sent in between is lost, and the reader waits for ever (`SilentExactly` with `NeverWakesExactly`).
- `StaleHandles.WriteReplays`, `StaleHandles.CreateReplays`: removing a directory marks only its own inode (src/vfs/inode.rs:290), so a client that still has a handle below it can write, and one that has the directory's can create in it. Nobody sees that, but it is logged, and the replay makes the old path again. Live and replayed trees agree exactly when a path leads to the inode or the entry changes nothing at its path.
- `Listings.RootPages`: the root is listed as itself and as its own parent under one inode number, by which the next page is found (src/nfs/fs.rs:547-556); in pages of two entries the parent comes twice, and one by one a root with children is never listed to its end.
- `GitTree.ModeRoundTrip`: a tree entry with a zero-padded mode is kept as a number that prints as a named mode (src/git/tree.rs:21-24).

Where comments and code differ, the model follows the code: `create_file` says it revives a deleted
file, but reuses any node of that name, directories included (src/vfs/inode.rs:219-226); the builder
says it packs only new objects, but emits every staged file's blob, also when the base has it
(src/git/builder.rs:37-40, 61-73); a delta's declared base length is read and not compared
(src/git/pack.rs:89-92); an object's declared size is read and not compared.

## Left out

Assumptions of the proofs:

- SHA-1 is a function of type and data. Collisions are excluded only among the objects at hand: `NoCollision` (one pack), `NoClash` (one commit with its base), `TreesApart` (blobs against rebuilt trees).
- `SoundBase`: base blobs are under their hashes, base trees can be written and read back, ids have 20 bytes, no submodule has the id of an object of the commit.
- zlib is any self-delimiting codec, protobuf any pair with `decode(encode(e)) == e`.
- Integers are unbounded: no wrap-around of offsets, sizes, inode or log numbers, and no shift beyond the word.
- One server at a time; object and log writes to the bucket are atomic; appends to the log succeed, and one handler runs at a time.

Weaker than the source, or not in its form:

- VfsManager.VfsManager.EnsureDirPopulated: the repository is a fixed snapshot, nodes are values in a map rather than shared objects, and sizes, which only attributes show, are not modelled.
- GitNfsFileSystem.GitNfsFileSystem.Create: names are bytes; lossy UTF-8 decoding, attributes, the change flag and time are not modelled. `create_exclusive` has the same body.
- LiveRuns.ReplayRefinesLive: each run starts from a fresh graph; the live graph after an automatic commit, which is not refreshed, is not covered. Three kinds of call are excluded by the findings above: MKDIR on a taken name, RENAME onto or below itself, and calls on inodes that no path leads to, of which `StaleHandles` treats WRITE and CREATE.
- Reload.CommitThenReload: only additions (create on a free name or over a file, mkdir, write, truncate); `CommitHolds` has the other logs, and speaks of files, not of empty directories.
- CommitRun.RecoverAndCommit: names that a tree can hold and that are committed, and no create over a directory.
- GitBuilder.RebuildTree: requires the dirty directories below the start to be listed already, which a staged directory (create over a directory's name) need not be. `PackClosure.PackIsClosed` covers that case on values.
- GitBuilder.RebuildGitObjects: the commit's text is a given function of the root id, as `CommitText` writes it for some parent, author, time and message; how the message is made is not modelled.
- Staging.TrimSpace: ASCII white space only.
- PackRandomAccess.GcsGitStorage.ReadPackObject: is given a number of calls and says when they do not suffice, as the program's recursion need not end. The packs, what their indexes find, and the loose objects are fixed while one object is read, one at a time.
- ReadersAgree.ResolversAgree: the last record of a pack, whose length the index does not know, must fit the window, as must the records at which ids are listed.
- Listings.PagesOfRun: no other call changes the directory between two pages.
- IndexLookup.WriteThenReadById: the last object must fit the 64 KiB window that the reader guesses.
- BlockCache.BlockCache.ReadRange: one caller; the interleaving of callers is in `CacheSteps`, where any block may be evicted at any time. Fetches and file reads are never short. Blocks are keyed by file name, so packs of one name share them.
- CacheSteps.ReadsAgreeWithRemote: a full pack file arrives whole and survives whole. The program writes it in place (src/git/gcs_storage.rs:759), so a crash can leave a cut file that every later read takes for the pack. Block files are renamed into place.
- PublishingProofs.DoneIsReplayed: the copies of pack and index beside a done marker, the local backend and its marker order are not modelled.
- PublishingHistory.TipReachesAll: which entries leave something to commit is a given predicate, as `Modifications` shows it to be; a commit's time is how many the branch had named, so no commit is made twice.
- TreeWaves.LoadTrees: trees are read one at a time; chunks of 64 and block prefetching are not modelled.

Not modelled, as they would add only easy members: the HTTP backend, `info/refs` and `info/packs`,
pkt-line helpers, commit messages, memory and disk blob caches, the single flight of blob fetches,
mounting, the command line, the benchmark. Replaying a log over its own result is not claimed to
change nothing.
