/** Replaying a log into a fresh inode graph and staging store (src/wal/recovery.rs). */
module Recovery {
  import opened Basics
  import opened GitData
  import opened Inodes
  import opened Staging
  import opened Wal

  /** The pair of stores a replay fills. */
  datatype Stores = Stores(vfs: Vfs, staging: Staging)

  function FreshStores(root: Oid): Stores { Stores(Unpopulated(root), EMPTY) }

  function ModeOf(kind: InodeType): TreeEntryMode {
    match kind
    case ExecutableInode => ExecutableFile
    case SymlinkInode => Symlink
    case _ => RegularFile
  }

  /** The base blob handed to the staging store; an unreadable blob counts as absent. */
  function BaseData(repo: Repo, st: Staging, id: nat, oid: Oid): Option<bytes> {
    if IsStaged(st, id) || oid == [] || oid !in repo.blobs then None else Some(repo.blobs[oid])
  }

  /** Create the file named by `path`, its parents included, and stage it empty. */
  function ReplayCreate(repo: Repo, x: Stores, path: bytes, mode: TreeEntryMode): (Stores, Option<nat>) {
    var (s1, place) := EnsureParentDirs(repo, x.vfs, path);
    if place.None? then (x.(vfs := s1), None)
    else
      var (s2, id) := CreateFile(repo, s1, place.value.0, place.value.1, mode);
      if id.None? then (x.(vfs := s2), None)
      else (Stores(s2, StageNew(x.staging, id.value)), id)
  }

  function ReplayMkdir(repo: Repo, x: Stores, path: bytes): (Stores, bool) {
    var (s1, place) := EnsureParentDirs(repo, x.vfs, path);
    if place.None? then (x.(vfs := s1), false)
    else
      var (s2, id) := Mkdir(repo, s1, place.value.0, place.value.1);
      (x.(vfs := s2), id.Some?)
  }

  function ReplayWrite(repo: Repo, x: Stores, path: bytes, offset: nat, data: bytes): (Stores, bool) {
    var (s1, found) := LookupPath(repo, x.vfs, path);
    var (x2, id) := if found.Some? then (x.(vfs := s1), found)
                    else ReplayCreate(repo, x.(vfs := s1), path, RegularFile);
    if id.None? || GetNode(x2.vfs, id.value).None? then (x2, false)
    else
      var base := BaseData(repo, x2.staging, id.value, x2.vfs.nodes[id.value].oid);
      (x2.(staging := WriteAt(x2.staging, id.value, offset, data, base)), true)
  }

  function ReplayTruncate(repo: Repo, x: Stores, path: bytes, size: nat): (Stores, bool) {
    var (s1, id) := LookupPath(repo, x.vfs, path);
    if id.None? then (x.(vfs := s1), true)
    else if GetNode(s1, id.value).None? then (x.(vfs := s1), false)
    else
      var base := BaseData(repo, x.staging, id.value, s1.nodes[id.value].oid);
      (Stores(s1, Truncate(x.staging, id.value, size, base)), true)
  }

  function ReplayRemove(repo: Repo, x: Stores, path: bytes): Stores {
    var (s1, id) := LookupPath(repo, x.vfs, path);
    if id.None? then x.(vfs := s1)
    else
      var (s2, place) := EnsureParentDirs(repo, s1, path);
      var s3 := if place.None? then s2 else Remove(repo, s2, place.value.0, place.value.1).0;
      Stores(s3, MarkDeleted(x.staging, id.value))
  }

  function ReplayRename(repo: Repo, s: Vfs, fromPath: bytes, toPath: bytes): Vfs {
    var (s1, from) := EnsureParentDirs(repo, s, fromPath);
    if from.None? then s1
    else
      var (s2, to) := EnsureParentDirs(repo, s1, toPath);
      if to.None? then s2
      else Rename(repo, s2, from.value.0, from.value.1, to.value.0, to.value.1).0
  }

  /** One entry; the flag is false when replay stops with an error. */
  function ReplayEntry(repo: Repo, x: Stores, e: WalEntry): (Stores, bool) {
    if e.payload.None? then (x, true)
    else
      match e.payload.value
      case Header(_, _, _, _) => (x, true)
      case CreateEntry(path, kind) =>
        var (x2, id) := ReplayCreate(repo, x.(staging := Record(x.staging, path)), path, ModeOf(kind));
        (x2, id.Some?)
      case MkdirEntry(path) =>
        ReplayMkdir(repo, x.(staging := Record(x.staging, path)), path)
      case WriteEntry(path, offset, data) =>
        ReplayWrite(repo, x.(staging := Record(x.staging, path)), path, offset, data)
      case TruncateEntry(path, size) =>
        ReplayTruncate(repo, x.(staging := Record(x.staging, path)), path, size)
      case RemoveEntry(path) =>
        (ReplayRemove(repo, x.(staging := Record(x.staging, path)), path), true)
      case RenameEntry(fromPath, toPath) =>
        var st := Record(Record(x.staging, fromPath), toPath);
        (Stores(ReplayRename(repo, x.vfs, fromPath, toPath), st), true)
  }

  function Replay(repo: Repo, x: Stores, log: seq<WalEntry>): (Stores, bool)
    decreases |log|
  {
    if log == [] then (x, true)
    else
      var (x2, ok) := Replay(repo, x, log[..|log| - 1]);
      if ok then ReplayEntry(repo, x2, log[|log| - 1]) else (x2, false)
  }
}
