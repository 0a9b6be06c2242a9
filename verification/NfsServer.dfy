/** The mutating handlers of the NFS layer, addressed by inode (src/nfs/fs.rs). */
module NfsServer {
  import opened Basics
  import opened Paths
  import opened GitData
  import opened Inodes
  import opened TreeView
  import opened VfsInvariant
  import opened Staging
  import opened Wal
  import opened Recovery

  datatype Stat = NoEnt | IsADir | NotADir | IoError

  /** The server's state: inode graph, staging store and the active log. */
  datatype Server = Server(vfs: Vfs, staging: Staging, log: seq<WalEntry>, nextEntry: nat)

  /** A session starts by logging its header as entry 1. */
  function NewSession(root: Oid, header: Payload): Server {
    Server(Unpopulated(root), EMPTY, [WalEntry(1, Some(header))], 2)
  }

  function LogMutation(f: Server, payload: Payload): Server {
    f.(log := f.log + [WalEntry(f.nextEntry, Some(payload))], nextEntry := f.nextEntry + 1)
  }

  /** `record_mutation` and the log entry that follows it. */
  function Recorded(f: Server, path: bytes, payload: Payload): Server {
    LogMutation(f.(staging := Record(f.staging, path)), payload)
  }

  /** The path logged for a child of `dir`; an unprintable directory counts as the root. */
  ghost function ChildPath(s: Vfs, dir: nat, name: Name): bytes {
    Under(GetPath(s, dir).GetOr([]), name)
  }

  function NfsLookup(repo: Repo, f: Server, dir: nat, name: Name): (Server, Result<nat, Stat>) {
    var (s2, id) := Lookup(repo, f.vfs, dir, name);
    (f.(vfs := s2), if id.None? || id.value in f.staging.deleted then Err(NoEnt) else Ok(id.value))
  }

  ghost function NfsCreate(repo: Repo, f: Server, dir: nat, name: Name): (Server, Result<nat, Stat>) {
    var (s2, id) := CreateFile(repo, f.vfs, dir, name, RegularFile);
    if id.None? then (f.(vfs := s2), Err(IoError))
    else
      var path := ChildPath(s2, dir, name);
      var f2 := f.(vfs := s2, staging := StageNew(f.staging, id.value));
      (Recorded(f2, path, CreateEntry(path, FileInode)), Ok(id.value))
  }

  ghost function NfsMkdir(repo: Repo, f: Server, dir: nat, name: Name): (Server, Result<nat, Stat>) {
    var (s2, id) := Mkdir(repo, f.vfs, dir, name);
    if id.None? then (f.(vfs := s2), Err(IoError))
    else
      var path := ChildPath(s2, dir, name);
      (Recorded(f.(vfs := s2), path, MkdirEntry(path)), Ok(id.value))
  }

  /** The checks shared by the handlers that work on one file. */
  function FileStat(f: Server, id: nat): Option<Stat> {
    if id in f.staging.deleted || GetNode(f.vfs, id).None? then Some(NoEnt)
    else if f.vfs.nodes[id].isDir then Some(IsADir)
    else None
  }

  ghost function NfsWrite(repo: Repo, f: Server, id: nat, offset: nat, data: bytes): (Server, Option<Stat>) {
    if FileStat(f, id).Some? then (f, FileStat(f, id))
    else
      var base := BaseData(repo, f.staging, id, f.vfs.nodes[id].oid);
      var f2 := f.(staging := WriteAt(f.staging, id, offset, data, base));
      match GetPath(f.vfs, id)
      case None => (f2, None)
      case Some(path) => (Recorded(f2, path, WriteEntry(path, offset, data)), None)
  }

  /** `setattr` with a size. */
  ghost function NfsSetSize(repo: Repo, f: Server, id: nat, size: nat): (Server, Option<Stat>) {
    if FileStat(f, id).Some? then (f, FileStat(f, id))
    else
      var base := BaseData(repo, f.staging, id, f.vfs.nodes[id].oid);
      var f2 := f.(staging := Truncate(f.staging, id, size, base));
      match GetPath(f.vfs, id)
      case None => (f2, None)
      case Some(path) => (Recorded(f2, path, TruncateEntry(path, size)), None)
  }

  ghost function NfsRemove(repo: Repo, f: Server, dir: nat, name: Name): (Server, Option<Stat>) {
    var (s2, id) := Remove(repo, f.vfs, dir, name);
    if id.None? then (f.(vfs := s2), Some(NoEnt))
    else
      var path := ChildPath(s2, dir, name);
      var f2 := f.(vfs := s2, staging := MarkDeleted(f.staging, id.value));
      (Recorded(f2, path, RemoveEntry(path)), None)
  }

  ghost function NfsRename(repo: Repo, f: Server, fromDir: nat, fromName: Name, toDir: nat, toName: Name)
    : (Server, Option<Stat>)
  {
    var fromPath, toPath := ChildPath(f.vfs, fromDir, fromName), ChildPath(f.vfs, toDir, toName);
    var (s2, ok) := Rename(repo, f.vfs, fromDir, fromName, toDir, toName);
    if !ok then (f.(vfs := s2), Some(IoError))
    else
      var f2 := f.(vfs := s2, staging := Record(Record(f.staging, fromPath), toPath));
      (LogMutation(f2, RenameEntry(fromPath, toPath)), None)
  }

  /** Staged content first, then the base blob. */
  function NfsRead(repo: Repo, f: Server, id: nat, offset: nat, count: nat): Result<(bytes, bool), Stat> {
    if FileStat(f, id).Some? then Err(FileStat(f, id).value)
    else if ReadAt(f.staging, id, offset, count).Some? then Ok(ReadAt(f.staging, id, offset, count).value)
    else
      var oid := f.vfs.nodes[id].oid;
      if oid == [] then Ok(([], true))
      else if oid !in repo.blobs then Err(IoError)
      else Ok(Slice(repo.blobs[oid], offset, count))
  }

  // ---- listings

  datatype DirEntry = DirEntry(id: nat, name: Name)

  /** The children to list; those that were removed are left out. */
  function ChildEntries(f: Server, ids: seq<nat>): seq<DirEntry> {
    if ids == [] then []
    else
      var last := ids[|ids| - 1];
      ChildEntries(f, ids[..|ids| - 1])
      + (if last in f.staging.deleted || last !in f.vfs.nodes then [] else [DirEntry(last, f.vfs.nodes[last].name)])
  }

  /** The directory itself, its parent, and its children. */
  function AllEntries(f: Server, dir: nat, ids: seq<nat>): seq<DirEntry>
    requires dir in f.vfs.nodes
  {
    [DirEntry(dir, DOT), DirEntry(f.vfs.nodes[dir].parent, DOT_DOT)] + ChildEntries(f, ids)
  }

  /** The first entry of inode `id`; their number when there is none. */
  function PlaceOfId(all: seq<DirEntry>, id: nat): (i: nat)
    ensures i <= |all| && (i < |all| ==> all[i].id == id) && forall j | 0 <= j < i :: all[j].id != id
  {
    if all == [] then 0 else if all[0].id == id then 0 else 1 + PlaceOfId(all[1..], id)
  }

  /** Where a page starts: after the entry that the last page ended with. */
  function PageStart(all: seq<DirEntry>, after: nat): (i: nat)
    ensures i <= |all|
  {
    var i := PlaceOfId(all, after);
    if after == 0 || i == |all| then 0 else i + 1
  }

  /** A page of at most `max` entries from `start` on, and whether it is the last. */
  function Page(all: seq<DirEntry>, start: nat, max: nat): (seq<DirEntry>, bool)
    requires start <= |all|
  {
    var stop := Min(start + max, |all|);
    (all[start..stop], stop >= |all|)
  }

  /** All of a directory's entries. */
  function NfsListing(repo: Repo, f: Server, dir: nat): (Server, Result<seq<DirEntry>, Stat>) {
    if GetNode(f.vfs, dir).None? then (f, Err(NoEnt))
    else if !f.vfs.nodes[dir].isDir then (f, Err(NotADir))
    else
      var (s2, ids) := ListDir(repo, f.vfs, dir);
      var f2 := f.(vfs := s2);
      (f2, if ids.None? then Err(IoError) else Ok(AllEntries(f2, dir, ids.value)))
  }

  function NfsReadDir(repo: Repo, f: Server, dir: nat, after: nat, max: nat)
    : (Server, Result<(seq<DirEntry>, bool), Stat>)
  {
    var (f2, all) := NfsListing(repo, f, dir);
    (f2, match all case Err(e) => Err(e) case Ok(entries) => Ok(Page(entries, PageStart(entries, after), max)))
  }
}
