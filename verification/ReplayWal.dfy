/** Crash recovery as it runs: a loop over the log's entries that fills a fresh inode graph
    and staging store (src/wal/recovery.rs). */
module ReplayWal {
  import opened Basics
  import opened Paths
  import opened GitData
  import opened Inodes
  import opened TreeView
  import opened VfsInvariant
  import opened Wal
  import opened Recovery
  import opened NfsServer
  import opened StoreChanges
  import opened LiveRuns
  import V = VfsManager
  import T = StagingStore

  function StoresIn(vfs: V.VfsManager, staging: T.StagingStore): Stores
    reads vfs, staging
  {
    Stores(vfs.State(), staging.State())
  }

  method BaseFor(vfs: V.VfsManager, staging: T.StagingStore, id: nat) returns (r: Option<bytes>)
    requires id in vfs.nodes
    ensures r == BaseData(vfs.repo, staging.State(), id, vfs.nodes[id].oid)
  {
    if id in staging.stagedNodes { return None; }
    var oid := vfs.nodes[id].oid;
    if oid == [] || oid !in vfs.repo.blobs { return None; }
    return Some(vfs.repo.blobs[oid]);
  }

  method CreateAt(vfs: V.VfsManager, staging: T.StagingStore, path: bytes, mode: TreeEntryMode)
    returns (id: Option<nat>)
    modifies vfs, staging
    ensures (StoresIn(vfs, staging), id) == ReplayCreate(vfs.repo, old(StoresIn(vfs, staging)), path, mode)
  {
    var place := vfs.EnsureParentDirs(path);
    if place.None? { return None; }
    id := vfs.CreateFile(place.value.0, place.value.1, mode);
    if id.Some? { staging.CreateFile(id.value); }
  }

  method WriteTo(vfs: V.VfsManager, staging: T.StagingStore, path: bytes, offset: nat, data: bytes) returns (ok: bool)
    modifies vfs, staging
    ensures (StoresIn(vfs, staging), ok) == ReplayWrite(vfs.repo, old(StoresIn(vfs, staging)), path, offset, data)
  {
    var id := vfs.LookupPath(path);
    if id.None? {
      id := CreateAt(vfs, staging, path, RegularFile);
      if id.None? { return false; }
    }
    if id.value !in vfs.nodes || vfs.nodes[id.value].deleted { return false; }
    var base := BaseFor(vfs, staging, id.value);
    var _ := staging.WriteAt(id.value, offset, data, base);
    return true;
  }

  method TruncateAt(vfs: V.VfsManager, staging: T.StagingStore, path: bytes, size: nat) returns (ok: bool)
    modifies vfs, staging
    ensures (StoresIn(vfs, staging), ok) == ReplayTruncate(vfs.repo, old(StoresIn(vfs, staging)), path, size)
  {
    var id := vfs.LookupPath(path);
    if id.None? { return true; }
    if id.value !in vfs.nodes || vfs.nodes[id.value].deleted { return false; }
    var base := BaseFor(vfs, staging, id.value);
    staging.Truncate(id.value, size, base);
    return true;
  }

  method RemoveAt(vfs: V.VfsManager, staging: T.StagingStore, path: bytes)
    modifies vfs, staging
    ensures StoresIn(vfs, staging) == ReplayRemove(vfs.repo, old(StoresIn(vfs, staging)), path)
  {
    var id := vfs.LookupPath(path);
    if id.Some? {
      var place := vfs.EnsureParentDirs(path);
      if place.Some? { var _ := vfs.Remove(place.value.0, place.value.1); }
      staging.MarkDeleted(id.value);
    }
  }

  method RenameAt(vfs: V.VfsManager, fromPath: bytes, toPath: bytes)
    modifies vfs
    ensures vfs.State() == ReplayRename(vfs.repo, old(vfs.State()), fromPath, toPath)
  {
    var from := vfs.EnsureParentDirs(fromPath);
    if from.Some? {
      var to := vfs.EnsureParentDirs(toPath);
      if to.Some? { var _ := vfs.Rename(from.value.0, from.value.1, to.value.0, to.value.1); }
    }
  }

  method ReplayOne(payload: Payload, vfs: V.VfsManager, staging: T.StagingStore, ghost number: nat) returns (ok: bool)
    modifies vfs, staging
    ensures (StoresIn(vfs, staging), ok)
            == ReplayEntry(vfs.repo, old(StoresIn(vfs, staging)), WalEntry(number, Some(payload)))
  {
    ok := true;
    match payload
    case Header(_, _, _, _) =>
    case CreateEntry(path, kind) =>
      staging.RecordChangedPath(path);
      var id := CreateAt(vfs, staging, path, ModeOf(kind));
      ok := id.Some?;
    case MkdirEntry(path) =>
      staging.RecordChangedPath(path);
      var place := vfs.EnsureParentDirs(path);
      if place.None? { return false; }
      var id := vfs.Mkdir(place.value.0, place.value.1);
      ok := id.Some?;
    case WriteEntry(path, offset, data) =>
      staging.RecordChangedPath(path);
      ok := WriteTo(vfs, staging, path, offset, data);
    case TruncateEntry(path, size) =>
      staging.RecordChangedPath(path);
      ok := TruncateAt(vfs, staging, path, size);
    case RemoveEntry(path) =>
      staging.RecordChangedPath(path);
      RemoveAt(vfs, staging, path);
    case RenameEntry(fromPath, toPath) =>
      staging.RecordChangedPath(fromPath);
      staging.RecordChangedPath(toPath);
      RenameAt(vfs, fromPath, toPath);
  }

  /** Replay stops at the first entry that fails. */
  lemma {:induction false} ReplayStops(repo: Repo, x: Stores, log: seq<WalEntry>, i: nat)
    requires i <= |log| && !Replay(repo, x, log[..i]).1
    ensures Replay(repo, x, log) == Replay(repo, x, log[..i])
    decreases |log|
  {
    if i < |log| {
      assert log[..|log| - 1][..i] == log[..i];
      ReplayStops(repo, x, log[..|log| - 1], i);
    } else {
      assert log[..i] == log;
    }
  }

  method ReplayWalEntries(entries: seq<WalEntry>, vfs: V.VfsManager, staging: T.StagingStore) returns (ok: bool)
    modifies vfs, staging
    ensures (StoresIn(vfs, staging), ok) == Replay(vfs.repo, old(StoresIn(vfs, staging)), entries)
  {
    for i := 0 to |entries|
      invariant (StoresIn(vfs, staging), true) == Replay(vfs.repo, old(StoresIn(vfs, staging)), entries[..i])
    {
      assert entries[..i + 1][..i] == entries[..i];
      if entries[i].payload.None? { continue; }
      var done := ReplayOne(entries[i].payload.value, vfs, staging, entries[i].number);
      if !done {
        ReplayStops(vfs.repo, old(StoresIn(vfs, staging)), entries, i + 1);
        return false;
      }
    }
    assert entries[..|entries|] == entries;
    return true;
  }

  /** From the log alone, recovery rebuilds what the crashed server showed. */
  method RecoverSession(repo: Repo, root: Oid, log: seq<WalEntry>)
    returns (vfs: V.VfsManager, staging: T.StagingStore, ok: bool)
    requires GoodRepo(repo)
    ensures fresh(vfs) && fresh(staging) && vfs.repo == repo
    ensures forall header: Payload, ops: seq<Op> |
              header.Header? && AllAllowed(repo, NewSession(root, header), ops)
              && RunAll(repo, NewSession(root, header), ops).log == log ::
              && ok
              && Shows(repo, StoresIn(vfs, staging)) == ServerShows(repo, RunAll(repo, NewSession(root, header), ops))
  {
    vfs := new V.VfsManager(repo, root);
    staging := new T.StagingStore();
    ok := ReplayWalEntries(log, vfs, staging);
    forall header: Payload, ops: seq<Op> |
      header.Header? && AllAllowed(repo, NewSession(root, header), ops)
      && RunAll(repo, NewSession(root, header), ops).log == log
      ensures ok
      ensures Shows(repo, StoresIn(vfs, staging)) == ServerShows(repo, RunAll(repo, NewSession(root, header), ops))
    {
      ReplayRefinesLive(repo, root, header, ops);
    }
  }
}
