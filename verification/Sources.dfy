/** Where the ids in the inode graph come from: the base repository, or nowhere yet. */
module Sources {
  import opened Basics
  import opened Paths
  import opened GitData
  import opened Inodes
  import opened Staging
  import opened Wal
  import opened Recovery

  /** What an entry of this mode and id names is in the base; a submodule's commit need not be. */
  ghost predicate InBase(repo: Repo, mode: TreeEntryMode, oid: Oid) {
    if mode.Directory? then oid in repo.trees else mode.Submodule? || oid in repo.blobs
  }

  /** Every object that a tree of the base names is in the base. */
  ghost predicate BaseComplete(repo: Repo) {
    forall t | t in repo.trees :: forall e | e in repo.trees[t] :: InBase(repo, e.mode, e.oid)
  }

  ghost predicate NodeSourced(repo: Repo, n: Node) {
    n.oid == [] || InBase(repo, n.mode, n.oid)
  }

  ghost predicate RootIs(s: Vfs, root: Oid) {
    ROOT in s.nodes && ROOT < s.next && s.nodes[ROOT].oid == root
  }

  /** The root has the id it was given, and every other id names an object of the base. */
  ghost predicate Sourced(repo: Repo, root: Oid, s: Vfs) {
    RootIs(s, root) && forall id | id in s.nodes :: NodeSourced(repo, s.nodes[id])
  }

  // ---- every operation keeps it

  lemma {:induction false} CollectSourced(repo: Repo, s: Vfs, d: nat, entries: Entries)
    requires forall e | e in entries :: InBase(repo, e.mode, e.oid)
    ensures forall id | id in Collect(s, d, entries).nodes :: NodeSourced(repo, Collect(s, d, entries).nodes[id])
    ensures forall id | id in Collect(s, d, entries).nodes :: id >= s.next
    ensures Collect(s, d, entries).next >= s.next
    decreases |entries|
  {
    if entries != [] { CollectSourced(repo, s, d, entries[..|entries| - 1]); }
  }

  lemma PopulateSourced(repo: Repo, root: Oid, s: Vfs, d: nat)
    requires BaseComplete(repo) && Sourced(repo, root, s)
    ensures Sourced(repo, root, Populate(repo, s, d))
  {
    if CanPopulate(s, d) && d !in s.dirChildren { CollectSourced(repo, s, d, EntriesOf(repo, s.nodes[d].oid)); }
  }

  lemma LookupSourced(repo: Repo, root: Oid, s: Vfs, d: nat, name: Name)
    requires BaseComplete(repo) && Sourced(repo, root, s)
    ensures Sourced(repo, root, Lookup(repo, s, d, name).0)
  {
    PopulateSourced(repo, root, s, d);
  }

  lemma {:induction false} LookupPartsSourced(repo: Repo, root: Oid, s: Vfs, from: nat, parts: seq<bytes>)
    requires BaseComplete(repo) && Sourced(repo, root, s)
    ensures Sourced(repo, root, LookupParts(repo, s, from, parts).0)
    decreases |parts|
  {
    if parts != [] {
      if parts[0] == [] || parts[0] == DOT {
        LookupPartsSourced(repo, root, s, from, parts[1..]);
      } else {
        LookupSourced(repo, root, s, from, parts[0]);
        var (s1, child) := Lookup(repo, s, from, parts[0]);
        if child.Some? { LookupPartsSourced(repo, root, s1, child.value, parts[1..]); }
      }
    }
  }

  lemma LookupPathSourced(repo: Repo, root: Oid, s: Vfs, path: bytes)
    requires BaseComplete(repo) && Sourced(repo, root, s)
    ensures Sourced(repo, root, LookupPath(repo, s, path).0)
  {
    if Trim(path) != [] { LookupPartsSourced(repo, root, s, ROOT, Split(Trim(path))); }
  }

  lemma CreateSourced(repo: Repo, root: Oid, s: Vfs, d: nat, name: Name, mode: TreeEntryMode)
    requires BaseComplete(repo) && Sourced(repo, root, s)
    ensures Sourced(repo, root, CreateFile(repo, s, d, name, mode).0)
  {
    PopulateSourced(repo, root, s, d);
    if CanPopulate(s, d) {
      var s1 := Populate(repo, s, d);
      if (d, name) in s1.childMap && s1.childMap[(d, name)] in s1.nodes {
        assert NodeSourced(repo, s1.nodes[s1.childMap[(d, name)]]);
      }
    }
  }

  lemma MkdirSourced(repo: Repo, root: Oid, s: Vfs, d: nat, name: Name)
    requires BaseComplete(repo) && Sourced(repo, root, s)
    ensures Sourced(repo, root, Mkdir(repo, s, d, name).0)
  {
    PopulateSourced(repo, root, s, d);
  }

  lemma RemoveSourced(repo: Repo, root: Oid, s: Vfs, d: nat, name: Name)
    requires BaseComplete(repo) && Sourced(repo, root, s)
    ensures Sourced(repo, root, Remove(repo, s, d, name).0)
  {
    PopulateSourced(repo, root, s, d);
    if CanPopulate(s, d) {
      var s1 := Populate(repo, s, d);
      if (d, name) in s1.childMap && s1.childMap[(d, name)] in s1.nodes {
        assert NodeSourced(repo, s1.nodes[s1.childMap[(d, name)]]);
      }
    }
  }

  lemma RenameSourced(repo: Repo, root: Oid, s: Vfs, fromDir: nat, fromName: Name, toDir: nat, toName: Name)
    requires BaseComplete(repo) && Sourced(repo, root, s)
    ensures Sourced(repo, root, Rename(repo, s, fromDir, fromName, toDir, toName).0)
  {
    PopulateSourced(repo, root, s, fromDir);
    var s1 := Populate(repo, s, fromDir);
    PopulateSourced(repo, root, s1, toDir);
    var s2 := Populate(repo, s1, toDir);
    RemoveSourced(repo, root, s2, toDir, toName);
    if CanPopulate(s, fromDir) && CanPopulate(s1, toDir) && (fromDir, fromName) in s2.childMap
      && s2.childMap[(fromDir, fromName)] in s2.nodes {
      RehangSourced(repo, root, Remove(repo, s2, toDir, toName).0, s2.childMap[(fromDir, fromName)], fromDir,
        fromName, toDir, toName);
    }
  }

  lemma RehangSourced(repo: Repo, root: Oid, s: Vfs, id: nat, fromDir: nat, fromName: Name, toDir: nat, toName: Name)
    requires Sourced(repo, root, s) && id in s.nodes
    ensures Sourced(repo, root, Rehang(s, id, fromDir, fromName, toDir, toName))
  {
    assert NodeSourced(repo, s.nodes[id]);
  }

  lemma {:induction false} EnsureDirsSourced(repo: Repo, root: Oid, s: Vfs, from: nat, parts: seq<bytes>)
    requires BaseComplete(repo) && Sourced(repo, root, s)
    ensures Sourced(repo, root, EnsureDirs(repo, s, from, parts).0)
    decreases |parts|
  {
    if parts != [] {
      LookupSourced(repo, root, s, from, parts[0]);
      var (s1, child) := Lookup(repo, s, from, parts[0]);
      MkdirSourced(repo, root, s1, from, parts[0]);
      var (s2, made) := Mkdir(repo, s1, from, parts[0]);
      if child.Some? {
        EnsureDirsSourced(repo, root, s1, child.value, parts[1..]);
      } else if made.Some? {
        EnsureDirsSourced(repo, root, s2, made.value, parts[1..]);
      }
    }
  }

  lemma EnsureParentDirsSourced(repo: Repo, root: Oid, s: Vfs, path: bytes)
    requires BaseComplete(repo) && Sourced(repo, root, s)
    ensures Sourced(repo, root, EnsureParentDirs(repo, s, path).0)
  {
    var parts := NonEmpty(Split(Trim(path)));
    if parts != [] { EnsureDirsSourced(repo, root, s, ROOT, parts[..|parts| - 1]); }
  }

  lemma ReplayCreateSourced(repo: Repo, root: Oid, x: Stores, path: bytes, mode: TreeEntryMode)
    requires BaseComplete(repo) && Sourced(repo, root, x.vfs)
    ensures Sourced(repo, root, ReplayCreate(repo, x, path, mode).0.vfs)
  {
    EnsureParentDirsSourced(repo, root, x.vfs, path);
    var (s1, place) := EnsureParentDirs(repo, x.vfs, path);
    if place.Some? { CreateSourced(repo, root, s1, place.value.0, place.value.1, mode); }
  }

  lemma ReplayRenameSourced(repo: Repo, root: Oid, s: Vfs, fromPath: bytes, toPath: bytes)
    requires BaseComplete(repo) && Sourced(repo, root, s)
    ensures Sourced(repo, root, ReplayRename(repo, s, fromPath, toPath))
  {
    EnsureParentDirsSourced(repo, root, s, fromPath);
    var (s1, from) := EnsureParentDirs(repo, s, fromPath);
    EnsureParentDirsSourced(repo, root, s1, toPath);
    var (s2, to) := EnsureParentDirs(repo, s1, toPath);
    if from.Some? && to.Some? { RenameSourced(repo, root, s2, from.value.0, from.value.1, to.value.0, to.value.1); }
  }

  lemma ReplayMkdirSourced(repo: Repo, root: Oid, x: Stores, path: bytes)
    requires BaseComplete(repo) && Sourced(repo, root, x.vfs)
    ensures Sourced(repo, root, ReplayMkdir(repo, x, path).0.vfs)
  {
    EnsureParentDirsSourced(repo, root, x.vfs, path);
    var (s1, place) := EnsureParentDirs(repo, x.vfs, path);
    if place.Some? { MkdirSourced(repo, root, s1, place.value.0, place.value.1); }
  }

  lemma ReplayWriteSourced(repo: Repo, root: Oid, x: Stores, path: bytes, offset: nat, data: bytes)
    requires BaseComplete(repo) && Sourced(repo, root, x.vfs)
    ensures Sourced(repo, root, ReplayWrite(repo, x, path, offset, data).0.vfs)
  {
    LookupPathSourced(repo, root, x.vfs, path);
    ReplayCreateSourced(repo, root, x.(vfs := LookupPath(repo, x.vfs, path).0), path, RegularFile);
  }

  lemma ReplayRemoveSourced(repo: Repo, root: Oid, x: Stores, path: bytes)
    requires BaseComplete(repo) && Sourced(repo, root, x.vfs)
    ensures Sourced(repo, root, ReplayRemove(repo, x, path).vfs)
  {
    LookupPathSourced(repo, root, x.vfs, path);
    var s1 := LookupPath(repo, x.vfs, path).0;
    EnsureParentDirsSourced(repo, root, s1, path);
    var (s2, place) := EnsureParentDirs(repo, s1, path);
    if place.Some? { RemoveSourced(repo, root, s2, place.value.0, place.value.1); }
  }

  lemma ReplayEntrySourced(repo: Repo, root: Oid, x: Stores, e: WalEntry)
    requires BaseComplete(repo) && Sourced(repo, root, x.vfs)
    ensures Sourced(repo, root, ReplayEntry(repo, x, e).0.vfs)
  {
    if e.payload.Some? {
      match e.payload.value
      case Header(_, _, _, _) =>
      case CreateEntry(path, kind) => ReplayCreateSourced(repo, root, x.(staging := Record(x.staging, path)), path,
        ModeOf(kind));
      case MkdirEntry(path) => ReplayMkdirSourced(repo, root, x.(staging := Record(x.staging, path)), path);
      case WriteEntry(path, offset, data) => ReplayWriteSourced(repo, root, x.(staging := Record(x.staging, path)),
        path, offset, data);
      case TruncateEntry(path, _) => LookupPathSourced(repo, root, x.vfs, path);
      case RemoveEntry(path) => ReplayRemoveSourced(repo, root, x.(staging := Record(x.staging, path)), path);
      case RenameEntry(fromPath, toPath) => ReplayRenameSourced(repo, root, x.vfs, fromPath, toPath);
    }
  }

  /** Whatever the log, a replay over a complete base gives no inode an id from elsewhere. */
  lemma {:induction false} ReplaySourced(repo: Repo, root: Oid, log: seq<WalEntry>)
    requires BaseComplete(repo) && root in repo.trees
    ensures Sourced(repo, root, Replay(repo, FreshStores(root), log).0.vfs)
    decreases |log|
  {
    if log != [] {
      ReplaySourced(repo, root, log[..|log| - 1]);
      ReplayEntrySourced(repo, root, Replay(repo, FreshStores(root), log[..|log| - 1]).0, log[|log| - 1]);
    }
  }
}
