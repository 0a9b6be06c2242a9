/** The NFS server object over its three stores (src/nfs/fs.rs). */
module GitNfsFileSystem {
  import opened Basics
  import opened Paths
  import opened GitData
  import opened Inodes
  import opened TreeView
  import opened VfsInvariant
  import opened Population
  import opened Wal
  import opened Recovery
  import opened NfsServer
  import opened StoreChanges
  import opened LiveRuns
  import S = Staging
  import V = VfsManager
  import T = StagingStore
  import W = WalManager

  class GitNfsFileSystem {
    const vfs: V.VfsManager
    const staging: T.StagingStore
    const wal: W.WalManager

    /** The state the functions of NfsServer.dfy describe; needs an open log. */
    function State(): Server
      requires wal.writer.Some?
      reads vfs, staging, wal
    {
      Server(vfs.State(), staging.State(), wal.writer.value, wal.entrySeq)
    }

    ghost predicate Valid()
      reads vfs, staging, wal
    {
      wal.writer.Some? && GoodRepo(vfs.repo) && StoresOk(StoresOf(State()))
    }

    constructor (repo: Repo, root: Oid, header: Payload)
      requires GoodRepo(repo) && header.Header?
      ensures fresh(vfs) && fresh(staging) && fresh(wal)
      ensures Valid() && vfs.repo == repo && State() == NewSession(root, header)
    {
      vfs := new V.VfsManager(repo, root);
      staging := new T.StagingStore();
      wal := new W.WalManager(0);
      new;
      wal.StartActiveWal(header);
      FreshShows(repo, root);
    }

    method RecordMutation(path: bytes, payload: Payload)
      requires wal.writer.Some?
      modifies staging, wal
      ensures wal.writer.Some? && State() == Recorded(old(State()), path, payload)
    {
      staging.RecordChangedPath(path);
      wal.LogMutation(payload);
    }

    method PathOfChild(dir: nat, name: Name) returns (path: bytes)
      requires Ends(vfs.State(), dir)
      ensures path == ChildPath(vfs.State(), dir, name)
    {
      var parent := vfs.GetPath(dir);
      if parent.GetOr([]) == [] { return name; }
      return parent.value + [SLASH] + name;
    }

    method GetBaseData(id: nat) returns (r: Option<bytes>)
      requires id in vfs.nodes
      ensures r == BaseData(vfs.repo, staging.State(), id, vfs.nodes[id].oid)
    {
      if id in staging.stagedNodes { return None; }
      var oid := vfs.nodes[id].oid;
      if oid == [] || oid !in vfs.repo.blobs { return None; }
      return Some(vfs.repo.blobs[oid]);
    }

    method Lookup(dir: nat, name: Name) returns (r: Result<nat, Stat>)
      requires Valid()
      modifies vfs
      ensures Valid() && (State(), r) == NfsLookup(vfs.repo, old(State()), dir, name)
    {
      LookupQuiet(vfs.repo, State(), dir, name);
      var id := vfs.Lookup(dir, name);
      if id.None? || id.value in staging.deletedNodes { return Err(NoEnt); }
      return Ok(id.value);
    }

    method ReadDir(dir: nat, after: nat, max: nat) returns (r: Result<(seq<DirEntry>, bool), Stat>)
      requires Valid()
      modifies vfs
      ensures Valid() && (State(), r) == NfsReadDir(vfs.repo, old(State()), dir, after, max)
    {
      var all := ListAll(dir);
      if all.Err? { return Err(all.error); }
      var page := PageAfter(all.value, after, max);
      return Ok(page);
    }

    method ListAll(dir: nat) returns (r: Result<seq<DirEntry>, Stat>)
      requires Valid()
      modifies vfs
      ensures Valid() && (State(), r) == NfsListing(vfs.repo, old(State()), dir)
    {
      ListingQuiet(vfs.repo, State(), dir);
      if dir !in vfs.nodes || vfs.nodes[dir].deleted { return Err(NoEnt); }
      if !vfs.nodes[dir].isDir { return Err(NotADir); }
      PopulateGrows(vfs.repo, vfs.State(), dir);
      var ids := vfs.ListDir(dir);
      if ids.None? { return Err(IoError); }
      var all := ListEntries(dir, ids.value);
      return Ok(all);
    }

    method ListEntries(dir: nat, ids: seq<nat>) returns (all: seq<DirEntry>)
      requires wal.writer.Some? && dir in vfs.nodes
      ensures all == AllEntries(State(), dir, ids)
    {
      all := [DirEntry(dir, DOT), DirEntry(vfs.nodes[dir].parent, DOT_DOT)];
      for i := 0 to |ids|
        invariant all == AllEntries(State(), dir, ids[..i])
      {
        assert ids[..i + 1][..i] == ids[..i];
        if ids[i] !in staging.deletedNodes && ids[i] in vfs.nodes {
          all := all + [DirEntry(ids[i], vfs.nodes[ids[i]].name)];
        }
      }
      assert ids[..|ids|] == ids;
    }

    method PageAfter(all: seq<DirEntry>, after: nat, max: nat) returns (page: (seq<DirEntry>, bool))
      ensures page == Page(all, PageStart(all, after), max)
    {
      var start := 0;
      if after != 0 {
        var i := 0;
        while i < |all| && all[i].id != after
          invariant i <= |all| && forall j | 0 <= j < i :: all[j].id != after
        {
          i := i + 1;
        }
        start := if i == |all| then 0 else i + 1;
      }
      var stop := Min(start + max, |all|);
      return (all[start..stop], stop >= |all|);
    }

    method Read(id: nat, offset: nat, count: nat) returns (r: Result<(bytes, bool), Stat>)
      requires Valid()
      ensures r == NfsRead(vfs.repo, State(), id, offset, count)
    {
      if id in staging.deletedNodes || id !in vfs.nodes || vfs.nodes[id].deleted { return Err(NoEnt); }
      if vfs.nodes[id].isDir { return Err(IsADir); }
      var staged := staging.ReadAt(id, offset, count);
      if staged.Some? { return Ok(staged.value); }
      var oid := vfs.nodes[id].oid;
      if oid == [] { return Ok(([], true)); }
      if oid !in vfs.repo.blobs { return Err(IoError); }
      var blob := vfs.repo.blobs[oid];
      if offset >= |blob| { return Ok(([], true)); }
      var toRead := Min(count, |blob| - offset);
      return Ok((blob[offset..offset + toRead], offset + toRead >= |blob|));
    }

    /** An allowed call keeps the server valid; see `LiveRuns.StepMakes` for what it shows. */
    method Create(dir: nat, name: Name) returns (r: Result<nat, Stat>)
      requires Valid()
      modifies vfs, staging, wal
      ensures wal.writer.Some? && (State(), r) == NfsCreate(vfs.repo, old(State()), dir, name)
      ensures old(Allowed(vfs.repo, State(), OpCreate(dir, name))) ==> Valid()
    {
      AllowedStep(vfs.repo, State(), OpCreate(dir, name));
      ghost var s := vfs.State();
      var id := vfs.CreateFile(dir, name, RegularFile);
      if id.None? { return Err(IoError); }
      staging.CreateFile(id.value);
      CreateKeepsNames(vfs.repo, s, dir, name, RegularFile);
      ChainEnds(vfs.repo, s, vfs.State(), dir);
      var path := PathOfChild(dir, name);
      RecordMutation(path, CreateEntry(path, FileInode));
      return Ok(id.value);
    }

    method Mkdir(dir: nat, name: Name) returns (r: Result<nat, Stat>)
      requires Valid()
      modifies vfs, staging, wal
      ensures wal.writer.Some? && (State(), r) == NfsMkdir(vfs.repo, old(State()), dir, name)
      ensures old(Allowed(vfs.repo, State(), OpMkdir(dir, name))) ==> Valid()
    {
      AllowedStep(vfs.repo, State(), OpMkdir(dir, name));
      ghost var s := vfs.State();
      var id := vfs.Mkdir(dir, name);
      if id.None? { return Err(IoError); }
      MkdirKeepsNames(vfs.repo, s, dir, name);
      ChainEnds(vfs.repo, s, vfs.State(), dir);
      var path := PathOfChild(dir, name);
      RecordMutation(path, MkdirEntry(path));
      return Ok(id.value);
    }

    method CheckFile(id: nat) returns (r: Option<Stat>)
      requires wal.writer.Some?
      ensures r == FileStat(State(), id)
    {
      if id in staging.deletedNodes { return Some(NoEnt); }
      if id !in vfs.nodes || vfs.nodes[id].deleted { return Some(NoEnt); }
      if vfs.nodes[id].isDir { return Some(IsADir); }
      return None;
    }

    method Write(id: nat, offset: nat, data: bytes) returns (r: Option<Stat>)
      requires Valid()
      modifies staging, wal
      ensures wal.writer.Some? && (State(), r) == NfsWrite(vfs.repo, old(State()), id, offset, data)
      ensures old(Allowed(vfs.repo, State(), OpWrite(id, offset, data))) ==> Valid()
    {
      AllowedStep(vfs.repo, State(), OpWrite(id, offset, data));
      AnyChainEnds(vfs.State(), id);
      r := WriteFile(id, offset, data);
    }

    method WriteFile(id: nat, offset: nat, data: bytes) returns (r: Option<Stat>)
      requires wal.writer.Some? && Ends(vfs.State(), id)
      modifies staging, wal
      ensures wal.writer.Some? && (State(), r) == NfsWrite(vfs.repo, old(State()), id, offset, data)
    {
      r := CheckFile(id);
      if r.Some? { return; }
      var base := GetBaseData(id);
      var _ := staging.WriteAt(id, offset, data, base);
      var path := vfs.GetPath(id);
      if path.Some? { RecordMutation(path.value, WriteEntry(path.value, offset, data)); }
    }

    method SetSize(id: nat, size: nat) returns (r: Option<Stat>)
      requires Valid()
      modifies staging, wal
      ensures wal.writer.Some? && (State(), r) == NfsSetSize(vfs.repo, old(State()), id, size)
      ensures old(Allowed(vfs.repo, State(), OpSetSize(id, size))) ==> Valid()
    {
      AllowedStep(vfs.repo, State(), OpSetSize(id, size));
      AnyChainEnds(vfs.State(), id);
      r := ResizeFile(id, size);
    }

    method ResizeFile(id: nat, size: nat) returns (r: Option<Stat>)
      requires wal.writer.Some? && Ends(vfs.State(), id)
      modifies staging, wal
      ensures wal.writer.Some? && (State(), r) == NfsSetSize(vfs.repo, old(State()), id, size)
    {
      r := CheckFile(id);
      if r.Some? { return; }
      var base := GetBaseData(id);
      staging.Truncate(id, size, base);
      var path := vfs.GetPath(id);
      if path.Some? { RecordMutation(path.value, TruncateEntry(path.value, size)); }
    }

    method Remove(dir: nat, name: Name) returns (r: Option<Stat>)
      requires Valid()
      modifies vfs, staging, wal
      ensures wal.writer.Some? && (State(), r) == NfsRemove(vfs.repo, old(State()), dir, name)
      ensures old(Allowed(vfs.repo, State(), OpRemove(dir, name))) ==> Valid()
    {
      AllowedStep(vfs.repo, State(), OpRemove(dir, name));
      ghost var s := vfs.State();
      var id := vfs.Remove(dir, name);
      if id.None? { return Some(NoEnt); }
      staging.MarkDeleted(id.value);
      RemoveKeepsNames(vfs.repo, s, dir, name);
      ChainEnds(vfs.repo, s, vfs.State(), dir);
      var path := PathOfChild(dir, name);
      RecordMutation(path, RemoveEntry(path));
      return None;
    }

    method Rename(fromDir: nat, fromName: Name, toDir: nat, toName: Name) returns (r: Option<Stat>)
      requires Valid()
      modifies vfs, staging, wal
      ensures wal.writer.Some?
      ensures (State(), r) == NfsRename(vfs.repo, old(State()), fromDir, fromName, toDir, toName)
      ensures old(Allowed(vfs.repo, State(), OpRename(fromDir, fromName, toDir, toName))) ==> Valid()
    {
      AllowedStep(vfs.repo, State(), OpRename(fromDir, fromName, toDir, toName));
      AnyChainEnds(vfs.State(), fromDir);
      AnyChainEnds(vfs.State(), toDir);
      r := RenameNodes(fromDir, fromName, toDir, toName);
    }

    method RenameNodes(fromDir: nat, fromName: Name, toDir: nat, toName: Name) returns (r: Option<Stat>)
      requires wal.writer.Some?
      requires Ends(vfs.State(), fromDir)
      requires Ends(vfs.State(), toDir)
      modifies vfs, staging, wal
      ensures wal.writer.Some?
      ensures (State(), r) == NfsRename(vfs.repo, old(State()), fromDir, fromName, toDir, toName)
    {
      var fromPath := PathOfChild(fromDir, fromName);
      var toPath := PathOfChild(toDir, toName);
      var ok := vfs.Rename(fromDir, fromName, toDir, toName);
      if !ok { return Some(IoError); }
      RecordRename(fromPath, toPath);
      return None;
    }

    method RecordRename(fromPath: bytes, toPath: bytes)
      requires wal.writer.Some?
      modifies staging, wal
      ensures wal.writer.Some?
      ensures
        var f := old(State());
        State() == LogMutation(f.(staging := S.Record(S.Record(f.staging, fromPath), toPath)),
          RenameEntry(fromPath, toPath))
    {
      staging.RecordChangedPath(fromPath);
      staging.RecordChangedPath(toPath);
      wal.LogMutation(RenameEntry(fromPath, toPath));
    }
  }

  // ---- why the handlers end, and what they keep

  lemma AllowedStep(repo: Repo, f: Server, op: Op)
    requires StoresOk(StoresOf(f)) && GoodRepo(repo)
    ensures Allowed(repo, f, op) ==> StoresOk(StoresOf(Step(repo, f, op)))
  {
    if Allowed(repo, f, op) { StepMakes(repo, f, op); }
  }

  lemma {:induction false} DepthClimbs(s: Vfs, id: nat, k: nat)
    requires AtDepth(s, id, k)
    ensures Climbs(s, id, k)
    decreases k
  {
    if k > 0 { DepthClimbs(s, s.nodes[id].parent, k - 1); }
  }

  /** In a valid state every parent chain ends. */
  lemma AnyChainEnds(s: Vfs, id: nat)
    requires Inv(s)
    ensures Ends(s, id)
  {
    if id in s.nodes {
      assert Rooted(s, id);
      var k: nat :| AtDepth(s, id, k);
      DepthClimbs(s, id, k);
    } else {
      assert Climbs(s, id, 0);
    }
  }

  /** It still does after a change that moves no node. */
  lemma ChainEnds(repo: Repo, s: Vfs, s2: Vfs, dir: nat)
    requires Inv(s) && KeepsNames(s, s2) && (CanPopulate(s, dir) || dir in s.nodes)
    ensures Ends(s2, dir)
  {
    assert Rooted(s, dir);
    var k: nat :| AtDepth(s, dir, k);
    DepthClimbs(s, dir, k);
    NamesKept(s, s2, dir, k);
  }
}
