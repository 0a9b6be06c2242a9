/** Runs of the live server: every run keeps the invariant, and its log records exactly the
    changes it made to the tree of paths. Replaying the log therefore shows the same tree. */
module LiveRuns {
  import opened Basics
  import opened Paths
  import opened GitData
  import opened Inodes
  import opened TreeView
  import opened VfsInvariant
  import opened Population
  import opened VfsOperations
  import opened Staging
  import opened Wal
  import opened Recovery
  import opened StoreChanges
  import opened ReplayProofs
  import opened NfsServer

  function StoresOf(f: Server): Stores { Stores(f.vfs, f.staging) }

  /** The tree of paths the server shows. */
  ghost function ServerShows(repo: Repo, f: Server): View { Shows(repo, StoresOf(f)) }

  // ---- what a handler may do

  /** The handler logged nothing and changed nothing a reader can see. */
  ghost predicate Quiet(repo: Repo, f: Server, f2: Server) {
    StoresOk(StoresOf(f2)) && f2.log == f.log && ServerShows(repo, f2) == ServerShows(repo, f)
  }

  /** The handler made the change `c` and logged it. */
  ghost predicate Made(repo: Repo, f: Server, f2: Server, c: Change) {
    && Applicable(ServerShows(repo, f), c)
    && StoresOk(StoresOf(f2))
    && ServerShows(repo, f2) == Apply(ServerShows(repo, f), c)
    && f2.log == f.log + [WalEntry(f.nextEntry, Some(Printed(c)))]
  }

  lemma LookupGrows(repo: Repo, s: Vfs, d: nat, n: Name)
    requires Inv(s) && GoodRepo(repo)
    ensures Inv(Lookup(repo, s, d, n).0) && Grown(repo, s, Lookup(repo, s, d, n).0)
  {
    PopulateGrows(repo, s, d);
    GrownReflexive(repo, s);
  }

  lemma LookupQuiet(repo: Repo, f: Server, dir: nat, name: Name)
    requires StoresOk(StoresOf(f)) && GoodRepo(repo)
    ensures Quiet(repo, f, NfsLookup(repo, f, dir, name).0)
  {
    LookupGrows(repo, f.vfs, dir, name);
    GrownStores(repo, StoresOf(f), Lookup(repo, f.vfs, dir, name).0);
  }

  lemma ListingQuiet(repo: Repo, f: Server, dir: nat)
    requires StoresOk(StoresOf(f)) && GoodRepo(repo)
    ensures Quiet(repo, f, NfsListing(repo, f, dir).0)
  {
    PopulateGrows(repo, f.vfs, dir);
    GrownStores(repo, StoresOf(f), Populate(repo, f.vfs, dir));
  }

  // ---- printed paths

  /** No node of `s` is renamed or moved. */
  ghost predicate KeepsNames(s: Vfs, s2: Vfs) {
    forall x | x in s.nodes ::
      x in s2.nodes && s2.nodes[x].parent == s.nodes[x].parent && s2.nodes[x].name == s.nodes[x].name
  }

  lemma {:induction false} NamesKept(s: Vfs, s2: Vfs, id: nat, k: nat)
    requires KeepsNames(s, s2) && AtDepth(s, id, k) && Climbs(s, id, k)
    ensures Climbs(s2, id, k) && NamesUp(s2, id, k) == NamesUp(s, id, k)
    decreases k
  {
    if k > 0 && s.nodes[id].parent != id { NamesKept(s, s2, s.nodes[id].parent, k - 1); }
  }

  /** After a change that moves no node, a child of the directory at `p` is still logged by
      its path. */
  lemma ChildPathPrints(repo: Repo, s: Vfs, s2: Vfs, p: Path, n: Name)
    requires Inv(s) && GoodRepo(repo) && Walk(repo, s, p).At? && KeepsNames(s, s2)
    ensures ChildPath(s2, Walk(repo, s, p).id, n) == Join(p + [n])
  {
    var d := Walk(repo, s, p).id;
    WalkAt(repo, s, p);
    WalkGood(repo, s, p);
    NamesUpWalk(repo, s, p);
    NamesKept(s, s2, d, |p|);
    forall k: nat | Climbs(s2, d, k) ensures NamesUp(s2, d, k) == Some(p) {
      NamesUpUnique(s2, d, k, |p|);
    }
    JoinUnder(p, n);
  }

  lemma CreateKeepsNames(repo: Repo, s: Vfs, d: nat, n: Name, mode: TreeEntryMode)
    requires Inv(s) && GoodRepo(repo)
    ensures KeepsNames(s, CreateFile(repo, s, d, n, mode).0)
  {
    PopulateGrows(repo, s, d);
    assert Populate(repo, s, d).next !in Populate(repo, s, d).nodes;
  }

  lemma MkdirKeepsNames(repo: Repo, s: Vfs, d: nat, n: Name)
    requires Inv(s) && GoodRepo(repo)
    ensures KeepsNames(s, Mkdir(repo, s, d, n).0)
  {
    PopulateGrows(repo, s, d);
    assert Populate(repo, s, d).next !in Populate(repo, s, d).nodes;
  }

  lemma RemoveKeepsNames(repo: Repo, s: Vfs, d: nat, n: Name)
    requires Inv(s) && GoodRepo(repo)
    ensures KeepsNames(s, Remove(repo, s, d, n).0)
  {
    PopulateGrows(repo, s, d);
  }

  // ---- the handlers

  lemma ChildHasPlace(repo: Repo, f: Server, p: Path, n: Name)
    requires StoresOk(StoresOf(f)) && GoodRepo(repo) && Walk(repo, f.vfs, p).At? && GoodName(n)
    requires IsDir(ServerShows(repo, f), p)
    ensures HasPlace(ServerShows(repo, f), p + [n])
  {
    WalkGood(repo, f.vfs, p);
    GoodSnoc(p, n);
    assert (p + [n])[..|p|] == p;
  }

  lemma CreateMakes(repo: Repo, f: Server, p: Path, n: Name)
    requires StoresOk(StoresOf(f)) && GoodRepo(repo) && Walk(repo, f.vfs, p).At? && GoodName(n)
    ensures var (f2, r) := NfsCreate(repo, f, Walk(repo, f.vfs, p).id, n);
      && (r.Ok? <==> IsDir(ServerShows(repo, f), p))
      && (if r.Ok? then Made(repo, f, f2, Create(p + [n])) else Quiet(repo, f, f2))
      && (if r.Ok? then Walk(repo, f2.vfs, p + [n]) == At(r.value) else r == Err(IoError))
  {
    var d := Walk(repo, f.vfs, p).id;
    var x := StoresOf(f);
    CreateShows(repo, x, p, n);
    CreateLeads(repo, x, p, n, RegularFile);
    var (s2, id) := CreateFile(repo, f.vfs, d, n, RegularFile);
    if id.Some? {
      CreateKeepsNames(repo, f.vfs, d, n, RegularFile);
      ChildPathPrints(repo, f.vfs, s2, p, n);
      ChildHasPlace(repo, f, p, n);
      RecordShows(repo, Stores(s2, StageNew(f.staging, id.value)), Join(p + [n]));
    }
  }

  lemma MkdirMakes(repo: Repo, f: Server, p: Path, n: Name)
    requires StoresOk(StoresOf(f)) && GoodRepo(repo) && Walk(repo, f.vfs, p).At? && GoodName(n)
    requires p + [n] !in ServerShows(repo, f)
    ensures var (f2, r) := NfsMkdir(repo, f, Walk(repo, f.vfs, p).id, n);
      && (r.Ok? <==> IsDir(ServerShows(repo, f), p))
      && (if r.Ok? then Made(repo, f, f2, MakeDir(p + [n])) else Quiet(repo, f, f2))
      && (if r.Ok? then Walk(repo, f2.vfs, p + [n]) == At(r.value) else r == Err(IoError))
  {
    var d := Walk(repo, f.vfs, p).id;
    MkdirShows(repo, StoresOf(f), p, n);
    MkdirLeads(repo, StoresOf(f), p, n);
    var (s2, id) := Mkdir(repo, f.vfs, d, n);
    if id.Some? {
      MkdirKeepsNames(repo, f.vfs, d, n);
      ChildPathPrints(repo, f.vfs, s2, p, n);
      ChildHasPlace(repo, f, p, n);
      RecordShows(repo, Stores(s2, f.staging), Join(p + [n]));
    }
  }

  /** A handler on one file fails exactly on directories; its inode is never one that was
      deleted. */
  lemma FileStatSeen(repo: Repo, f: Server, p: Path)
    requires StoresOk(StoresOf(f)) && Walk(repo, f.vfs, p).At?
    ensures FileStat(f, Walk(repo, f.vfs, p).id).None? <==> IsFile(ServerShows(repo, f), p)
    ensures FileStat(f, Walk(repo, f.vfs, p).id).Some? ==> FileStat(f, Walk(repo, f.vfs, p).id) == Some(IsADir)
  {
    WalkAt(repo, f.vfs, p);
    DirSeen(repo, f.vfs, f.staging.files, p);
  }

  lemma WriteMakes(repo: Repo, f: Server, p: Path, offset: nat, data: bytes)
    requires StoresOk(StoresOf(f)) && GoodRepo(repo) && Walk(repo, f.vfs, p).At?
    ensures var (f2, r) := NfsWrite(repo, f, Walk(repo, f.vfs, p).id, offset, data);
      && (r.None? <==> IsFile(ServerShows(repo, f), p)) && (r.Some? ==> r == Some(IsADir))
      && if r.None? then Made(repo, f, f2, Write(p, offset, data)) else f2 == f
  {
    var id := Walk(repo, f.vfs, p).id;
    FileStatSeen(repo, f, p);
    if FileStat(f, id).None? {
      WriteShows(repo, StoresOf(f), p, offset, data);
      GetPathPrints(repo, f.vfs, p);
      WalkGood(repo, f.vfs, p);
      var base := BaseData(repo, f.staging, id, f.vfs.nodes[id].oid);
      RecordShows(repo, Stores(f.vfs, WriteAt(f.staging, id, offset, data, base)), Join(p));
    }
  }

  lemma SetSizeMakes(repo: Repo, f: Server, p: Path, size: nat)
    requires StoresOk(StoresOf(f)) && GoodRepo(repo) && Walk(repo, f.vfs, p).At?
    ensures var (f2, r) := NfsSetSize(repo, f, Walk(repo, f.vfs, p).id, size);
      && (r.None? <==> IsFile(ServerShows(repo, f), p)) && (r.Some? ==> r == Some(IsADir))
      && if r.None? then Made(repo, f, f2, Resize(p, size)) else f2 == f
  {
    var id := Walk(repo, f.vfs, p).id;
    FileStatSeen(repo, f, p);
    if FileStat(f, id).None? {
      TruncateShows(repo, StoresOf(f), p, size);
      GetPathPrints(repo, f.vfs, p);
      WalkGood(repo, f.vfs, p);
      var base := BaseData(repo, f.staging, id, f.vfs.nodes[id].oid);
      RecordShows(repo, Stores(f.vfs, Truncate(f.staging, id, size, base)), Join(p));
    }
  }

  lemma RemoveMakes(repo: Repo, f: Server, p: Path, n: Name)
    requires StoresOk(StoresOf(f)) && GoodRepo(repo) && Walk(repo, f.vfs, p).At?
    ensures var (f2, r) := NfsRemove(repo, f, Walk(repo, f.vfs, p).id, n);
      && (r.None? <==> p + [n] in ServerShows(repo, f)) && (r.Some? ==> r == Some(NoEnt))
      && if r.None? then Made(repo, f, f2, Delete(p + [n])) else Quiet(repo, f, f2)
  {
    RemoveShows(repo, StoresOf(f), p, n);
    if Remove(repo, f.vfs, Walk(repo, f.vfs, p).id, n).1.Some? {
      RemovedMakes(repo, f, p, n);
    } else {
      DeleteNothing(repo, f, p + [n]);
    }
  }

  /** A remove that finds its name keeps the tables `Remove` leaves, marks the inode and logs. */
  lemma RemoveLogs(repo: Repo, f: Server, dir: nat, n: Name, path: bytes)
    requires Remove(repo, f.vfs, dir, n).1.Some? && ChildPath(Remove(repo, f.vfs, dir, n).0, dir, n) == path
    ensures var (s2, id) := Remove(repo, f.vfs, dir, n); var f2 := NfsRemove(repo, f, dir, n).0;
      && StoresOf(f2) == Stores(s2, Record(MarkDeleted(f.staging, id.value), path))
      && f2.log == f.log + [WalEntry(f.nextEntry, Some(RemoveEntry(path)))]
  {
  }

  /** A remove that finds its name makes a deletion. */
  lemma RemovedShows(repo: Repo, f: Server, p: Path, n: Name, path: bytes)
    requires StoresOk(StoresOf(f)) && GoodRepo(repo) && Walk(repo, f.vfs, p).At?
    requires Remove(repo, f.vfs, Walk(repo, f.vfs, p).id, n).1.Some?
    ensures var (s2, id) := Remove(repo, f.vfs, Walk(repo, f.vfs, p).id, n);
      var x2 := Stores(s2, Record(MarkDeleted(f.staging, id.value), path));
      StoresOk(x2) && Shows(repo, x2) == Deleted(ServerShows(repo, f), p + [n])
  {
    RemoveShows(repo, StoresOf(f), p, n);
    var (s2, id) := Remove(repo, f.vfs, Walk(repo, f.vfs, p).id, n);
    RecordShows(repo, Stores(s2, MarkDeleted(f.staging, id.value)), path);
  }

  lemma RemoveLogged(repo: Repo, f: Server, p: Path, n: Name)
    requires Inv(f.vfs) && GoodRepo(repo) && Walk(repo, f.vfs, p).At?
    requires Remove(repo, f.vfs, Walk(repo, f.vfs, p).id, n).1.Some?
    ensures var d := Walk(repo, f.vfs, p).id; ChildPath(Remove(repo, f.vfs, d, n).0, d, n) == Join(p + [n])
  {
    var d := Walk(repo, f.vfs, p).id;
    RemoveKeepsNames(repo, f.vfs, d, n);
    ChildPathPrints(repo, f.vfs, Remove(repo, f.vfs, d, n).0, p, n);
  }

  lemma DeleteApplies(repo: Repo, f: Server, t: Path)
    requires StoresOk(StoresOf(f)) && GoodRepo(repo) && t in ServerShows(repo, f) && t != []
    ensures Applicable(ServerShows(repo, f), Delete(t))
  {
    GoneUnseen(repo, StoresOf(f), t);
    WalkGood(repo, f.vfs, t);
  }

  /** A remove that finds its name logs the deletion it makes. */
  lemma RemovedMakes(repo: Repo, f: Server, p: Path, n: Name)
    requires StoresOk(StoresOf(f)) && GoodRepo(repo) && Walk(repo, f.vfs, p).At?
    requires Remove(repo, f.vfs, Walk(repo, f.vfs, p).id, n).1.Some? && p + [n] in ServerShows(repo, f)
    ensures Made(repo, f, NfsRemove(repo, f, Walk(repo, f.vfs, p).id, n).0, Delete(p + [n]))
  {
    DeleteApplies(repo, f, p + [n]);
    RemoveLogged(repo, f, p, n);
    RemovedShows(repo, f, p, n, Join(p + [n]));
    RemoveLogs(repo, f, Walk(repo, f.vfs, p).id, n, Join(p + [n]));
  }

  lemma DeleteNothing(repo: Repo, f: Server, t: Path)
    requires StoresOk(StoresOf(f)) && t !in ServerShows(repo, f)
    ensures Deleted(ServerShows(repo, f), t) == ServerShows(repo, f)
  {
    GoneUnseen(repo, StoresOf(f), t);
    NothingToDelete(repo, f.vfs, f.staging.files, t);
  }

  lemma RenamePrints(repo: Repo, f: Server, p: Path, n: Name, p2: Path, n2: Name)
    requires StoresOk(StoresOf(f)) && GoodRepo(repo) && Walk(repo, f.vfs, p).At? && Walk(repo, f.vfs, p2).At?
    requires GoodName(n2) && !(p + [n] <= p2 + [n2])
    requires p + [n] in ServerShows(repo, f) && IsDir(ServerShows(repo, f), p2)
    ensures Applicable(ServerShows(repo, f), Move(p + [n], p2 + [n2]))
    ensures ChildPath(f.vfs, Walk(repo, f.vfs, p).id, n) == Join(p + [n])
    ensures ChildPath(f.vfs, Walk(repo, f.vfs, p2).id, n2) == Join(p2 + [n2])
  {
    ChildPathPrints(repo, f.vfs, f.vfs, p, n);
    ChildPathPrints(repo, f.vfs, f.vfs, p2, n2);
    ChildHasPlace(repo, f, p2, n2);
    GoneUnseen(repo, StoresOf(f), p + [n]);
    WalkGood(repo, f.vfs, p + [n]);
  }

  lemma RenameMakes(repo: Repo, f: Server, p: Path, n: Name, p2: Path, n2: Name)
    requires StoresOk(StoresOf(f)) && GoodRepo(repo) && Walk(repo, f.vfs, p).At? && Walk(repo, f.vfs, p2).At?
    requires GoodName(n2) && !(p + [n] <= p2 + [n2])
    ensures var (f2, r) := NfsRename(repo, f, Walk(repo, f.vfs, p).id, n, Walk(repo, f.vfs, p2).id, n2);
      && (r.None? <==> p + [n] in ServerShows(repo, f) && IsDir(ServerShows(repo, f), p2))
      && (r.Some? ==> r == Some(IoError))
      && if r.None? then Made(repo, f, f2, Move(p + [n], p2 + [n2])) else Quiet(repo, f, f2)
  {
    var x := StoresOf(f);
    RenameShows(repo, x, p, n, p2, n2);
    var (s2, ok) := Rename(repo, f.vfs, Walk(repo, f.vfs, p).id, n, Walk(repo, f.vfs, p2).id, n2);
    if ok {
      RenamePrints(repo, f, p, n, p2, n2);
      RecordShows(repo, x.(vfs := s2), Join(p + [n]));
      RecordShows(repo, Stores(s2, Record(f.staging, Join(p + [n]))), Join(p2 + [n2]));
    }
  }

  // ---- runs

  datatype Op =
    | OpLookup(dir: nat, name: Name)
    | OpReadDir(dir: nat, after: nat, max: nat)
    | OpCreate(dir: nat, name: Name)
    | OpMkdir(dir: nat, name: Name)
    | OpWrite(id: nat, offset: nat, data: bytes)
    | OpSetSize(id: nat, size: nat)
    | OpRemove(dir: nat, name: Name)
    | OpRename(dir: nat, name: Name, toDir: nat, toName: Name)

  ghost function Step(repo: Repo, f: Server, op: Op): Server {
    match op
    case OpLookup(dir, name) => NfsLookup(repo, f, dir, name).0
    case OpReadDir(dir, after, max) => NfsReadDir(repo, f, dir, after, max).0
    case OpCreate(dir, name) => NfsCreate(repo, f, dir, name).0
    case OpMkdir(dir, name) => NfsMkdir(repo, f, dir, name).0
    case OpWrite(id, offset, data) => NfsWrite(repo, f, id, offset, data).0
    case OpSetSize(id, size) => NfsSetSize(repo, f, id, size).0
    case OpRemove(dir, name) => NfsRemove(repo, f, dir, name).0
    case OpRename(dir, name, toDir, toName) => NfsRename(repo, f, dir, name, toDir, toName).0
  }

  ghost predicate Reachable(repo: Repo, s: Vfs, id: nat) {
    exists p: Path :: Walk(repo, s, p) == At(id)
  }

  /** The name is taken under `dir`, populated or not. */
  predicate Taken(repo: Repo, s: Vfs, dir: nat, name: Name) {
    !Child(repo, s, At(dir), name).Gone?
  }

  /** The target of a rename is the renamed node itself or lies below it. */
  ghost predicate IntoItself(repo: Repo, s: Vfs, dir: nat, name: Name, toDir: nat, toName: Name) {
    exists p: Path, p2: Path ::
      Walk(repo, s, p) == At(dir) && Walk(repo, s, p2) == At(toDir) && p + [name] <= p2 + [toName]
  }

  /** Handlers are called on inodes that a path still leads to (or that are gone for good);
      mkdir on a free name; rename neither onto itself nor into its own subtree. Calls may
      fail, and lookups and listings may populate any directory. */
  ghost predicate Allowed(repo: Repo, f: Server, op: Op) {
    match op
    case OpLookup(_, _) => true
    case OpReadDir(_, _, _) => true
    case OpCreate(dir, name) => Reachable(repo, f.vfs, dir) && GoodName(name)
    case OpMkdir(dir, name) => Reachable(repo, f.vfs, dir) && GoodName(name) && !Taken(repo, f.vfs, dir, name)
    case OpWrite(id, _, _) => Reachable(repo, f.vfs, id) || FileStat(f, id).Some?
    case OpSetSize(id, _) => Reachable(repo, f.vfs, id) || FileStat(f, id).Some?
    case OpRemove(dir, _) => Reachable(repo, f.vfs, dir)
    case OpRename(dir, name, toDir, toName) =>
      && Reachable(repo, f.vfs, dir) && Reachable(repo, f.vfs, toDir) && GoodName(toName)
      && !IntoItself(repo, f.vfs, dir, name, toDir, toName)
  }

  lemma MkdirStep(repo: Repo, f: Server, p: Path, n: Name)
    requires StoresOk(StoresOf(f)) && GoodRepo(repo) && Walk(repo, f.vfs, p).At? && GoodName(n)
    requires !Taken(repo, f.vfs, Walk(repo, f.vfs, p).id, n)
    ensures
      var f2 := NfsMkdir(repo, f, Walk(repo, f.vfs, p).id, n).0;
      Quiet(repo, f, f2) || Made(repo, f, f2, MakeDir(p + [n]))
  {
    WalkSnoc(repo, f.vfs, p, n);
    GoneUnseen(repo, StoresOf(f), p + [n]);
    MkdirMakes(repo, f, p, n);
  }

  /** A call that names a child of a directory. */
  lemma ChildStepMakes(repo: Repo, f: Server, op: Op)
    requires StoresOk(StoresOf(f)) && GoodRepo(repo) && Allowed(repo, f, op)
    requires op.OpCreate? || op.OpMkdir? || op.OpRemove?
    ensures Quiet(repo, f, Step(repo, f, op)) || exists c :: Made(repo, f, Step(repo, f, op), c)
  {
    var p: Path :| Walk(repo, f.vfs, p) == At(op.dir);
    match op
    case OpCreate(dir, name) => CreateMakes(repo, f, p, name);
    case OpMkdir(dir, name) => MkdirStep(repo, f, p, name);
    case OpRemove(dir, name) => RemoveMakes(repo, f, p, name);
  }

  lemma RenameStepMakes(repo: Repo, f: Server, op: Op)
    requires StoresOk(StoresOf(f)) && GoodRepo(repo) && Allowed(repo, f, op) && op.OpRename?
    ensures Quiet(repo, f, Step(repo, f, op)) || exists c :: Made(repo, f, Step(repo, f, op), c)
  {
    var p: Path :| Walk(repo, f.vfs, p) == At(op.dir);
    var p2: Path :| Walk(repo, f.vfs, p2) == At(op.toDir);
    RenameMakes(repo, f, p, op.name, p2, op.toName);
  }

  /** Every call leaves the server consistent and either shows nothing new and logs nothing,
      or makes one change and logs it. */
  lemma StepMakes(repo: Repo, f: Server, op: Op)
    requires StoresOk(StoresOf(f)) && GoodRepo(repo) && Allowed(repo, f, op)
    ensures Quiet(repo, f, Step(repo, f, op)) || exists c :: Made(repo, f, Step(repo, f, op), c)
  {
    match op
    case OpLookup(dir, name) => LookupQuiet(repo, f, dir, name);
    case OpReadDir(dir, _, _) => ListingQuiet(repo, f, dir);
    case OpWrite(id, offset, data) =>
      if FileStat(f, id).None? {
        var p: Path :| Walk(repo, f.vfs, p) == At(id);
        WriteMakes(repo, f, p, offset, data);
      }
    case OpSetSize(id, size) =>
      if FileStat(f, id).None? {
        var p: Path :| Walk(repo, f.vfs, p) == At(id);
        SetSizeMakes(repo, f, p, size);
      }
    case OpRename(_, _, _, _) => RenameStepMakes(repo, f, op);
    case _ => ChildStepMakes(repo, f, op);
  }

  ghost function RunAll(repo: Repo, f: Server, ops: seq<Op>): Server
    decreases |ops|
  {
    if ops == [] then f else Step(repo, RunAll(repo, f, ops[..|ops| - 1]), ops[|ops| - 1])
  }

  ghost predicate AllAllowed(repo: Repo, f: Server, ops: seq<Op>)
    decreases |ops|
  {
    ops != [] ==>
      && AllAllowed(repo, f, ops[..|ops| - 1])
      && Allowed(repo, RunAll(repo, f, ops[..|ops| - 1]), ops[|ops| - 1])
  }

  /** The log of `f` records changes of the base tree that lead to what `f` shows. */
  ghost predicate Explains(repo: Repo, root: Oid, f: Server, cs: seq<Change>) {
    && Records(f.log, cs)
    && AllApplicable(BaseView(repo, root), cs)
    && ServerShows(repo, f) == ApplyAll(BaseView(repo, root), cs)
  }

  /** A new session's log records nothing yet. */
  lemma SessionExplained(repo: Repo, root: Oid, header: Payload)
    requires header.Header?
    ensures exists cs :: Explains(repo, root, NewSession(root, header), cs)
  {
    var f, none: seq<Change> := NewSession(root, header), [];
    FreshShows(repo, root);
    assert StoresOf(f) == FreshStores(root);
    ApplyNone(BaseView(repo, root), none);
    assert ServerShows(repo, f) == Shows(repo, FreshStores(root));
    assert f.log[..|f.log| - 1] == [];
    assert Explains(repo, root, f, none);
  }

  lemma {:induction false} RunExplained(repo: Repo, root: Oid, header: Payload, ops: seq<Op>)
    requires GoodRepo(repo) && header.Header? && AllAllowed(repo, NewSession(root, header), ops)
    ensures var f := RunAll(repo, NewSession(root, header), ops);
      StoresOk(StoresOf(f)) && exists cs :: Explains(repo, root, f, cs)
    decreases |ops|
  {
    if ops == [] {
      FreshShows(repo, root);
      SessionExplained(repo, root, header);
    } else {
      var front, op := ops[..|ops| - 1], ops[|ops| - 1];
      RunExplained(repo, root, header, front);
      var f := RunAll(repo, NewSession(root, header), front);
      var cs :| Explains(repo, root, f, cs);
      StepMakes(repo, f, op);
      StepExplained(repo, root, f, Step(repo, f, op), cs);
    }
  }

  lemma StepExplained(repo: Repo, root: Oid, f: Server, f2: Server, cs: seq<Change>)
    requires Explains(repo, root, f, cs)
    requires Quiet(repo, f, f2) || exists c :: Made(repo, f, f2, c)
    ensures exists cs2 :: Explains(repo, root, f2, cs2)
  {
    if Quiet(repo, f, f2) {
      assert Explains(repo, root, f2, cs);
    } else {
      var c :| Made(repo, f, f2, c);
      RecordsSnoc(f.log, cs, f.nextEntry, c);
      ApplyAllSnoc(BaseView(repo, root), cs, c);
      assert Explains(repo, root, f2, cs + [c]);
    }
  }

  /** Crash recovery refines the live file system: replaying the log of any run into fresh
      stores succeeds and shows the same tree of paths, though the replay numbers and
      populates inodes in its own order. */
  lemma ReplayRefinesLive(repo: Repo, root: Oid, header: Payload, ops: seq<Op>)
    requires GoodRepo(repo) && header.Header? && AllAllowed(repo, NewSession(root, header), ops)
    ensures var f := RunAll(repo, NewSession(root, header), ops);
      var (x, ok) := Replay(repo, FreshStores(root), f.log);
      ok && StoresOk(x) && Shows(repo, x) == ServerShows(repo, f)
  {
    RunExplained(repo, root, header, ops);
    var f := RunAll(repo, NewSession(root, header), ops);
    var cs :| Explains(repo, root, f, cs);
    FreshShows(repo, root);
    ReplayShows(repo, FreshStores(root), f.log, cs);
  }

  /** The invariant holds in every state a run reaches, and no path has two inodes. */
  lemma RunKeepsInvariant(repo: Repo, root: Oid, header: Payload, ops: seq<Op>, d: nat, n: Name, c: nat)
    requires GoodRepo(repo) && header.Header? && AllAllowed(repo, NewSession(root, header), ops)
    ensures var s := RunAll(repo, NewSession(root, header), ops).vfs;
      && Inv(s)
      && ((d, n) in s.childMap && s.childMap[(d, n)] == c <==> Listed(s, d, c) == 1 && IsChild(s, c, d, n))
      && (c in s.nodes ==> c < s.next && exists k: nat :: AtDepth(s, c, k))
  {
    RunExplained(repo, root, header, ops);
    var s := RunAll(repo, NewSession(root, header), ops).vfs;
    TablesAgree(s, d, n, c);
    if c in s.nodes { assert Rooted(s, c); }
  }

  /** Reading returns the bytes of the tree the server shows. */
  lemma ReadSees(repo: Repo, f: Server, p: Path, offset: nat, count: nat)
    requires StoresOk(StoresOf(f)) && Walk(repo, f.vfs, p).At?
    ensures var v := ServerShows(repo, f); var r := NfsRead(repo, f, Walk(repo, f.vfs, p).id, offset, count);
      && p in v
      && (v[p].Dir? ==> r == Err(IsADir))
      && (v[p].File? && v[p].content.None? ==> r == Err(IoError))
      && (v[p].File? && v[p].content.Some? ==> var content := v[p].content.value;
            r.Ok? && r.value.0 == content[Min(offset, |content|)..Min(offset + count, |content|)]
            && (r.value.1 <==> offset + count >= |content|))
  {
    FileStatSeen(repo, f, p);
    WalkAt(repo, f.vfs, p);
    DirSeen(repo, f.vfs, f.staging.files, p);
  }
}
