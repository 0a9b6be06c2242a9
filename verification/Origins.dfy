/** Where every inode of a replayed graph comes from, whatever the log: it is an entry of some
    base tree, with its mode and id, or new, and then staged unless a directory. */
module Origins {
  import opened Basics
  import opened Paths
  import opened GitData
  import opened Inodes
  import opened TreeView
  import opened VfsInvariant
  import opened Population
  import opened VfsOperations
  import opened Staging
  import opened Wal
  import opened Recovery
  import opened StoreChanges
  import opened ReplayProofs
  import opened Accretion

  ghost predicate FromEntry(repo: Repo, mode: TreeEntryMode, oid: Oid) {
    exists t, e :: t in repo.trees && e in repo.trees[t] && e.mode == mode && e.oid == oid
  }

  ghost predicate NodeGrounded(repo: Repo, n: Node, staged: bool) {
    && PlainName(n.name)
    && if n.oid == [] then n.mode.Directory? || (n.mode.RegularFile? && staged) else FromEntry(repo, n.mode, n.oid)
  }

  ghost predicate Grounded(repo: Repo, s: Vfs, staged: set<nat>) {
    forall id | id in s.nodes && id != ROOT :: NodeGrounded(repo, s.nodes[id], id in staged)
  }

  /** Both stores: what is staged are files, and the root is its own parent. */
  ghost predicate GroundedStores(repo: Repo, x: Stores) {
    && StoresOk(x) && Grounded(repo, x.vfs, x.staging.sizes.Keys) && x.vfs.nodes[ROOT].parent == ROOT
    && forall id | id in x.staging.sizes :: id in x.vfs.nodes && !x.vfs.nodes[id].isDir
  }

  // ---- the operations on the graph

  lemma {:induction false} CollectGrounds(repo: Repo, s: Vfs, d: nat, t: Oid, entries: Entries)
    requires PlainBase(repo) && t in repo.trees && forall e | e in entries :: e in repo.trees[t]
    ensures forall id | id in Collect(s, d, entries).nodes ::
      NodeGrounded(repo, Collect(s, d, entries).nodes[id], false)
    decreases |entries|
  {
    if entries != [] {
      CollectGrounds(repo, s, d, t, entries[..|entries| - 1]);
      var e := entries[|entries| - 1];
      assert e in entries && NodeGrounded(repo, EntryNode(d, e), false);
    }
  }

  lemma PopulateGrounds(repo: Repo, s: Vfs, d: nat, staged: set<nat>)
    requires PlainBase(repo) && Grounded(repo, s, staged)
    ensures Grounded(repo, Populate(repo, s, d), staged)
  {
    if CanPopulate(s, d) && d !in s.dirChildren {
      var t := s.nodes[d].oid;
      if t in repo.trees { CollectGrounds(repo, s, d, t, EntriesOf(repo, t)); }
    }
  }

  lemma LookupGrounds(repo: Repo, s: Vfs, d: nat, name: Name, staged: set<nat>)
    requires PlainBase(repo) && Grounded(repo, s, staged)
    ensures Grounded(repo, Lookup(repo, s, d, name).0, staged)
  {
    PopulateGrounds(repo, s, d, staged);
  }

  lemma {:induction false} LookupPartsGrounds(repo: Repo, s: Vfs, from: nat, parts: seq<bytes>, staged: set<nat>)
    requires PlainBase(repo) && Grounded(repo, s, staged)
    ensures Grounded(repo, LookupParts(repo, s, from, parts).0, staged)
    decreases |parts|
  {
    if parts != [] {
      if parts[0] == [] || parts[0] == DOT {
        LookupPartsGrounds(repo, s, from, parts[1..], staged);
      } else {
        LookupGrounds(repo, s, from, parts[0], staged);
        var (s1, child) := Lookup(repo, s, from, parts[0]);
        if child.Some? { LookupPartsGrounds(repo, s1, child.value, parts[1..], staged); }
      }
    }
  }

  lemma LookupPathGrounds(repo: Repo, s: Vfs, path: bytes, staged: set<nat>)
    requires PlainBase(repo) && Grounded(repo, s, staged)
    ensures Grounded(repo, LookupPath(repo, s, path).0, staged)
  {
    if Trim(path) != [] { LookupPartsGrounds(repo, s, ROOT, Split(Trim(path)), staged); }
  }

  lemma CreateGrounds(repo: Repo, s: Vfs, d: nat, name: Name, staged: set<nat>)
    requires PlainBase(repo) && Grounded(repo, s, staged) && PlainName(name)
    ensures
      var (s2, id) := CreateFile(repo, s, d, name, RegularFile);
      Grounded(repo, s2, if id.Some? then staged + {id.value} else staged)
  {
    PopulateGrounds(repo, s, d, staged);
  }

  lemma MkdirGrounds(repo: Repo, s: Vfs, d: nat, name: Name, staged: set<nat>)
    requires PlainBase(repo) && Grounded(repo, s, staged) && PlainName(name)
    ensures Grounded(repo, Mkdir(repo, s, d, name).0, staged)
  {
    PopulateGrounds(repo, s, d, staged);
  }

  lemma RemoveGrounds(repo: Repo, s: Vfs, d: nat, name: Name, staged: set<nat>)
    requires PlainBase(repo) && Grounded(repo, s, staged)
    ensures Grounded(repo, Remove(repo, s, d, name).0, staged)
  {
    PopulateGrounds(repo, s, d, staged);
  }

  lemma RenameGrounds(repo: Repo, s: Vfs, d: nat, n: Name, d2: nat, n2: Name, staged: set<nat>)
    requires PlainBase(repo) && Grounded(repo, s, staged) && PlainName(n2)
    ensures Grounded(repo, Rename(repo, s, d, n, d2, n2).0, staged)
  {
    PopulateGrounds(repo, s, d, staged);
    var s1 := Populate(repo, s, d);
    PopulateGrounds(repo, s1, d2, staged);
    var s2 := Populate(repo, s1, d2);
    RemoveGrounds(repo, s2, d2, n2, staged);
    if CanPopulate(s, d) && CanPopulate(s1, d2) && (d, n) in s2.childMap && s2.childMap[(d, n)] in s2.nodes {
      RehangGrounds(repo, Remove(repo, s2, d2, n2).0, s2.childMap[(d, n)], d, n, d2, n2, staged);
    }
  }

  lemma RehangGrounds(repo: Repo, s: Vfs, id: nat, d: nat, n: Name, d2: nat, n2: Name, staged: set<nat>)
    requires Grounded(repo, s, staged) && id in s.nodes && PlainName(n2)
    ensures Grounded(repo, Rehang(s, id, d, n, d2, n2), staged)
  {
  }

  ghost predicate PlainNames(p: Path) {
    forall n | n in p :: PlainName(n)
  }

  lemma {:induction false} EnsureDirsGrounds(repo: Repo, s: Vfs, from: nat, parts: seq<bytes>, staged: set<nat>)
    requires PlainBase(repo) && Grounded(repo, s, staged) && PlainNames(parts)
    ensures Grounded(repo, EnsureDirs(repo, s, from, parts).0, staged)
    decreases |parts|
  {
    if parts != [] {
      assert parts[0] in parts && forall n | n in parts[1..] :: n in parts;
      LookupGrounds(repo, s, from, parts[0], staged);
      var (s1, child) := Lookup(repo, s, from, parts[0]);
      MkdirGrounds(repo, s1, from, parts[0], staged);
      var (s2, made) := Mkdir(repo, s1, from, parts[0]);
      if child.Some? {
        EnsureDirsGrounds(repo, s1, child.value, parts[1..], staged);
      } else if made.Some? {
        EnsureDirsGrounds(repo, s2, made.value, parts[1..], staged);
      }
    }
  }

  lemma ParentGrounds(repo: Repo, s: Vfs, p: Path, staged: set<nat>)
    requires PlainBase(repo) && Grounded(repo, s, staged) && GoodPath(p) && PlainNames(p) && p != []
    ensures
      var (s1, place) := EnsureParentDirs(repo, s, Join(p));
      Grounded(repo, s1, staged) && (place.Some? ==> PlainName(place.value.1))
  {
    ParseJoin(p);
    assert forall n | n in p[..|p| - 1] :: n in p;
    assert p[|p| - 1] in p;
    EnsureDirsGrounds(repo, s, ROOT, p[..|p| - 1], staged);
  }

  // ---- replayed changes

  /** Applicable, on names that can be committed, and not creating over a directory. */
  ghost predicate Tame(v: View, c: Change) {
    && Applicable(v, c) && PlainNames(c.path) && (c.Move? ==> PlainNames(c.to))
    && (c.Create? ==> !IsDir(v, c.path))
  }

  ghost predicate AllTame(v: View, cs: seq<Change>)
    decreases |cs|
  {
    cs == [] || (Tame(v, cs[0]) && AllTame(Apply(v, cs[0]), cs[1..]))
  }

  lemma {:induction false} AllTameApplicable(v: View, cs: seq<Change>)
    requires AllTame(v, cs)
    ensures AllApplicable(v, cs)
    decreases |cs|
  {
    if cs != [] { AllTameApplicable(Apply(v, cs[0]), cs[1..]); }
  }

  lemma {:induction false} AllTameSplit(v: View, cs: seq<Change>, c: Change)
    requires AllTame(v, cs + [c])
    ensures AllTame(v, cs) && AllApplicable(v, cs) && Tame(ApplyAll(v, cs), c)
    decreases |cs|
  {
    if cs == [] {
      assert (cs + [c])[0] == c;
    } else {
      assert (cs + [c])[1..] == cs[1..] + [c];
      AllTameSplit(Apply(v, cs[0]), cs[1..], c);
    }
  }

  /** No directory becomes a file, nor a file a directory, and the root is not moved. */
  ghost predicate KindsKept(s: Vfs, s2: Vfs) {
    forall id | id in s.nodes ::
      && id in s2.nodes && s2.nodes[id].isDir == s.nodes[id].isDir
      && (id == ROOT ==> s2.nodes[id].parent == s.nodes[id].parent)
  }

  ghost predicate StagedFiles(s: Vfs, staged: set<nat>) {
    forall id | id in staged :: id in s.nodes && !s.nodes[id].isDir
  }

  lemma CreateKinds(repo: Repo, s: Vfs, d: nat, n: Name)
    requires Inv(s) && GoodRepo(repo)
    ensures KindsKept(s, CreateFile(repo, s, d, n, RegularFile).0)
  {
    PopulateGrows(repo, s, d);
    assert Populate(repo, s, d).next !in Populate(repo, s, d).nodes;
  }

  lemma MkdirKinds(repo: Repo, s: Vfs, d: nat, n: Name)
    requires Inv(s) && GoodRepo(repo)
    ensures KindsKept(s, Mkdir(repo, s, d, n).0)
  {
    PopulateGrows(repo, s, d);
    assert Populate(repo, s, d).next !in Populate(repo, s, d).nodes;
  }

  lemma RemoveKinds(repo: Repo, s: Vfs, d: nat, n: Name)
    requires Inv(s) && GoodRepo(repo)
    ensures KindsKept(s, Remove(repo, s, d, n).0)
  {
    PopulateGrows(repo, s, d);
  }

  lemma RenameKinds(repo: Repo, s: Vfs, d: nat, n: Name, d2: nat, n2: Name)
    requires Inv(s) && GoodRepo(repo)
    ensures KindsKept(s, Rename(repo, s, d, n, d2, n2).0)
  {
    PopulateGrows(repo, s, d);
    var s1 := Populate(repo, s, d);
    PopulateGrows(repo, s1, d2);
    var s2 := Populate(repo, s1, d2);
    RemoveKinds(repo, s2, d2, n2);
    var s3 := Remove(repo, s2, d2, n2).0;
    if CanPopulate(s, d) && CanPopulate(s1, d2) && (d, n) in s2.childMap && s2.childMap[(d, n)] in s2.nodes {
      assert IsChild(s2, s2.childMap[(d, n)], d, n);
      RehangKinds(s3, s2.childMap[(d, n)], d, n, d2, n2);
    }
    assert KindsKept(s, s2) && KindsKept(s2, s3);
  }

  lemma RehangKinds(s: Vfs, id: nat, d: nat, n: Name, d2: nat, n2: Name)
    requires id in s.nodes && id != ROOT
    ensures KindsKept(s, Rehang(s, id, d, n, d2, n2))
  {
  }

  /** An inode more may be staged. */
  lemma StageGrounds(repo: Repo, s: Vfs, staged: set<nat>, id: nat)
    requires Grounded(repo, s, staged)
    ensures Grounded(repo, s, staged + {id})
  {
    forall c | c in s.nodes && c != ROOT ensures NodeGrounded(repo, s.nodes[c], c in staged + {id}) {
      assert NodeGrounded(repo, s.nodes[c], c in staged);
    }
  }

  /** A path to a file leads to no directory's inode. */
  lemma FileIsFile(repo: Repo, x: Stores, p: Path)
    requires StoresOk(x) && Walk(repo, x.vfs, p).At? && IsFile(Shows(repo, x), p)
    ensures var id := Walk(repo, x.vfs, p).id; GetNode(x.vfs, id).Some? && !x.vfs.nodes[id].isDir
  {
    WalkAt(repo, x.vfs, p);
    DirSeen(repo, x.vfs, x.staging.files, p);
  }

  lemma StagedStay(s: Vfs, s1: Vfs, staged: set<nat>, id: nat)
    requires StagedFiles(s, staged) && KindsKept(s, s1) && id in s1.nodes && !s1.nodes[id].isDir
    ensures StagedFiles(s1, staged + {id})
  {
  }

  lemma CreateTame(repo: Repo, x: Stores, p: Path)
    requires GroundedStores(repo, x) && PlainBase(repo) && Tame(Shows(repo, x), Create(p))
    ensures GroundedStores(repo, ReplayCreate(repo, x, Join(p), RegularFile).0)
  {
    var p0, n, staged := p[..|p| - 1], p[|p| - 1], x.staging.sizes.Keys;
    SplitLast(p);
    FindParent(repo, x, p);
    ParentGrounds(repo, x.vfs, p, staged);
    ReplayCreateShows(repo, x, p);
    var (s1, place) := EnsureParentDirs(repo, x.vfs, Join(p));
    var x1 := x.(vfs := s1);
    CreateGrounds(repo, s1, place.value.0, n, staged);
    CreateLeads(repo, x1, p0, n, RegularFile);
    CreateKinds(repo, s1, place.value.0, n);
    var (s2, id) := CreateFile(repo, s1, place.value.0, n, RegularFile);
    FileIsFile(repo, Stores(s2, StageNew(x.staging, id.value)), p);
    StagedStay(x.vfs, s2, staged, id.value);
    StageNewKeys(x.staging, id.value);
  }

  lemma MkdirTame(repo: Repo, x: Stores, p: Path)
    requires GroundedStores(repo, x) && PlainBase(repo) && Tame(Shows(repo, x), MakeDir(p))
    ensures GroundedStores(repo, ReplayMkdir(repo, x, Join(p)).0)
  {
    SplitLast(p);
    FindParent(repo, x, p);
    ParentGrounds(repo, x.vfs, p, x.staging.sizes.Keys);
    ReplayMkdirShows(repo, x, p);
    var (s1, place) := EnsureParentDirs(repo, x.vfs, Join(p));
    MkdirGrounds(repo, s1, place.value.0, place.value.1, x.staging.sizes.Keys);
    MkdirKinds(repo, s1, place.value.0, place.value.1);
  }

  /** The inode of a file that is seen can be staged. */
  lemma FoundTame(repo: Repo, x: Stores, p: Path)
    requires GroundedStores(repo, x) && PlainBase(repo) && GoodPath(p) && IsFile(Shows(repo, x), p)
    ensures
      var (s1, id) := LookupPath(repo, x.vfs, Join(p));
      && id.Some? && GetNode(s1, id.value).Some?
      && Grounded(repo, s1, x.staging.sizes.Keys + {id.value}) && StagedFiles(s1, x.staging.sizes.Keys + {id.value})
      && ROOT in s1.nodes && s1.nodes[ROOT].parent == ROOT
  {
    FindPath(repo, x, p);
    LookupPathGrounds(repo, x.vfs, Join(p), x.staging.sizes.Keys);
    var (s1, id) := LookupPath(repo, x.vfs, Join(p));
    FileIsFile(repo, x.(vfs := s1), p);
    StageGrounds(repo, s1, x.staging.sizes.Keys, id.value);
    StagedStay(x.vfs, s1, x.staging.sizes.Keys, id.value);
  }

  lemma WriteTame(repo: Repo, x: Stores, p: Path, offset: nat, data: bytes)
    requires GroundedStores(repo, x) && PlainBase(repo) && Tame(Shows(repo, x), Write(p, offset, data))
    ensures GroundedStores(repo, ReplayWrite(repo, x, Join(p), offset, data).0)
  {
    FoundTame(repo, x, p);
    ReplayWriteShows(repo, x, p, offset, data);
    var (s1, id) := LookupPath(repo, x.vfs, Join(p));
    var base := BaseData(repo, x.staging, id.value, s1.nodes[id.value].oid);
    assert WriteAt(x.staging, id.value, offset, data, base).sizes.Keys == x.staging.sizes.Keys + {id.value};
  }

  lemma TruncateTame(repo: Repo, x: Stores, p: Path, size: nat)
    requires GroundedStores(repo, x) && PlainBase(repo) && Tame(Shows(repo, x), Resize(p, size))
    ensures GroundedStores(repo, ReplayTruncate(repo, x, Join(p), size).0)
  {
    FoundTame(repo, x, p);
    ReplayTruncateShows(repo, x, p, size);
    var (s1, id) := LookupPath(repo, x.vfs, Join(p));
    var base := BaseData(repo, x.staging, id.value, s1.nodes[id.value].oid);
    assert Truncate(x.staging, id.value, size, base).sizes.Keys == x.staging.sizes.Keys + {id.value};
  }

  lemma RemoveTame(repo: Repo, x: Stores, p: Path)
    requires GroundedStores(repo, x) && PlainBase(repo) && Tame(Shows(repo, x), Delete(p))
    ensures GroundedStores(repo, ReplayRemove(repo, x, Join(p)))
  {
    var staged := x.staging.sizes.Keys;
    FindPath(repo, x, p);
    LookupPathGrounds(repo, x.vfs, Join(p), staged);
    var s1 := LookupPath(repo, x.vfs, Join(p)).0;
    var x1 := x.(vfs := s1);
    ParentIsSeen(repo, x1, p);
    FindParent(repo, x1, p);
    ParentGrounds(repo, s1, p, staged);
    var (s2, place) := EnsureParentDirs(repo, s1, Join(p));
    RemoveGrounds(repo, s2, place.value.0, place.value.1, staged);
    RemoveKinds(repo, s2, place.value.0, place.value.1);
    ReplayRemoveShows(repo, x, p);
  }

  /** The two parents of a rename are found, and nothing is made. */
  lemma BothGround(repo: Repo, x: Stores, p: Path, to: Path)
    requires GroundedStores(repo, x) && PlainBase(repo) && Tame(Shows(repo, x), Move(p, to))
    ensures
      var (s1, from) := EnsureParentDirs(repo, x.vfs, Join(p));
      var (s2, place) := EnsureParentDirs(repo, s1, Join(to));
      && from.Some? && place.Some? && PlainName(place.value.1) && Inv(s2)
      && Grounded(repo, s2, x.staging.sizes.Keys) && StagedFiles(s2, x.staging.sizes.Keys)
      && s2.nodes[ROOT].parent == ROOT
  {
    var staged := x.staging.sizes.Keys;
    ParentIsSeen(repo, x, p);
    FindParent(repo, x, p);
    ParentGrounds(repo, x.vfs, p, staged);
    var s1 := EnsureParentDirs(repo, x.vfs, Join(p)).0;
    FindParent(repo, x.(vfs := s1), to);
    ParentGrounds(repo, s1, to, staged);
  }

  lemma RenameTame(repo: Repo, x: Stores, p: Path, to: Path)
    requires GroundedStores(repo, x) && PlainBase(repo) && Tame(Shows(repo, x), Move(p, to))
    ensures GroundedStores(repo, x.(vfs := ReplayRename(repo, x.vfs, Join(p), Join(to))))
  {
    BothGround(repo, x, p, to);
    var (s1, from) := EnsureParentDirs(repo, x.vfs, Join(p));
    var (s2, place) := EnsureParentDirs(repo, s1, Join(to));
    RenameGrounds(repo, s2, from.value.0, from.value.1, place.value.0, place.value.1, x.staging.sizes.Keys);
    RenameKinds(repo, s2, from.value.0, from.value.1, place.value.0, place.value.1);
    ReplayRenameShows(repo, x, p, to);
  }

  lemma EntryTame(repo: Repo, x: Stores, number: nat, c: Change)
    requires GroundedStores(repo, x) && PlainBase(repo) && Tame(Shows(repo, x), c)
    ensures GroundedStores(repo, ReplayEntry(repo, x, WalEntry(number, Some(Printed(c)))).0)
  {
    EntryIsChange(repo, x, number, c);
    RecordedShows(repo, x, c);
    var y := RecordedStores(x, c);
    assert GroundedStores(repo, y);
    match c
    case Create(p) => CreateTame(repo, y, p);
    case MakeDir(p) => MkdirTame(repo, y, p);
    case Write(p, offset, data) => WriteTame(repo, y, p, offset, data);
    case Resize(p, size) => TruncateTame(repo, y, p, size);
    case Delete(p) => RemoveTame(repo, y, p);
    case Move(p, to) => RenameTame(repo, y, p, to);
  }

  /** After replaying a log of such changes, every inode has its origin. */
  lemma {:induction false} ReplayGrounds(repo: Repo, x: Stores, log: seq<WalEntry>, cs: seq<Change>)
    requires GroundedStores(repo, x) && PlainBase(repo) && Records(log, cs) && AllTame(Shows(repo, x), cs)
    ensures Replay(repo, x, log).1 && GroundedStores(repo, Replay(repo, x, log).0)
    decreases |log|
  {
    AllTameApplicable(Shows(repo, x), cs);
    ReplayShows(repo, x, log, cs);
    if log != [] {
      var front, last := log[..|log| - 1], log[|log| - 1];
      if last.payload.None? || last.payload.value.Header? {
        ReplayGrounds(repo, x, front, cs);
      } else {
        var cs0, c := cs[..|cs| - 1], cs[|cs| - 1];
        SplitLast(cs);
        AllTameSplit(Shows(repo, x), cs0, c);
        ReplayGrounds(repo, x, front, cs0);
        ReplayShows(repo, x, front, cs0);
        EntryTame(repo, Replay(repo, x, front).0, last.number, c);
      }
    }
  }

  lemma FreshGrounded(repo: Repo, root: Oid)
    ensures GroundedStores(repo, FreshStores(root))
  {
    FreshShows(repo, root);
  }

  /** Additions are tame, and what they leave is grounded. */
  lemma AccruedGrounded(repo: Repo, x: Stores)
    requires AccruedStores(repo, x)
    ensures GroundedStores(repo, x)
  {
    forall id | id in x.vfs.nodes && id != ROOT
      ensures NodeGrounded(repo, x.vfs.nodes[id], id in x.staging.sizes.Keys)
    {
      assert Origin(repo, x.vfs, x.staging.sizes.Keys, id);
    }
  }

  // ---- additions among them

  ghost predicate PlainView(v: View) {
    forall p | p in v :: PlainNames(p)
  }

  lemma {:induction false} BaseWalkPlain(repo: Repo, root: Oid, p: Path)
    requires PlainBase(repo) && BaseWalk(repo, root, p).Base?
    ensures PlainNames(p)
    decreases |p|
  {
    if p != [] {
      var p0, n := p[..|p| - 1], p[|p| - 1];
      BaseWalkPlain(repo, root, p0);
      var t := BaseWalk(repo, root, p0).oid;
      var e := FindEntry(EntriesOf(repo, t), n).value;
      assert e in repo.trees[t];
      assert forall m | m in p :: m in p0 || m == n;
    }
  }

  lemma BasePlain(repo: Repo, root: Oid)
    requires PlainBase(repo)
    ensures PlainView(BaseView(repo, root))
  {
    forall p | p in BaseView(repo, root) ensures PlainNames(p) { BaseWalkPlain(repo, root, p); }
  }

  lemma AddIsTame(v: View, c: Change)
    requires PlainView(v) && Adds(v, c)
    ensures Tame(v, c) && PlainView(Apply(v, c))
  {
    if c.Create? || c.MakeDir? {
      var p := c.path;
      assert forall m | m in p :: m in p[..|p| - 1] || m == p[|p| - 1];
    }
  }

  /** A log of additions is tame. */
  lemma {:induction false} AllAddTame(v: View, cs: seq<Change>)
    requires PlainView(v) && AllAdd(v, cs)
    ensures AllTame(v, cs)
    decreases |cs|
  {
    if cs != [] {
      AddIsTame(v, cs[0]);
      AllAddTame(Apply(v, cs[0]), cs[1..]);
    }
  }
}
