/** Calls on inodes that no path leads to any more (src/nfs/fs.rs). Removing a directory marks
    only its own inode (src/vfs/inode.rs, `remove`), so a file below it still takes writes, and a
    removed directory still takes new files. No reader sees them, but they are logged, and the
    replay puts them where their old path says. */
module StaleHandles {
  import opened Basics
  import opened Paths
  import opened GitData
  import opened Inodes
  import opened TreeView
  import opened VfsInvariant
  import opened Population
  import opened VfsChanges
  import opened VfsOperations
  import opened Staging
  import opened Wal
  import opened Recovery
  import opened StoreChanges
  import opened ReplayProofs
  import opened NfsServer
  import opened LiveRuns
  import opened Handles

  // ---- which inodes these are

  /** `id` and all its ancestors below the root, `k` inodes, are not deleted. */
  ghost predicate LiveUp(s: Vfs, id: nat, k: nat)
    decreases k
  {
    k == 0 || (id in s.nodes && !s.nodes[id].deleted && LiveUp(s, s.nodes[id].parent, k - 1))
  }

  /** Every inode, reachable or not, prints as the good path of the names above it. */
  lemma {:induction false} NamesAbove(s: Vfs, id: nat, k: nat) returns (q: Path)
    requires Inv(s) && AtDepth(s, id, k)
    ensures |q| == k && GoodPath(q) && Climbs(s, id, k) && NamesUp(s, id, k) == Some(q)
    decreases k
  {
    if k == 0 {
      q := [];
    } else {
      var above := NamesAbove(s, s.nodes[id].parent, k - 1);
      DepthUnique(s, id, k);
      q := above + [s.nodes[id].name];
      GoodSnoc(above, s.nodes[id].name);
    }
  }

  lemma Prints(s: Vfs, id: nat) returns (q: Path)
    requires Inv(s) && id in s.nodes
    ensures GoodPath(q) && AtDepth(s, id, |q|) && Climbs(s, id, |q|) && NamesUp(s, id, |q|) == Some(q)
    ensures GetPath(s, id) == Some(Join(q))
  {
    assert Rooted(s, id);
    var k: nat :| AtDepth(s, id, k);
    q := NamesAbove(s, id, k);
    forall j: nat | Climbs(s, id, j) ensures NamesUp(s, id, j) == Some(q) { NamesUpUnique(s, id, j, k); }
  }

  lemma {:induction false} LiveWalks(repo: Repo, s: Vfs, id: nat, k: nat, q: Path)
    requires Inv(s) && AtDepth(s, id, k) && LiveUp(s, id, k) && Climbs(s, id, k) && NamesUp(s, id, k) == Some(q)
    ensures Walk(repo, s, q) == At(id)
    decreases k
  {
    if k > 0 {
      DepthUnique(s, id, k);
      var d, above := s.nodes[id].parent, NamesUp(s, s.nodes[id].parent, k - 1).value;
      LiveWalks(repo, s, d, k - 1, above);
      WalkSnoc(repo, s, above, s.nodes[id].name);
      assert Live(s, id);
    }
  }

  lemma {:induction false} WalkLives(repo: Repo, s: Vfs, p: Path)
    requires Inv(s) && Walk(repo, s, p).At?
    ensures LiveUp(s, Walk(repo, s, p).id, |p|)
  {
    WalkAt(repo, s, p);
    if p != [] {
      WalkLives(repo, s, p[..|p| - 1]);
      assert (Walk(repo, s, p[..|p| - 1]).id, p[|p| - 1]) in s.childMap;
    }
  }

  /** A path leads to an inode exactly when neither it nor any inode above it is deleted. */
  lemma ReachableExactly(repo: Repo, s: Vfs, id: nat, k: nat)
    requires Inv(s) && AtDepth(s, id, k)
    ensures Reachable(repo, s, id) <==> LiveUp(s, id, k)
  {
    if p: Path :| Walk(repo, s, p) == At(id) {
      WalkAt(repo, s, p);
      DepthUnique(s, id, k);
      WalkLives(repo, s, p);
    }
    if LiveUp(s, id, k) {
      var q := NamesAbove(s, id, k);
      LiveWalks(repo, s, id, k, q);
    }
  }

  /** An inode's printed path is the one path that can lead to it. */
  lemma OnlyPrinted(repo: Repo, s: Vfs, id: nat, q: Path, p: Path)
    requires Inv(s) && Climbs(s, id, |q|) && NamesUp(s, id, |q|) == Some(q) && Walk(repo, s, p) == At(id)
    ensures p == q
  {
    NamesUpWalk(repo, s, p);
    NamesUpUnique(s, id, |q|, |p|);
  }

  // ---- removing a directory leaves such inodes

  lemma RemovedOne(repo: Repo, s: Vfs, p: Path, n: Name, q: Path)
    requires Inv(s) && GoodRepo(repo) && Walk(repo, s, p).At? && Walk(repo, s, q).At? && p + [n] <= q && p + [n] != q
    ensures
      var (s2, r) := Remove(repo, s, Walk(repo, s, p).id, n);
      var id := Walk(repo, s, q).id;
      && r.Some? && r.value != id && id in s.nodes && id in s2.nodes && s2.nodes[id] == s.nodes[id]
  {
    var d := Walk(repo, s, p).id;
    var s1 := Populate(repo, s, d);
    WalkPrefix(repo, s, p + [n], q);
    WalkAt(repo, s, p + [n]);
    WalkAt(repo, s, q);
    WalkSnoc(repo, s, p, n);
    assert (d, n) in s.childMap && d in s.dirChildren && s1 == s;
    if Walk(repo, s, p + [n]) == Walk(repo, s, q) { WalkUnique(repo, s, p + [n], q); }
  }

  /** An inode prints the same after a change that moves no node. */
  lemma PrintsStill(s: Vfs, s2: Vfs, id: nat, q: Path)
    requires KeepsNames(s, s2) && AtDepth(s, id, |q|) && Climbs(s, id, |q|) && NamesUp(s, id, |q|) == Some(q)
    ensures Climbs(s2, id, |q|) && NamesUp(s2, id, |q|) == Some(q) && GetPath(s2, id) == Some(Join(q))
  {
    NamesKept(s, s2, id, |q|);
    forall j: nat | Climbs(s2, id, j) ensures NamesUp(s2, id, j) == Some(q) { NamesUpUnique(s2, id, j, |q|); }
  }

  lemma RemovedUnreachable(repo: Repo, x: Stores, p: Path, n: Name, q: Path)
    requires StoresOk(x) && GoodRepo(repo) && Walk(repo, x.vfs, p).At? && Walk(repo, x.vfs, q).At? && p + [n] <= q
    ensures
      var s2 := Remove(repo, x.vfs, Walk(repo, x.vfs, p).id, n).0;
      var id := Walk(repo, x.vfs, q).id;
      !Reachable(repo, s2, id) && GetPath(s2, id) == Some(Join(q))
  {
    var d, id := Walk(repo, x.vfs, p).id, Walk(repo, x.vfs, q).id;
    var s2 := Remove(repo, x.vfs, d, n).0;
    RemoveShows(repo, x, p, n);
    RemoveKeepsNames(repo, x.vfs, d, n);
    NamesUpWalk(repo, x.vfs, q);
    WalkAt(repo, x.vfs, q);
    PrintsStill(x.vfs, s2, id, q);
    GoneUnseen(repo, x.(vfs := s2), q);
    if p2: Path :| Walk(repo, s2, p2) == At(id) { OnlyPrinted(repo, s2, id, q, p2); }
  }

  /** A file below a removed directory is still a live inode, prints as before, and no path
      leads to it. */
  lemma RemoveLeavesStale(repo: Repo, f: Server, p: Path, n: Name, q: Path)
    requires StoresOk(StoresOf(f)) && GoodRepo(repo) && Walk(repo, f.vfs, p).At? && Walk(repo, f.vfs, q).At?
    requires p + [n] <= q && p + [n] != q && IsFile(ServerShows(repo, f), q)
    ensures
      var (f2, r) := NfsRemove(repo, f, Walk(repo, f.vfs, p).id, n);
      var id := Walk(repo, f.vfs, q).id;
      && r.None? && StoresOk(StoresOf(f2))
      && FileStat(f2, id).None? && !Reachable(repo, f2.vfs, id) && GetPath(f2.vfs, id) == Some(Join(q))
  {
    RemovedOne(repo, f.vfs, p, n, q);
    FileStatSeen(repo, f, q);
    RemoveMakes(repo, f, p, n);
    RemovedUnreachable(repo, StoresOf(f), p, n, q);
  }

  // ---- writing to one

  /** Content staged for an inode that no path leads to is not seen. */
  lemma StaleUnseen(repo: Repo, x: Stores, id: nat, content: bytes, st: Staging)
    requires StoresOk(x) && id in x.vfs.nodes && !Reachable(repo, x.vfs, id)
    requires st == x.staging.(files := x.staging.files[id := content], sizes := x.staging.sizes[id := |content|])
    ensures StoresOk(x.(staging := st)) && Shows(repo, x.(staging := st)) == Shows(repo, x)
  {
    StagedOk(x, id, content, st);
    forall p: Path ensures Seen(repo, x.vfs, st.files, p) == Seen(repo, x.vfs, x.staging.files, p) {
      assert Walk(repo, x.vfs, p) != At(id);
    }
  }

  /** The write is accepted and logged under the old path, and nothing that is seen changes. */
  lemma StaleWrite(repo: Repo, f: Server, id: nat, offset: nat, data: bytes) returns (q: Path)
    requires StoresOk(StoresOf(f)) && FileStat(f, id).None? && !Reachable(repo, f.vfs, id)
    ensures GoodPath(q) && q != [] && GetPath(f.vfs, id) == Some(Join(q))
    ensures
      var (f2, r) := NfsWrite(repo, f, id, offset, data);
      && r.None? && StoresOk(StoresOf(f2)) && ServerShows(repo, f2) == ServerShows(repo, f)
      && f2.log == f.log + [WalEntry(f.nextEntry, Some(Printed(Write(q, offset, data))))]
  {
    q := Prints(f.vfs, id);
    assert Walk(repo, f.vfs, []) == At(ROOT);
    var base := BaseData(repo, f.staging, id, f.vfs.nodes[id].oid);
    var st := WriteAt(f.staging, id, offset, data, base);
    StaleUnseen(repo, StoresOf(f), id, Overwrite(StartFrom(f.staging, id, base), offset, data), st);
    RecordShows(repo, Stores(f.vfs, st), Join(q));
  }

  // ---- what a replay makes of a path whose directories are gone

  /** `ensure_parent_dirs` makes what is missing, and ends where the path leads. */
  lemma {:induction false} EnsureDirsLeads(repo: Repo, x: Stores, p: Path, q: Path)
    requires StoresOk(x) && GoodRepo(repo) && Walk(repo, x.vfs, p).At? && GoodPath(q)
    ensures
      var (s2, r) := EnsureDirs(repo, x.vfs, Walk(repo, x.vfs, p).id, q);
      r.Some? ==> StoresOk(x.(vfs := s2)) && Walk(repo, s2, p + q) == At(r.value)
    decreases |q|
  {
    if q == [] {
      assert p + q == p;
    } else {
      var n, rest := q[0], q[1..];
      GoodTail(q);
      assert p + q == (p + [n]) + rest;
      var d := Walk(repo, x.vfs, p).id;
      LookupFinds(repo, x.vfs, p, n);
      var (s1, child) := Lookup(repo, x.vfs, d, n);
      GrownStores(repo, x, s1);
      if child.Some? {
        EnsureDirsLeads(repo, x.(vfs := s1), p + [n], rest);
      } else {
        GrownAt(repo, x.vfs, s1, p);
        GoneUnseen(repo, x, p + [n]);
        MkdirLeads(repo, x.(vfs := s1), p, n);
        var (s2, made) := Mkdir(repo, s1, d, n);
        if made.Some? { EnsureDirsLeads(repo, x.(vfs := s2), p + [n], rest); }
      }
    }
  }

  /** A replayed create that succeeds leaves a file or directory at its path, and returns it. */
  lemma ReplayedCreateIsSeen(repo: Repo, x: Stores, q: Path)
    requires StoresOk(x) && GoodRepo(repo) && GoodPath(q) && q != []
    ensures
      var (x2, id) := ReplayCreate(repo, x, Join(q), RegularFile);
      id.Some? ==> StoresOk(x2) && q in Shows(repo, x2) && Walk(repo, x2.vfs, q) == At(id.value)
  {
    var q0, n := q[..|q| - 1], q[|q| - 1];
    SplitLast(q);
    GoodSnoc(q0, n);
    ParseJoin(q);
    assert [] + q0 == q0;
    EnsureDirsLeads(repo, x, [], q0);
    var (s1, dir) := EnsureDirs(repo, x.vfs, ROOT, q0);
    if dir.Some? {
      CreateShows(repo, x.(vfs := s1), q0, n);
      CreateLeads(repo, x.(vfs := s1), q0, n, RegularFile);
    }
  }

  // ---- when the replay agrees

  /** Writing at `q` leaves the tree as it is. */
  ghost predicate WriteLeaves(v: View, q: Path, offset: nat, data: bytes) {
    q in v && (v[q].File? ==> v[q].content == Some(Overwrite(v[q].content.GetOr([]), offset, data)))
  }

  ghost predicate Agrees(repo: Repo, r: (Stores, bool), v: View) {
    r.1 && Shows(repo, r.0) == v
  }

  /** A replayed write to a directory is staged, and not seen. */
  lemma DirectoryWrite(repo: Repo, x: Stores, q: Path, offset: nat, data: bytes)
    requires StoresOk(x) && GoodRepo(repo) && GoodPath(q) && IsDir(Shows(repo, x), q)
    ensures Agrees(repo, ReplayWrite(repo, x, Join(q), offset, data), Shows(repo, x))
  {
    FindPath(repo, x, q);
    var s1 := LookupPath(repo, x.vfs, Join(q)).0;
    var x1, id := x.(vfs := s1), Walk(repo, s1, q).id;
    WalkAt(repo, s1, q);
    var base := BaseData(repo, x.staging, id, s1.nodes[id].oid);
    InvOnlyPath(repo, s1, q);
    StageView(repo, s1, x.staging.files, q, Overwrite(StartFrom(x.staging, id, base), offset, data));
    DirSeen(repo, s1, x.staging.files, q);
  }

  lemma MissingWrite(repo: Repo, x: Stores, q: Path, offset: nat, data: bytes)
    requires StoresOk(x) && GoodRepo(repo) && GoodPath(q) && q != [] && q !in Shows(repo, x)
    ensures !Agrees(repo, ReplayWrite(repo, x, Join(q), offset, data), Shows(repo, x))
  {
    GoneUnseen(repo, x, q);
    LookupPathFinds(repo, x.vfs, q);
    var x1 := x.(vfs := LookupPath(repo, x.vfs, Join(q)).0);
    GrownStores(repo, x, x1.vfs);
    ReplayedCreateIsSeen(repo, x1, q);
    var (x2, id) := ReplayCreate(repo, x1, Join(q), RegularFile);
    var r := ReplayWrite(repo, x, Join(q), offset, data);
    if id.Some? && r.1 {
      WalkAt(repo, x2.vfs, q);
      GoneUnseen(repo, x2, q);
      GoneUnseen(repo, r.0, q);
    }
  }

  /** From any stores that show `v`, replaying a write to a path agrees with leaving `v` alone
      exactly when it writes nothing new there. */
  lemma ReplayedWriteLeaves(repo: Repo, x: Stores, q: Path, offset: nat, data: bytes)
    requires StoresOk(x) && GoodRepo(repo) && GoodPath(q) && q != []
    ensures Agrees(repo, ReplayWrite(repo, x, Join(q), offset, data), Shows(repo, x)) <==>
      WriteLeaves(Shows(repo, x), q, offset, data)
  {
    var v := Shows(repo, x);
    if q !in v {
      MissingWrite(repo, x, q, offset, data);
    } else if v[q].Dir? {
      DirectoryWrite(repo, x, q, offset, data);
    } else {
      ReplayWriteShows(repo, x, q, offset, data);
      var content := Overwrite(v[q].content.GetOr([]), offset, data);
      assert Put(v, q, content)[q] == File(v[q].mode, Some(content));
    }
  }

  /** A write to any live file: from stores that show what the server showed, replaying its entry
      shows what the server then shows exactly when a path leads to the file, or when writing at
      its old path changes nothing. */
  lemma WriteReplays(repo: Repo, f: Server, id: nat, offset: nat, data: bytes, x: Stores) returns (q: Path)
    requires StoresOk(StoresOf(f)) && GoodRepo(repo) && FileStat(f, id).None?
    requires StoresOk(x) && Shows(repo, x) == ServerShows(repo, f)
    ensures GoodPath(q) && GetPath(f.vfs, id) == Some(Join(q))
    ensures
      var f2 := NfsWrite(repo, f, id, offset, data).0;
      && f2.log == f.log + [WalEntry(f.nextEntry, Some(Printed(Write(q, offset, data))))]
      && (Agrees(repo, ReplayEntry(repo, x, f2.log[|f.log|]), ServerShows(repo, f2)) <==>
          Reachable(repo, f.vfs, id) || WriteLeaves(ServerShows(repo, f), q, offset, data))
  {
    if q0: Path :| Walk(repo, f.vfs, q0) == At(id) {
      q := q0;
      WriteMakes(repo, f, q, offset, data);
      FileStatSeen(repo, f, q);
      GetPathPrints(repo, f.vfs, q);
      WalkGood(repo, f.vfs, q);
      ReplayEntryMakes(repo, x, f.nextEntry, Write(q, offset, data));
    } else {
      q := StaleWrite(repo, f, id, offset, data);
      EntryIsChange(repo, x, f.nextEntry, Write(q, offset, data));
      RecordedShows(repo, x, Write(q, offset, data));
      ReplayedWriteLeaves(repo, RecordedStores(x, Write(q, offset, data)), q, offset, data);
    }
  }

  // ---- creating in one

  lemma GrownUnreachable(repo: Repo, s: Vfs, s1: Vfs, d: nat)
    requires Grown(repo, s, s1) && d < s.next && !Reachable(repo, s, d)
    ensures !Reachable(repo, s1, d)
  {
    forall p: Path ensures Walk(repo, s1, p) != At(d) {
      assert SameAt(repo, s, s1, p);
      assert Walk(repo, s, p) != At(d);
    }
  }

  /** What hangs below an inode that no path leads to is no more reachable. */
  lemma ChildUnreachable(repo: Repo, s: Vfs, d: nat, n: Name)
    requires Inv(s) && !Reachable(repo, s, d) && (d, n) in s.childMap
    ensures !Reachable(repo, s, s.childMap[(d, n)])
  {
    var c := s.childMap[(d, n)];
    assert IsChild(s, c, d, n);
    forall p: Path ensures Walk(repo, s, p) != At(c) {
      if p != [] && Walk(repo, s, p).At? {
        var above := Walk(repo, s, p[..|p| - 1]);
        assert above != At(d);
        assert (above.id, p[|p| - 1]) in s.childMap && IsChild(s, Walk(repo, s, p).id, above.id, p[|p| - 1]);
      }
    }
  }

  /** A new link under such an inode leads nobody anywhere. */
  lemma {:induction false} UnreachedLink(repo: Repo, s: Vfs, s2: Vfs, node: Node, p: Path)
    requires Inv(s) && Linked(s, s2, node) && !Reachable(repo, s, node.parent)
    ensures Walk(repo, s2, p) == Walk(repo, s, p) && Walk(repo, s2, p) != At(s.next)
    decreases |p|
  {
    assert s.next !in s.nodes;
    if p != [] {
      var p0 := p[..|p| - 1];
      UnreachedLink(repo, s, s2, node, p0);
      LinkedChildren(repo, s, s2, node);
      assert Walk(repo, s, p0) != At(node.parent);
      if Walk(repo, s, p).At? { WalkAt(repo, s, p); }
    } else {
      WalkAt(repo, s, p);
    }
  }

  lemma UnreachedLinkShows(repo: Repo, x: Stores, s2: Vfs, node: Node)
    requires StoresOk(x) && Linked(x.vfs, s2, node) && !Reachable(repo, x.vfs, node.parent)
    ensures Shows(repo, Stores(s2, StageNew(x.staging, x.vfs.next))) == Shows(repo, x)
  {
    var files2 := StageNew(x.staging, x.vfs.next).files;
    forall p: Path ensures Seen(repo, s2, files2, p) == Seen(repo, x.vfs, x.staging.files, p) {
      UnreachedLink(repo, x.vfs, s2, node, p);
      if Walk(repo, x.vfs, p).At? { WalkAt(repo, x.vfs, p); }
    }
  }

  /** In a populated directory that no path leads to. */
  lemma UnreachedCreate(repo: Repo, x: Stores, d: nat, n: Name)
    requires StoresOk(x) && d in x.vfs.dirChildren && !Reachable(repo, x.vfs, d) && GoodName(n)
    ensures
      var (s2, r) := CreateFile(repo, x.vfs, d, n, RegularFile);
      && r.Some? && Inv(s2) && r.value < s2.next && x.vfs.next <= s2.next
      && Shows(repo, Stores(s2, StageNew(x.staging, r.value))) == Shows(repo, x)
  {
    if (d, n) in x.vfs.childMap {
      var c := x.vfs.childMap[(d, n)];
      assert IsChild(x.vfs, c, d, n);
      assert x.vfs.(nodes := x.vfs.nodes[c := x.vfs.nodes[c].(deleted := false)]) == x.vfs;
      ChildUnreachable(repo, x.vfs, d, n);
      StaleUnseen(repo, x, c, [], StageNew(x.staging, c));
    } else {
      var node := Node(d, n, [], RegularFile, false, false);
      assert Linked(x.vfs, Link(x.vfs, node), node);
      LinkedInv(x.vfs, Link(x.vfs, node), node);
      UnreachedLinkShows(repo, x, Link(x.vfs, node), node);
    }
  }

  lemma CreateLogs(repo: Repo, f: Server, d: nat, n: Name, path: bytes)
    requires CreateFile(repo, f.vfs, d, n, RegularFile).1.Some?
    requires ChildPath(CreateFile(repo, f.vfs, d, n, RegularFile).0, d, n) == path
    ensures
      var (s2, id) := CreateFile(repo, f.vfs, d, n, RegularFile);
      var (f2, r) := NfsCreate(repo, f, d, n);
      && r.Ok? && StoresOf(f2) == Stores(s2, Record(StageNew(f.staging, id.value), path))
      && f2.log == f.log + [WalEntry(f.nextEntry, Some(CreateEntry(path, FileInode)))]
  {
  }

  lemma StaleCreateShows(repo: Repo, x: Stores, d: nat, n: Name)
    requires StoresOk(x) && GoodRepo(repo) && CanPopulate(x.vfs, d) && GoodName(n) && !Reachable(repo, x.vfs, d)
    ensures
      var (s2, r) := CreateFile(repo, x.vfs, d, n, RegularFile);
      && r.Some? && StoresOk(Stores(s2, StageNew(x.staging, r.value)))
      && Shows(repo, Stores(s2, StageNew(x.staging, r.value))) == Shows(repo, x)
  {
    var s1 := Populate(repo, x.vfs, d);
    PopulateGrows(repo, x.vfs, d);
    GrownStores(repo, x, s1);
    GrownUnreachable(repo, x.vfs, s1, d);
    UnreachedCreate(repo, Stores(s1, x.staging), d, n);
    CreatePopulated(repo, x.vfs, d, n, RegularFile);
    CreateKeepsDeleted(repo, x.vfs, d, n, RegularFile);
    var (s2, r) := CreateFile(repo, x.vfs, d, n, RegularFile);
    NewlyStaged(x, s2, r.value);
  }

  /** The create is accepted and logged under the old path, and nothing that is seen changes. */
  lemma StaleCreate(repo: Repo, f: Server, d: nat, n: Name) returns (q: Path)
    requires StoresOk(StoresOf(f)) && GoodRepo(repo) && CanPopulate(f.vfs, d) && GoodName(n)
    requires !Reachable(repo, f.vfs, d)
    ensures GoodPath(q) && GetPath(f.vfs, d) == Some(Join(q))
    ensures
      var (f2, r) := NfsCreate(repo, f, d, n);
      && r.Ok? && StoresOk(StoresOf(f2)) && ServerShows(repo, f2) == ServerShows(repo, f)
      && f2.log == f.log + [WalEntry(f.nextEntry, Some(Printed(Create(q + [n]))))]
  {
    q := Prints(f.vfs, d);
    StaleCreateShows(repo, StoresOf(f), d, n);
    CreateKeepsNames(repo, f.vfs, d, n, RegularFile);
    var (s2, r) := CreateFile(repo, f.vfs, d, n, RegularFile);
    PrintsStill(f.vfs, s2, d, q);
    JoinUnder(q, n);
    CreateLogs(repo, f, d, n, Join(q + [n]));
    RecordShows(repo, Stores(s2, StageNew(f.staging, r.value)), Join(q + [n]));
  }

  /** Creating at `t` leaves the tree as it is. */
  ghost predicate CreateLeaves(v: View, t: Path) {
    t in v && (v[t].File? ==> v[t].content == Some([]))
  }

  /** What a seen path hangs from is a directory. */
  lemma ParentIsDir(repo: Repo, x: Stores, t: Path)
    requires StoresOk(x) && GoodRepo(repo) && t in Shows(repo, x) && t != []
    ensures HasPlace(Shows(repo, x), t)
  {
    var p := t[..|t| - 1];
    GoneUnseen(repo, x, t);
    GoneUnseen(repo, x, p);
    WalkGood(repo, x.vfs, t);
    assert Walk(repo, x.vfs, t) == Child(repo, x.vfs, Walk(repo, x.vfs, p), t[|t| - 1]);
    if Walk(repo, x.vfs, p).At? { WalkAt(repo, x.vfs, p); }
    assert Seen(repo, x.vfs, x.staging.files, p).Some?;
  }

  lemma CreatedSame(v: View, t: Path)
    requires t in v
    ensures Created(v, t) == v <==> CreateLeaves(v, t)
  {
    if v[t].File? { assert Created(v, t)[t] == File(v[t].mode, Some([])); }
  }

  lemma ReplayedCreateLeaves(repo: Repo, x: Stores, t: Path)
    requires StoresOk(x) && GoodRepo(repo) && GoodPath(t) && t != []
    ensures
      var (x2, id) := ReplayCreate(repo, x, Join(t), RegularFile);
      Agrees(repo, (x2, id.Some?), Shows(repo, x)) <==> CreateLeaves(Shows(repo, x), t)
  {
    if t in Shows(repo, x) {
      ParentIsDir(repo, x, t);
      ReplayCreateShows(repo, x, t);
      CreatedSame(Shows(repo, x), t);
    } else {
      ReplayedCreateIsSeen(repo, x, t);
    }
  }

  /** A create in any directory inode, removed or not: from stores that show what the server
      showed, replaying its entry shows what the server then shows exactly when a path leads to
      the directory, or when creating at the logged path changes nothing. It answers with the
      live inode of that parent and name. */
  lemma CreateReplays(repo: Repo, f: Server, d: nat, n: Name, x: Stores) returns (q: Path)
    requires StoresOk(StoresOf(f)) && GoodRepo(repo) && CanPopulate(f.vfs, d) && GoodName(n)
    requires StoresOk(x) && Shows(repo, x) == ServerShows(repo, f)
    ensures GoodPath(q) && GetPath(f.vfs, d) == Some(Join(q))
    ensures
      var (f2, r) := NfsCreate(repo, f, d, n);
      && r.Ok? && IsChild(f2.vfs, r.value, d, n)
      && f2.log == f.log + [WalEntry(f.nextEntry, Some(Printed(Create(q + [n]))))]
      && (Agrees(repo, ReplayEntry(repo, x, f2.log[|f.log|]), ServerShows(repo, f2)) <==>
          Reachable(repo, f.vfs, d) || CreateLeaves(ServerShows(repo, f), q + [n]))
  {
    CreateReturns(repo, f, d, n);
    if q0: Path :| Walk(repo, f.vfs, q0) == At(d) {
      q := q0;
      DirSeen(repo, f.vfs, f.staging.files, q);
      CreateMakes(repo, f, q, n);
      GetPathPrints(repo, f.vfs, q);
      WalkGood(repo, f.vfs, q);
      ReplayEntryMakes(repo, x, f.nextEntry, Create(q + [n]));
    } else {
      q := StaleCreate(repo, f, d, n);
      GoodSnoc(q, n);
      EntryIsChange(repo, x, f.nextEntry, Create(q + [n]));
      RecordedShows(repo, x, Create(q + [n]));
      ReplayedCreateLeaves(repo, RecordedStores(x, Create(q + [n])), q + [n]);
    }
  }
}
