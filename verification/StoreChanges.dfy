/** Inode graph and staging store together: each pair of updates that the NFS layer and the
    replay make in common is one change of the tree of paths. */
module StoreChanges {
  import opened Basics
  import opened Paths
  import opened GitData
  import opened Inodes
  import opened TreeView
  import opened VfsInvariant
  import opened Population
  import opened VfsChanges
  import opened VfsOperations
  import opened Staging
  import opened Recovery

  /** What both the live server and a replay keep true of their two stores. */
  ghost predicate StoresOk(x: Stores) {
    && Inv(x.vfs)
    && StagingOk(x.staging)
    && OldIds(x.vfs, x.staging.files)
    && forall id | id in x.staging.deleted :: id in x.vfs.nodes && x.vfs.nodes[id].deleted
  }

  /** The tree of paths a pair of stores shows. */
  ghost function Shows(repo: Repo, x: Stores): View {
    ViewOf(repo, x.vfs, x.staging.files)
  }

  lemma FreshShows(repo: Repo, root: Oid)
    ensures StoresOk(FreshStores(root)) && Shows(repo, FreshStores(root)) == BaseView(repo, root)
  {
    FreshInv(root);
    FreshView(repo, root);
  }

  /** Deleted inodes stay deleted. */
  ghost predicate KeepsDeleted(s: Vfs, s2: Vfs) {
    forall id | id in s.nodes && s.nodes[id].deleted :: id in s2.nodes && s2.nodes[id].deleted
  }

  lemma GrownStores(repo: Repo, x: Stores, s2: Vfs)
    requires StoresOk(x) && Inv(s2) && Grown(repo, x.vfs, s2)
    ensures StoresOk(x.(vfs := s2)) && Shows(repo, x.(vfs := s2)) == Shows(repo, x)
  {
    GrownView(repo, x.vfs, s2, x.staging.files);
  }

  // ---- contents

  /** A write starts from what a reader sees. */
  lemma StartSeen(repo: Repo, x: Stores, p: Path)
    requires StoresOk(x) && Walk(repo, x.vfs, p).At? && IsFile(Shows(repo, x), p)
    ensures var id := Walk(repo, x.vfs, p).id;
      && id in x.vfs.nodes && !x.vfs.nodes[id].isDir
      && StartFrom(x.staging, id, BaseData(repo, x.staging, id, x.vfs.nodes[id].oid))
         == Shows(repo, x)[p].content.GetOr([])
      && Shows(repo, x)[p].mode == x.vfs.nodes[id].mode
  {
    DirSeen(repo, x.vfs, x.staging.files, p);
    WalkAt(repo, x.vfs, p);
  }

  /** Staging content for a file that is seen at `p`. */
  lemma StagedShows(repo: Repo, x: Stores, p: Path, content: bytes, st: Staging)
    requires StoresOk(x) && Walk(repo, x.vfs, p).At? && IsFile(Shows(repo, x), p)
    requires var id := Walk(repo, x.vfs, p).id;
      st == x.staging.(files := x.staging.files[id := content], sizes := x.staging.sizes[id := |content|])
    ensures StoresOk(x.(staging := st))
    ensures Shows(repo, x.(staging := st)) == Put(Shows(repo, x), p, content)
  {
    StartSeen(repo, x, p);
    WalkAt(repo, x.vfs, p);
    StagedOk(x, Walk(repo, x.vfs, p).id, content, st);
    InvOnlyPath(repo, x.vfs, p);
    StageView(repo, x.vfs, x.staging.files, p, content);
  }

  lemma StagedOk(x: Stores, id: nat, content: bytes, st: Staging)
    requires StoresOk(x) && id in x.vfs.nodes
    requires st == x.staging.(files := x.staging.files[id := content], sizes := x.staging.sizes[id := |content|])
    ensures StoresOk(x.(staging := st))
  {
  }

  lemma WriteShows(repo: Repo, x: Stores, p: Path, offset: nat, data: bytes)
    requires StoresOk(x) && Walk(repo, x.vfs, p).At? && IsFile(Shows(repo, x), p)
    ensures var id := Walk(repo, x.vfs, p).id; var v := Shows(repo, x);
      && id in x.vfs.nodes
      && var base := BaseData(repo, x.staging, id, x.vfs.nodes[id].oid);
        var x2 := x.(staging := WriteAt(x.staging, id, offset, data, base));
        StoresOk(x2) && Shows(repo, x2) == Put(v, p, Overwrite(v[p].content.GetOr([]), offset, data))
  {
    StartSeen(repo, x, p);
    var id := Walk(repo, x.vfs, p).id;
    var base := BaseData(repo, x.staging, id, x.vfs.nodes[id].oid);
    StagedShows(repo, x, p, Overwrite(Shows(repo, x)[p].content.GetOr([]), offset, data),
                WriteAt(x.staging, id, offset, data, base));
  }

  lemma TruncateShows(repo: Repo, x: Stores, p: Path, size: nat)
    requires StoresOk(x) && Walk(repo, x.vfs, p).At? && IsFile(Shows(repo, x), p)
    ensures var id := Walk(repo, x.vfs, p).id; var v := Shows(repo, x);
      && id in x.vfs.nodes
      && var base := BaseData(repo, x.staging, id, x.vfs.nodes[id].oid);
        var x2 := x.(staging := Truncate(x.staging, id, size, base));
        StoresOk(x2) && Shows(repo, x2) == Put(v, p, Resized(v[p].content.GetOr([]), size))
  {
    StartSeen(repo, x, p);
    var id := Walk(repo, x.vfs, p).id;
    var base := BaseData(repo, x.staging, id, x.vfs.nodes[id].oid);
    StagedShows(repo, x, p, Resized(Shows(repo, x)[p].content.GetOr([]), size),
                Truncate(x.staging, id, size, base));
  }

  // ---- structure

  lemma CreateKeepsDeleted(repo: Repo, s: Vfs, d: nat, n: Name, mode: TreeEntryMode)
    requires Inv(s) && GoodRepo(repo)
    ensures KeepsDeleted(s, CreateFile(repo, s, d, n, mode).0)
  {
    PopulateGrows(repo, s, d);
    var s1 := Populate(repo, s, d);
    if (d, n) in s1.childMap { assert IsChild(s1, s1.childMap[(d, n)], d, n); }
    assert s1.next !in s1.nodes;
  }

  lemma MkdirKeepsDeleted(repo: Repo, s: Vfs, d: nat, n: Name)
    requires Inv(s) && GoodRepo(repo)
    ensures KeepsDeleted(s, Mkdir(repo, s, d, n).0)
  {
    PopulateGrows(repo, s, d);
    assert Populate(repo, s, d).next !in Populate(repo, s, d).nodes;
  }

  lemma RemoveKeepsDeleted(repo: Repo, s: Vfs, d: nat, n: Name)
    requires Inv(s) && GoodRepo(repo)
    ensures KeepsDeleted(s, Remove(repo, s, d, n).0)
  {
    PopulateGrows(repo, s, d);
  }

  lemma RehangKeepsDeleted(s: Vfs, id: nat, d: nat, n: Name, d2: nat, n2: Name)
    requires id in s.nodes
    ensures KeepsDeleted(s, Rehang(s, id, d, n, d2, n2))
  {
  }

  lemma RenameKeepsDeleted(repo: Repo, s: Vfs, d: nat, n: Name, d2: nat, n2: Name)
    requires Inv(s) && GoodRepo(repo)
    ensures KeepsDeleted(s, Rename(repo, s, d, n, d2, n2).0)
  {
    var s1 := Populate(repo, s, d);
    PopulateGrows(repo, s, d);
    PopulateGrows(repo, s1, d2);
    var s2 := Populate(repo, s1, d2);
    RemoveKeepsDeleted(repo, s2, d2, n2);
    var s3 := Remove(repo, s2, d2, n2).0;
    if CanPopulate(s, d) && CanPopulate(s1, d2) && (d, n) in s2.childMap && s2.childMap[(d, n)] in s2.nodes {
      RehangKeepsDeleted(s3, s2.childMap[(d, n)], d, n, d2, n2);
      assert Rename(repo, s, d, n, d2, n2).0 == Rehang(s3, s2.childMap[(d, n)], d, n, d2, n2);
    }
    assert KeepsDeleted(s, s2) && KeepsDeleted(s2, s3);
  }

  lemma NewlyStaged(x: Stores, s2: Vfs, id: nat)
    requires StoresOk(x) && Inv(s2) && KeepsDeleted(x.vfs, s2) && x.vfs.next <= s2.next && id < s2.next
    ensures StoresOk(Stores(s2, StageNew(x.staging, id)))
  {
  }

  lemma CreateShows(repo: Repo, x: Stores, p: Path, n: Name)
    requires StoresOk(x) && GoodRepo(repo) && Walk(repo, x.vfs, p).At? && GoodName(n)
    ensures var (s2, r) := CreateFile(repo, x.vfs, Walk(repo, x.vfs, p).id, n, RegularFile);
      && (r.Some? <==> IsDir(Shows(repo, x), p))
      && (r.None? ==> s2 == x.vfs)
      && (r.Some? ==> var x2 := Stores(s2, StageNew(x.staging, r.value));
            StoresOk(x2) && Shows(repo, x2) == Created(Shows(repo, x), p + [n]))
  {
    var (s2, r) := CreateFile(repo, x.vfs, Walk(repo, x.vfs, p).id, n, RegularFile);
    CreateChanges(repo, x.vfs, x.staging.files, p, n);
    CreateKeepsDeleted(repo, x.vfs, Walk(repo, x.vfs, p).id, n, RegularFile);
    if r.Some? { NewlyStaged(x, s2, r.value); }
  }

  lemma MkdirShows(repo: Repo, x: Stores, p: Path, n: Name)
    requires StoresOk(x) && GoodRepo(repo) && Walk(repo, x.vfs, p).At? && GoodName(n)
    requires p + [n] !in Shows(repo, x)
    ensures var (s2, r) := Mkdir(repo, x.vfs, Walk(repo, x.vfs, p).id, n);
      && (r.Some? <==> IsDir(Shows(repo, x), p))
      && (r.None? ==> s2 == x.vfs)
      && (r.Some? ==> StoresOk(x.(vfs := s2)) && Shows(repo, x.(vfs := s2)) == Shows(repo, x)[p + [n] := Dir])
  {
    GoneUnseen(repo, x, p + [n]);
    MkdirChanges(repo, x.vfs, x.staging.files, p, n);
    MkdirKeepsDeleted(repo, x.vfs, Walk(repo, x.vfs, p).id, n);
  }

  /** A path is seen exactly when it leads somewhere. */
  lemma GoneUnseen(repo: Repo, x: Stores, p: Path)
    requires Inv(x.vfs)
    ensures p in Shows(repo, x) <==> !Walk(repo, x.vfs, p).Gone?
  {
    if Walk(repo, x.vfs, p).At? { WalkAt(repo, x.vfs, p); }
    assert p in Shows(repo, x) <==> Seen(repo, x.vfs, x.staging.files, p).Some?;
  }

  lemma RemoveShows(repo: Repo, x: Stores, p: Path, n: Name)
    requires StoresOk(x) && GoodRepo(repo) && Walk(repo, x.vfs, p).At?
    ensures var (s2, r) := Remove(repo, x.vfs, Walk(repo, x.vfs, p).id, n); var x2 := x.(vfs := s2);
      && (r.Some? <==> p + [n] in Shows(repo, x))
      && StoresOk(x2) && Shows(repo, x2) == Deleted(Shows(repo, x), p + [n])
      && (r.Some? ==> var x3 := x2.(staging := MarkDeleted(x.staging, r.value));
            StoresOk(x3) && Shows(repo, x3) == Shows(repo, x2))
  {
    RemoveChanges(repo, x.vfs, x.staging.files, p, n);
    RemoveKeepsDeleted(repo, x.vfs, Walk(repo, x.vfs, p).id, n);
  }

  lemma RenameShows(repo: Repo, x: Stores, p: Path, n: Name, p2: Path, n2: Name)
    requires StoresOk(x) && GoodRepo(repo) && Walk(repo, x.vfs, p).At? && Walk(repo, x.vfs, p2).At?
    requires GoodName(n2) && !(p + [n] <= p2 + [n2])
    ensures var (s2, ok) := Rename(repo, x.vfs, Walk(repo, x.vfs, p).id, n, Walk(repo, x.vfs, p2).id, n2);
      var v, x2 := Shows(repo, x), x.(vfs := s2);
      && (ok <==> p + [n] in v && IsDir(v, p2))
      && StoresOk(x2) && Shows(repo, x2) == if ok then Moved(v, p + [n], p2 + [n2]) else v
  {
    RenameChanges(repo, x.vfs, x.staging.files, p, n, p2, n2);
    RenameKeepsDeleted(repo, x.vfs, Walk(repo, x.vfs, p).id, n, Walk(repo, x.vfs, p2).id, n2);
  }

  /** Recording a changed path touches neither graph nor contents. */
  lemma RecordShows(repo: Repo, x: Stores, path: bytes)
    requires StoresOk(x)
    ensures var x2 := x.(staging := Record(x.staging, path));
      StoresOk(x2) && Shows(repo, x2) == Shows(repo, x)
  {
  }

  // ---- where a new name leads

  lemma LinkLeads(repo: Repo, s: Vfs, s2: Vfs, node: Node, p: Path)
    requires Inv(s) && Linked(s, s2, node) && Walk(repo, s, p) == At(node.parent)
    ensures Walk(repo, s2, p + [node.name]) == At(s.next)
  {
    LinkedView(repo, s, s2, map[], node, p);
  }

  /** In a directory that is populated, on a free name. */
  lemma MkdirLeadsThere(repo: Repo, s: Vfs, p: Path, n: Name)
    requires Inv(s) && Walk(repo, s, p).At? && Walk(repo, s, p).id in s.dirChildren && GoodName(n)
    requires (Walk(repo, s, p).id, n) !in s.childMap
    ensures
      var (s2, r) := Mkdir(repo, s, Walk(repo, s, p).id, n);
      r == Some(s.next) && Walk(repo, s2, p + [n]) == At(s.next)
  {
    var d := Walk(repo, s, p).id;
    var node := Node(d, n, [], Directory, true, false);
    WalkAt(repo, s, p);
    assert Linked(s, Mkdir(repo, s, d, n).0, node);
    LinkLeads(repo, s, Mkdir(repo, s, d, n).0, node, p);
  }

  lemma MkdirPopulated(repo: Repo, s: Vfs, d: nat, n: Name)
    requires CanPopulate(s, d) && d in Populate(repo, s, d).dirChildren
    ensures Mkdir(repo, Populate(repo, s, d), d, n) == Mkdir(repo, s, d, n)
  {
  }

  lemma CreatePopulated(repo: Repo, s: Vfs, d: nat, n: Name, mode: TreeEntryMode)
    requires CanPopulate(s, d) && d in Populate(repo, s, d).dirChildren
    ensures CreateFile(repo, Populate(repo, s, d), d, n, mode) == CreateFile(repo, s, d, n, mode)
  {
  }

  /** `mkdir` on a free name makes the directory that the path then leads to. */
  lemma MkdirLeads(repo: Repo, x: Stores, p: Path, n: Name)
    requires StoresOk(x) && GoodRepo(repo) && Walk(repo, x.vfs, p).At? && GoodName(n) && p + [n] !in Shows(repo, x)
    ensures
      var (s2, r) := Mkdir(repo, x.vfs, Walk(repo, x.vfs, p).id, n);
      r.Some? ==> StoresOk(x.(vfs := s2)) && Walk(repo, s2, p + [n]) == At(r.value)
  {
    var d := Walk(repo, x.vfs, p).id;
    MkdirShows(repo, x, p, n);
    GoneUnseen(repo, x, p + [n]);
    PopulateAt(repo, x.vfs, x.staging.files, p);
    GrownAt(repo, x.vfs, Populate(repo, x.vfs, d), p + [n]);
    WalkSnoc(repo, Populate(repo, x.vfs, d), p, n);
    if Mkdir(repo, x.vfs, d, n).1.Some? {
      MkdirPopulated(repo, x.vfs, d, n);
      MkdirLeadsThere(repo, Populate(repo, x.vfs, d), p, n);
    }
  }

  /** The node that is created has the mode asked for, if it is new. */
  ghost predicate NewHasMode(s: Vfs, s2: Vfs, id: nat, mode: TreeEntryMode) {
    id in s2.nodes && (id !in s.nodes ==> s2.nodes[id].mode == mode && s2.nodes[id].oid == [])
  }

  lemma CreateLeadsThere(repo: Repo, s: Vfs, p: Path, n: Name, mode: TreeEntryMode)
    requires Inv(s) && Walk(repo, s, p).At? && Walk(repo, s, p).id in s.dirChildren && GoodName(n)
    requires !mode.Directory?
    ensures
      var (s2, r) := CreateFile(repo, s, Walk(repo, s, p).id, n, mode);
      r.Some? && Walk(repo, s2, p + [n]) == At(r.value) && NewHasMode(s, s2, r.value, mode)
  {
    var d := Walk(repo, s, p).id;
    WalkSnoc(repo, s, p, n);
    if (d, n) in s.childMap {
      var c := s.childMap[(d, n)];
      assert IsChild(s, c, d, n);
      assert s.(nodes := s.nodes[c := s.nodes[c].(deleted := false)]) == s;
    } else {
      var node := Node(d, n, [], mode, false, false);
      assert Linked(s, Link(s, node), node);
      LinkLeads(repo, s, Link(s, node), node, p);
    }
  }

  /** `create_file` ends where the path then leads. */
  lemma CreateLeads(repo: Repo, x: Stores, p: Path, n: Name, mode: TreeEntryMode)
    requires StoresOk(x) && GoodRepo(repo) && Walk(repo, x.vfs, p).At? && GoodName(n) && !mode.Directory?
    ensures
      var (s2, r) := CreateFile(repo, x.vfs, Walk(repo, x.vfs, p).id, n, mode);
      r.Some? ==>
        && Walk(repo, s2, p + [n]) == At(r.value)
        && NewHasMode(Populate(repo, x.vfs, Walk(repo, x.vfs, p).id), s2, r.value, mode)
  {
    var d := Walk(repo, x.vfs, p).id;
    PopulateAt(repo, x.vfs, x.staging.files, p);
    if CreateFile(repo, x.vfs, d, n, mode).1.Some? {
      CreatePopulated(repo, x.vfs, d, n, mode);
      CreateLeadsThere(repo, Populate(repo, x.vfs, d), p, n, mode);
    }
  }
}
