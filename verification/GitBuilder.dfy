/** The builder as it runs over the shared stores (src/git/builder.rs), and the engine that
    takes its objects back (src/git/mod.rs). */
module GitBuilder {
  import opened Basics
  import opened Paths
  import opened GitData
  import opened Inodes
  import opened VfsInvariant
  import opened GitTree
  import opened TreeBuilder
  import opened PackClosure
  import opened DirtyWalk
  import opened Recovered
  import Staging
  import Population
  import P = PackFormat
  import Sorting
  import V = VfsManager
  import T = StagingStore

  // ---- blobs

  /** The graph once the files of `done` have the ids of their blobs. */
  ghost function WithSome(h: P.Hash, s: Vfs, st: Staging.Staging, done: set<nat>): Vfs {
    s.(nodes := map id | id in s.nodes :: if id in done then WithBlob(h, s, st, id) else s.nodes[id])
  }

  ghost predicate HoldsSome(h: P.Hash, s: Vfs, st: Staging.Staging, done: set<nat>, m: Objects) {
    && (forall id | id in done && BecomesBlob(s, st, id) :: h(BlobOf(st, id)) in m)
    && (forall oid | oid in m :: exists id ::
      id in done && BecomesBlob(s, st, id) && m[oid] == BlobOf(st, id) && oid == h(BlobOf(st, id)))
  }

  lemma HoldsMore(h: P.Hash, s: Vfs, st: Staging.Staging, done: set<nat>, m: Objects, id: nat)
    requires HoldsSome(h, s, st, done, m)
    ensures BecomesBlob(s, st, id) ==> HoldsSome(h, s, st, done + {id}, m[h(BlobOf(st, id)) := BlobOf(st, id)])
    ensures !BecomesBlob(s, st, id) ==> HoldsSome(h, s, st, done + {id}, m)
  {
  }

  /** Every staged file becomes a blob, and its inode takes the blob's id. */
  method StageBlobs(vfs: V.VfsManager, staging: T.StagingStore, h: P.Hash) returns (objects: Objects)
    requires Staging.StagingOk(staging.State())
    modifies vfs`nodes
    ensures vfs.State() == WithBlobs(h, old(vfs.State()), staging.State())
    ensures HoldsBlobs(h, old(vfs.State()), staging.State(), objects)
  {
    ghost var s, st := vfs.State(), staging.State();
    objects := map[];
    var rest := staging.stagedNodes.Keys;
    ghost var done: set<nat> := {};
    assert WithSome(h, s, st, {}) == s;
    while rest != {}
      invariant rest + done == st.sizes.Keys && rest !! done
      invariant vfs.State() == WithSome(h, s, st, done)
      invariant HoldsSome(h, s, st, done, objects)
      decreases rest
    {
      var id :| id in rest;
      rest := rest - {id};
      HoldsMore(h, s, st, done, objects, id);
      if id in vfs.nodes && !vfs.nodes[id].deleted && !AppleMetadata(vfs.nodes[id].name) {
        var content := staging.GetStagedContent(id);
        if content.Some? {
          var o := P.Obj(P.BlobKind, content.value);
          vfs.SetOid(id, h(o));
          objects := objects[h(o) := o];
        }
      }
      done := done + {id};
    }
    assert WithSome(h, s, st, done) == WithBlobs(h, s, st);
  }

  // ---- the dirty walk

  /** From one inode upward, until the root or a node that is gone. */
  method MarkUp(vfs: V.VfsManager, id: nat, before: set<nat>) returns (dirty: set<nat>)
    requires Inv(vfs.State()) && vfs.nodes[ROOT].parent == ROOT
    ensures dirty == before + Marked(vfs.State(), id)
  {
    ghost var s := vfs.State();
    dirty := before;
    if id !in vfs.nodes { return; }
    var curr := id;
    assert Rooted(s, id);
    ghost var n := Depth(s, id);
    while curr in vfs.nodes && !vfs.nodes[curr].deleted
      invariant AtDepth(s, curr, n)
      invariant dirty + UpSet(s, curr, n) == before + Marked(s, id)
      decreases n
    {
      var node := vfs.nodes[curr];
      if node.isDir { dirty := dirty + {curr}; }
      dirty := dirty + {node.parent};
      if node.parent == ROOT || node.parent == curr { return; }
      curr, n := node.parent, n - 1;
    }
  }

  method DirtyDirs(vfs: V.VfsManager, ids: set<nat>) returns (dirty: set<nat>)
    requires Inv(vfs.State()) && vfs.nodes[ROOT].parent == ROOT
    ensures IsDirtySet(vfs.State(), ids, dirty)
  {
    ghost var s := vfs.State();
    dirty := {ROOT};
    var rest := ids;
    while rest != {}
      invariant rest <= ids
      invariant forall x: nat :: x in dirty <==> x == ROOT || MarkedBy(s, ids - rest, x)
      decreases rest
    {
      var id :| id in rest;
      ghost var was, done := dirty, ids - rest;
      dirty := MarkUp(vfs, id, dirty);
      rest := rest - {id};
      assert ids - rest == done + {id};
      forall x: nat ensures x in dirty <==> x == ROOT || MarkedBy(s, ids - rest, x) { OneMore(s, done, id, x); }
    }
    assert ids - {} == ids;
  }

  lemma OneMore(s: Vfs, done: set<nat>, id: nat, x: nat)
    requires Inv(s)
    ensures MarkedBy(s, done + {id}, x) <==> MarkedBy(s, done, x) || x in Marked(s, id)
  {
    if i :| i in done && x in Marked(s, i) { assert i in done + {id}; }
    if x in Marked(s, id) { assert id in done + {id}; }
  }

  // ---- trees

  lemma {:induction false} LiveIdsKids(s: Vfs, ids: seq<nat>)
    ensures |LiveIds(s, ids)| == |LiveKids(s, ids)|
    ensures forall i | 0 <= i < |LiveIds(s, ids)| ::
      LiveIds(s, ids)[i] in s.nodes && LiveKids(s, ids)[i] == KidOf(s, LiveIds(s, ids)[i])
    decreases |ids|
  {
    if ids != [] { LiveIdsKids(s, ids[..|ids| - 1]); }
  }

  /** The children that are committed. */
  method CommittedKids(vfs: V.VfsManager, deleted: set<nat>, ids: seq<nat>, ghost dir: nat, ghost b: Build)
    returns (kids: seq<Kid>)
    requires b.s == vfs.State() && dir in vfs.dirChildren && ids == LiveIds(b.s, vfs.dirChildren[dir])
    requires b.deleted == deleted
    ensures kids == Filtered(b, KidsOf(b.repo, b.s, dir))
  {
    LiveIdsKids(b.s, vfs.dirChildren[dir]);
    ghost var all := LiveKids(b.s, vfs.dirChildren[dir]);
    kids := [];
    for i := 0 to |ids|
      invariant kids == Filtered(b, all[..i])
    {
      assert all[..i + 1][..i] == all[..i] && all[..i + 1][i] == KidOf(b.s, ids[i]);
      var n := vfs.nodes[ids[i]];
      if !AppleMetadata(n.name) && ids[i] !in deleted {
        kids := kids + [Kid(Some(ids[i]), n.name, n.mode, n.isDir, n.oid)];
      }
    }
    assert all[..|ids|] == all;
  }

  /** Every dirty directory is listed already, but perhaps the one the recursion starts from. */
  ghost predicate Listed(s: Vfs, dirty: set<nat>, dir: nat) {
    forall d | d in dirty && d in s.nodes && s.nodes[d].isDir :: d in s.dirChildren || d == dir
  }

  /** What a subtree's rebuild must give, in graph `s`. */
  ghost predicate RebuiltAs(b: Build, dir: nat, before: Objects, oid: Oid, after: Objects) {
    Inv(b.s) && oid == Rebuilt(b, dir) && after == AddTrees(b, dir, before)
  }

  lemma EntriesInStep(b: Build, d: nat, kids: seq<Kid>, i: nat)
    requires Inv(b.s) && KidsUnder(b.s, d, kids) && i < |kids|
    ensures KidsUnder(b.s, d, kids[..i]) && KidsUnder(b.s, d, kids[..i + 1])
    ensures kids[i].id.Some? ==> KidUnder(b.s, d, kids[i])
    ensures
      var oid := NewOid(b, d, kids[i]);
      EntriesIn(b, d, kids[..i + 1]) == EntriesIn(b, d, kids[..i]) + if oid == [] then []
        else [TreeEntry(kids[i].mode, kids[i].name, oid)]
  {
    assert kids[..i + 1][..i] == kids[..i];
  }

  lemma AddKidsStep(b: Build, d: nat, kids: seq<Kid>, i: nat, m: Objects)
    requires Inv(b.s) && KidsUnder(b.s, d, kids) && i < |kids| && KidsUnder(b.s, d, kids[..i])
    requires KidsUnder(b.s, d, kids[..i + 1])
    ensures
      var k := kids[i];
      AddKids(b, d, kids[..i + 1], m) ==
      if k.isDir && k.id.Some? && k.id.value in b.dirty then AddTrees(b, k.id.value, AddKids(b, d, kids[..i], m))
        else AddKids(b, d, kids[..i], m)
  {
    assert kids[..i + 1][..i] == kids[..i];
    if kids[i].isDir && kids[i].id.Some? && kids[i].id.value in b.dirty { ChildShrinks(b.s, d, kids[i].id.value); }
  }

  lemma TreeBytesSnoc(es: Entries, e: TreeEntry)
    ensures TreeBytes(es + [e]) == TreeBytes(es) + EntryBytes(e)
  {
    assert (es + [e])[..|es|] == es;
  }

  /** The bytes of one child's entry. */
  method EntryText(kid: Kid, oid: Oid) returns (r: bytes)
    ensures r == EntryBytes(TreeEntry(kid.mode, kid.name, oid))
  {
    r := ModeText(kid.mode) + [SPACE] + kid.name + [0];
    r := r + oid;
  }

  lemma NothingToPopulate(repo: Repo, s: Vfs, d: nat)
    requires d in s.dirChildren
    ensures Populate(repo, s, d) == s
  {
  }

  /** `rebuild_tree_recursive`: the id of the rebuilt tree of `dir`, and the objects with what
      the base lacks of its subtree. None when `dir` is no directory. */
  method RebuildTree(vfs: V.VfsManager, h: P.Hash, deleted: set<nat>, dirty: set<nat>, dir: nat, before: Objects)
    returns (r: Option<Oid>, objects: Objects)
    requires GoodRepo(vfs.repo) && Inv(vfs.State()) && dirty <= vfs.nodes.Keys && Listed(vfs.State(), dirty, dir)
    modifies vfs
    ensures vfs.State() == Populate(vfs.repo, old(vfs.State()), dir)
    ensures r.Some? <==> CanPopulate(old(vfs.State()), dir)
    ensures r.Some? ==> RebuiltAs(Build(vfs.repo, h, vfs.State(), deleted, dirty), dir, before, r.value, objects)
    decreases Below(Populate(vfs.repo, vfs.State(), dir), dir)
  {
    objects := before;
    Population.PopulateGrows(vfs.repo, vfs.State(), dir);
    var ids := vfs.ListDir(dir);
    if ids.None? { return None, before; }
    ghost var b := Build(vfs.repo, h, vfs.State(), deleted, dirty);
    var kids := CommittedKids(vfs, deleted, ids.value, dir, b);
    kids := Sorting.Sort(kids, KidLeq);
    SortedUnder(b, dir);
    assert kids == SortedKids(b, dir);
    var raw: bytes := [];
    assert kids[..0] == [];
    for i := 0 to |kids|
      invariant vfs.State() == b.s
      invariant KidsUnder(b.s, dir, kids[..i])
      invariant raw == TreeBytes(EntriesIn(b, dir, kids[..i]))
      invariant objects == AddKids(b, dir, kids[..i], before)
    {
      EntriesInStep(b, dir, kids, i);
      AddKidsStep(b, dir, kids, i, before);
      var oid: Oid;
      oid, objects := ChildOid(vfs, h, deleted, dirty, dir, kids[i], objects, b);
      if oid != [] {
        TreeBytesSnoc(EntriesIn(b, dir, kids[..i]), TreeEntry(kids[i].mode, kids[i].name, oid));
        var text := EntryText(kids[i], oid);
        raw := raw + text;
      } else {
        assert EntriesIn(b, dir, kids[..i]) + [] == EntriesIn(b, dir, kids[..i]);
      }
    }
    assert kids[..|kids|] == kids;
    assert NewEntries(b, dir) == EntriesIn(b, dir, kids);
    var o := P.Obj(P.TreeKind, raw);
    assert o == TreeObject(b, dir);
    if h(o) !in vfs.repo.trees { objects := objects[h(o) := o]; }
    return Some(h(o)), objects;
  }

  /** The id of one child: of its rebuilt tree when it is a dirty directory. */
  method ChildOid(vfs: V.VfsManager, h: P.Hash, deleted: set<nat>, dirty: set<nat>, ghost dir: nat, kid: Kid,
                  before: Objects, ghost b: Build)
    returns (oid: Oid, objects: Objects)
    requires GoodRepo(vfs.repo) && Inv(vfs.State()) && b == Build(vfs.repo, h, vfs.State(), deleted, dirty)
    requires dirty <= vfs.nodes.Keys && Listed(vfs.State(), dirty, dir) && dir in vfs.dirChildren
    requires kid.id.Some? ==> KidUnder(b.s, dir, kid)
    modifies vfs
    ensures vfs.State() == old(vfs.State())
    ensures oid == NewOid(b, dir, kid)
    ensures objects == if kid.isDir && kid.id.Some?
      && kid.id.value in dirty then AddTrees(b, kid.id.value, before) else before
    decreases Below(vfs.State(), dir), 0
  {
    if kid.isDir && kid.id.Some? && kid.id.value in dirty {
      var c := kid.id.value;
      ChildShrinks(b.s, dir, c);
      NothingToPopulate(vfs.repo, vfs.State(), c);
      DirtyOid(b, dir, kid);
      var r: Option<Oid>;
      r, objects := RebuildTree(vfs, h, deleted, dirty, c, before);
      return r.value, objects;
    }
    CleanOid(b, dir, kid);
    return kid.oid, before;
  }

  // ---- the whole commit

  /** A live directory among the staged or deleted inodes has been listed. */
  ghost predicate DirsListed(s: Vfs, ids: set<nat>) {
    forall id | id in ids && id in s.nodes && s.nodes[id].isDir && !s.nodes[id].deleted :: id in s.dirChildren
  }

  /** The walk marks inodes of the graph, and directories that have been listed. */
  lemma {:induction false} UpSetListed(s: Vfs, id: nat, n: nat, x: nat)
    requires Inv(s) && s.nodes[ROOT].parent == ROOT && AtDepth(s, id, n) && id in s.nodes && x in UpSet(s, id, n)
    ensures x in s.nodes && (x == ROOT || x == id || x in s.dirChildren)
    decreases n
  {
    var p := s.nodes[id].parent;
    if id != ROOT { assert Live(s, id); }
    if x != id && x != p { UpSetListed(s, p, n - 1, x); }
  }

  lemma DirtyListed(s: Vfs, ids: set<nat>, dirty: set<nat>)
    requires Inv(s) && s.nodes[ROOT].parent == ROOT && DirsListed(s, ids) && IsDirtySet(s, ids, dirty)
    ensures dirty <= s.nodes.Keys && Listed(s, dirty, ROOT)
  {
    forall x | x in dirty ensures x in s.nodes && (x == ROOT || !s.nodes[x].isDir || x in s.dirChildren) {
      if x != ROOT {
        var id :| id in ids && x in Marked(s, id);
        assert Rooted(s, id);
        assert GetNode(s, id).Some?;
        UpSetListed(s, id, Depth(s, id), x);
      }
    }
  }

  /** `rebuild_git_objects`; the commit's text beyond the root id is given. */
  method RebuildGitObjects(vfs: V.VfsManager, staging: T.StagingStore, h: P.Hash, commitText: Oid -> bytes)
    returns (commitOid: Oid, rootOid: Oid, objects: Objects, ghost b: Build, ghost blobs: Objects)
    requires GoodRepo(vfs.repo) && Inv(vfs.State()) && vfs.nodes[ROOT].parent == ROOT
    requires Staging.StagingOk(staging.State())
    requires DirsListed(vfs.State(), staging.stagedNodes.Keys + staging.deletedNodes)
    modifies vfs
    ensures
      var t := WithBlobs(h, old(vfs.State()), staging.State());
      Inv(t) && IsDirtySet(t, staging.stagedNodes.Keys + staging.deletedNodes, b.dirty) &&
      b == Build(vfs.repo, h, Populate(vfs.repo, t, ROOT), staging.deletedNodes, b.dirty)
    ensures vfs.State() == b.s && Inv(b.s)
    ensures HoldsBlobs(h, old(vfs.State()), staging.State(), blobs)
    ensures rootOid == Rebuilt(b, ROOT)
    ensures
      var commit := P.Obj(P.CommitKind, commitText(rootOid));
      commitOid == h(commit) && objects == AddTrees(b, ROOT, blobs)[commitOid := commit]
  {
    WithBlobsInv(h, vfs.State(), staging.State());
    ghost var s := vfs.State();
    var blobObjects := StageBlobs(vfs, staging, h);
    blobs := blobObjects;
    var dirty := DirtyDirs(vfs, staging.stagedNodes.Keys + staging.deletedNodes);
    DirtyListed(vfs.State(), staging.stagedNodes.Keys + staging.deletedNodes, dirty);
    var r: Option<Oid>;
    r, objects := RebuildTree(vfs, h, staging.deletedNodes, dirty, ROOT, blobObjects);
    b := Build(vfs.repo, h, vfs.State(), staging.deletedNodes, dirty);
    rootOid := r.value;
    var commit := P.Obj(P.CommitKind, commitText(rootOid));
    commitOid := h(commit);
    objects := objects[commitOid := commit];
  }

  // ---- the engine

  /** The tree table and blob caches, and where the repository stands. */
  class GitEngine {
    var trees: map<Oid, Entries>
    var blobs: map<Oid, bytes>
    var commitOid: Oid
    var rootTreeOid: Oid

    function State(): Repo
      reads this
    {
      Repo(trees, blobs)
    }

    constructor (repo: Repo, commit: Oid, root: Oid)
      ensures State() == repo && commitOid == commit && rootTreeOid == root
    {
      trees, blobs, commitOid, rootTreeOid := repo.trees, repo.blobs, commit, root;
    }

    /** The objects come in any order; `rest` are those still to be applied. */
    method ApplyRecoveredObjects(commit: Oid, root: Oid, objects: Objects)
      modifies this
      ensures State() == Applied(old(State()), objects)
      ensures commitOid == commit && rootTreeOid == root
    {
      commitOid, rootTreeOid := commit, root;
      var rest := objects.Keys;
      ghost var done: Objects := map[];
      while rest != {}
        invariant rest <= objects.Keys && done == (map oid | oid in objects && oid !in rest :: objects[oid])
        invariant State() == Applied(old(State()), done) && commitOid == commit && rootTreeOid == root
        decreases rest
      {
        var oid :| oid in rest;
        var o := objects[oid];
        rest := rest - {oid};
        AppliedOne(old(State()), done, oid, o);
        done := done[oid := o];
        match o.kind
        case TreeKind =>
          var es := Parse(o.data);
          if es.Some? { trees := trees[oid := es.value]; }
        case BlobKind => blobs := blobs[oid := o.data];
        case CommitKind =>
        case TagKind =>
      }
      assert done == objects;
    }
  }

  lemma TreesOne(m: Objects, oid: Oid, o: P.Obj)
    requires oid !in m
    ensures NewTrees(m[oid := o]) == if IsTree(o) then NewTrees(m)[oid := ReadTree(o.data).value] else NewTrees(m)
  {
  }

  lemma BlobsOne(m: Objects, oid: Oid, o: P.Obj)
    requires oid !in m
    ensures NewBlobs(m[oid := o]) == if o.kind.BlobKind? then NewBlobs(m)[oid := o.data] else NewBlobs(m)
  {
  }

  lemma AddLast<K, W>(a: map<K, W>, b: map<K, W>, k: K, w: W)
    ensures a + b[k := w] == (a + b)[k := w]
  {
  }

  lemma AppliedOne(repo: Repo, m: Objects, oid: Oid, o: P.Obj)
    requires oid !in m
    ensures Applied(repo, m[oid := o]).trees == if IsTree(o)
      then Applied(repo, m).trees[oid := ReadTree(o.data).value] else Applied(repo, m).trees
    ensures Applied(repo, m[oid := o]).blobs == if o.kind.BlobKind? then Applied(repo, m).blobs[oid := o.data]
      else Applied(repo, m).blobs
  {
    TreesOne(m, oid, o);
    BlobsOne(m, oid, o);
    if IsTree(o) { AddLast(repo.trees, NewTrees(m), oid, ReadTree(o.data).value); }
    AddLast(repo.blobs, NewBlobs(m), oid, o.data);
  }
}
