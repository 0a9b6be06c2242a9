/** The objects a commit emits (src/git/builder.rs): blobs of staged files, and the rebuilt
    trees that the base lacks. They name nothing but each other and the base. */
module PackClosure {
  import opened Basics
  import opened GitData
  import opened Inodes
  import opened VfsInvariant
  import opened GitTree
  import opened TreeBuilder
  import opened Sources
  import opened Staging
  import Population
  import P = PackFormat
  import Sorting

  type Objects = map<Oid, P.Obj>

  // ---- staged files become blobs

  function BlobOf(st: Staging, id: nat): P.Obj
    requires id in st.files
  {
    P.Obj(P.BlobKind, st.files[id])
  }

  /** A staged inode that is live, is staged with content, and is no metadata file. */
  predicate BecomesBlob(s: Vfs, st: Staging, id: nat) {
    id in st.sizes && id in st.files && GetNode(s, id).Some? && !AppleMetadata(s.nodes[id].name)
  }

  function WithBlob(h: P.Hash, s: Vfs, st: Staging, id: nat): Node
    requires id in s.nodes
  {
    if BecomesBlob(s, st, id) then s.nodes[id].(oid := h(BlobOf(st, id))) else s.nodes[id]
  }

  /** The graph once every staged file has the id of its blob. */
  function WithBlobs(h: P.Hash, s: Vfs, st: Staging): Vfs {
    s.(nodes := map id | id in s.nodes :: WithBlob(h, s, st, id))
  }

  /** `m` holds the blob of every staged file, under its id, and nothing else. */
  ghost predicate HoldsBlobs(h: P.Hash, s: Vfs, st: Staging, m: Objects) {
    && (forall id | BecomesBlob(s, st, id) :: h(BlobOf(st, id)) in m)
    && (forall oid | oid in m :: exists id ::
      BecomesBlob(s, st, id) && m[oid] == BlobOf(st, id) && oid == h(BlobOf(st, id)))
  }

  lemma WithBlobsInv(h: P.Hash, s: Vfs, st: Staging)
    requires Inv(s)
    ensures Inv(WithBlobs(h, s, st))
  {
    var t := WithBlobs(h, s, st);
    forall c ensures Live(t, c) <==> Live(s, c) {}
    Population.RootedKept(s, t);
    assert MapOk(t) by {
      forall d, n | (d, n) in t.childMap ensures d in t.dirChildren && IsChild(t, t.childMap[(d, n)], d, n) {
        assert IsChild(s, s.childMap[(d, n)], d, n);
      }
    }
    assert ListsOk(t) by {
      forall d, c | d in t.dirChildren && c in t.dirChildren[d] ensures c in t.nodes
        && IsChild(t, c, d, t.nodes[c].name) {
        assert IsChild(s, c, d, s.nodes[c].name);
      }
    }
  }

  // ---- trees

  /** The objects after the tree of `d` and of the dirty directories below it have joined `m`. */
  ghost function AddTrees(x: Build, d: nat, m: Objects): Objects
    requires Inv(x.s)
    decreases Below(x.s, d), 1, 3
  {
    SortedUnder(x, d);
    var more := AddKids(x, d, SortedKids(x, d), m);
    if Rebuilt(x, d) in x.repo.trees then more else more[Rebuilt(x, d) := TreeObject(x, d)]
  }

  ghost function AddKids(x: Build, d: nat, kids: seq<Kid>, m: Objects): Objects
    requires Inv(x.s) && KidsUnder(x.s, d, kids)
    decreases Below(x.s, d), 0, |kids|
  {
    if kids == [] then m
    else
      var k := kids[|kids| - 1];
      var more := AddKids(x, d, kids[..|kids| - 1], m);
      if k.isDir && k.id.Some? && k.id.value in x.dirty then
        ChildShrinks(x.s, d, k.id.value);
        AddTrees(x, k.id.value, more)
      else more
  }

  // ---- closure

  /** What the entry names is in the base, or emitted; under `kinds` as what the mode says. */
  ghost predicate Supplied(kinds: bool, repo: Repo, m: Objects, mode: TreeEntryMode, oid: Oid) {
    || InBase(repo, mode, oid)
    || (oid in m && (kinds ==> if mode.Directory? then m[oid].kind.TreeKind? else m[oid].kind.BlobKind?))
  }

  ghost predicate EntriesSupplied(kinds: bool, repo: Repo, m: Objects, es: Entries) {
    forall e | e in es :: Supplied(kinds, repo, m, e.mode, e.oid)
  }

  /** A tree among `m` has entries that are all supplied. */
  ghost predicate ObjectClosed(kinds: bool, repo: Repo, m: Objects, o: P.Obj) {
    o.kind.TreeKind? ==> exists es: Entries :: o.data == TreeBytes(es) && EntriesSupplied(kinds, repo, m, es)
  }

  ghost predicate Closed(kinds: bool, repo: Repo, m: Objects) {
    forall oid | oid in m :: ObjectClosed(kinds, repo, m, m[oid])
  }

  /** The ids in the graph name what is supplied, but for directories that are rebuilt. */
  ghost predicate KidsSupplied(kinds: bool, x: Build, m: Objects) {
    && BaseComplete(x.repo)
    && forall id | id in x.s.nodes :: NodeSupplied(kinds, x, m, id)
  }

  ghost predicate NodeSupplied(kinds: bool, x: Build, m: Objects, id: nat)
    requires id in x.s.nodes
  {
    var n := x.s.nodes[id];
    n.oid == [] || (n.isDir && id in x.dirty) || Supplied(kinds, x.repo, m, n.mode, n.oid)
  }

  /** Under the id of a rebuilt tree, `m` holds no object but a tree. */
  ghost predicate TreesApart(x: Build, m: Objects)
    requires Inv(x.s)
  {
    forall d | d in x.s.nodes && x.s.nodes[d].isDir && Rebuilt(x, d) in m :: m[Rebuilt(x, d)].kind.TreeKind?
  }

  /** The root of a subtree is emitted or in the base. */
  ghost predicate HasTree(x: Build, m: Objects, oid: Oid) {
    oid in m || oid in x.repo.trees
  }

  ghost predicate Extends(m: Objects, more: Objects) {
    m.Keys <= more.Keys
  }

  /** Nothing is lost, and under `kinds` no object changes its kind. */
  ghost predicate Keeps(kinds: bool, m: Objects, more: Objects) {
    Extends(m, more) && (kinds ==> forall oid | oid in m :: more[oid].kind == m[oid].kind)
  }

  lemma EntriesKept(kinds: bool, repo: Repo, m: Objects, more: Objects, es: Entries)
    requires EntriesSupplied(kinds, repo, m, es) && Keeps(kinds, m, more)
    ensures EntriesSupplied(kinds, repo, more, es)
  {
  }

  lemma ClosedAdd(kinds: bool, repo: Repo, m: Objects, oid: Oid, es: Entries)
    requires Closed(kinds, repo, m) && EntriesSupplied(kinds, repo, m, es)
    requires (kinds && oid in m ==> m[oid].kind.TreeKind?)
    ensures var more := m[oid := P.Obj(P.TreeKind, TreeBytes(es))]; Closed(kinds, repo, more) && Keeps(kinds, m, more)
  {
    var more := m[oid := P.Obj(P.TreeKind, TreeBytes(es))];
    EntriesKept(kinds, repo, m, more, es);
    forall o | o in more ensures ObjectClosed(kinds, repo, more, more[o]) {
      if o == oid {
        assert more[o].data == TreeBytes(es);
      } else if more[o].kind.TreeKind? {
        assert ObjectClosed(kinds, repo, m, m[o]);
        var fs: Entries :| m[o].data == TreeBytes(fs) && EntriesSupplied(kinds, repo, m, fs);
        EntriesKept(kinds, repo, m, more, fs);
      }
    }
  }

  lemma KidSupplied(kinds: bool, x: Build, m: Objects, d: nat, k: Kid)
    requires KidsSupplied(kinds, x, m) && Inv(x.s) && k in KidsOf(x.repo, x.s, d) && k.oid != []
    requires !(k.isDir && k.id.Some? && k.id.value in x.dirty)
    ensures Supplied(kinds, x.repo, m, k.mode, k.oid)
  {
    if d in x.s.dirChildren {
      var id :| id in x.s.dirChildren[d] && GetNode(x.s, id).Some? && k == KidOf(x.s, id);
      assert NodeSupplied(kinds, x, m, id);
    } else {
      var es := EntriesOf(x.repo, x.s.nodes[d].oid);
      var i :| 0 <= i < |es| && BaseKids(es)[i] == k;
      assert es[i] in es;
    }
  }

  lemma KidModes(x: Build, d: nat, k: Kid)
    requires Inv(x.s) && k in KidsOf(x.repo, x.s, d)
    ensures k.isDir <==> k.mode.Directory?
  {
    if d in x.s.dirChildren {
      var id :| id in x.s.dirChildren[d] && GetNode(x.s, id).Some? && k == KidOf(x.s, id);
    } else {
      var es := EntriesOf(x.repo, x.s.nodes[d].oid);
      var i :| 0 <= i < |es| && BaseKids(es)[i] == k;
    }
  }

  /** Every kid is one of the directory's, whatever order they come in. */
  ghost predicate KidsFrom(x: Build, d: nat, kids: seq<Kid>) {
    forall i | 0 <= i < |kids| :: kids[i] in KidsOf(x.repo, x.s, d)
  }

  lemma SortedFrom(x: Build, d: nat)
    ensures KidsFrom(x, d, SortedKids(x, d))
  {
    var kids := SortedKids(x, d);
    forall i | 0 <= i < |kids| ensures kids[i] in KidsOf(x.repo, x.s, d) {
      Sorting.SortHolds(Filtered(x, KidsOf(x.repo, x.s, d)), KidLeq, kids[i]);
    }
  }

  lemma {:induction false} AddKidsCloses(kinds: bool, x: Build, d: nat, kids: seq<Kid>, m: Objects)
    requires Inv(x.s) && KidsUnder(x.s, d, kids) && KidsFrom(x, d, kids) && KidsSupplied(kinds, x, m)
    requires Closed(kinds, x.repo, m) && (kinds ==> TreesApart(x, m))
    ensures
      var more := AddKids(x, d, kids, m);
      && Keeps(kinds, m, more) && Closed(kinds, x.repo, more) && (kinds ==> TreesApart(x, more))
      && EntriesSupplied(kinds, x.repo, more, EntriesIn(x, d, kids))
    decreases Below(x.s, d), 0, |kids|
  {
    if kids != [] {
      var front, k := kids[..|kids| - 1], kids[|kids| - 1];
      var mid := AddKids(x, d, front, m);
      AddKidsCloses(kinds, x, d, front, m);
      KidModes(x, d, k);
      KidsKept(kinds, x, m, mid);
      if k.isDir && k.id.Some? && k.id.value in x.dirty {
        ChildShrinks(x.s, d, k.id.value);
        DirtyOid(x, d, k);
        DirtyKidIsDir(x, d, k);
        AddTreesCloses(kinds, x, k.id.value, mid);
        EntriesKept(kinds, x.repo, mid, AddTrees(x, k.id.value, mid), EntriesIn(x, d, front));
      } else {
        CleanOid(x, d, k);
        if k.oid != [] { KidSupplied(kinds, x, mid, d, k); }
      }
    }
  }

  lemma KidsKept(kinds: bool, x: Build, m: Objects, more: Objects)
    requires KidsSupplied(kinds, x, m) && Keeps(kinds, m, more)
    ensures KidsSupplied(kinds, x, more)
  {
    forall id | id in x.s.nodes ensures NodeSupplied(kinds, x, more, id) { assert NodeSupplied(kinds, x, m, id); }
  }

  lemma DirtyKidIsDir(x: Build, d: nat, k: Kid)
    requires Inv(x.s) && k in KidsOf(x.repo, x.s, d) && k.isDir && k.id.Some?
    ensures k.id.value in x.s.nodes && x.s.nodes[k.id.value].isDir
  {
    if d in x.s.dirChildren {
      var id :| id in x.s.dirChildren[d] && GetNode(x.s, id).Some? && k == KidOf(x.s, id);
    }
  }

  lemma {:induction false} AddTreesCloses(kinds: bool, x: Build, d: nat, m: Objects)
    requires Inv(x.s) && d in x.s.nodes && x.s.nodes[d].isDir && KidsSupplied(kinds, x, m)
    requires Closed(kinds, x.repo, m) && (kinds ==> TreesApart(x, m))
    ensures
      var more := AddTrees(x, d, m);
      && Keeps(kinds, m, more) && Closed(kinds, x.repo, more) && HasTree(x, more, Rebuilt(x, d))
      && (kinds ==> TreesApart(x, more))
    decreases Below(x.s, d), 1, 3
  {
    SortedUnder(x, d);
    SortedFrom(x, d);
    var kids := SortedKids(x, d);
    AddKidsCloses(kinds, x, d, kids, m);
    assert NewEntries(x, d) == EntriesIn(x, d, kids);
    assert TreeObject(x, d) == P.Obj(P.TreeKind, TreeBytes(EntriesIn(x, d, kids)));
    ClosedAdd(kinds, x.repo, AddKids(x, d, kids, m), Rebuilt(x, d), EntriesIn(x, d, kids));
  }

  lemma BlobsClosed(kinds: bool, repo: Repo, h: P.Hash, s: Vfs, st: Staging, m: Objects)
    requires HoldsBlobs(h, s, st, m)
    ensures Closed(kinds, repo, m)
  {
    forall oid | oid in m ensures ObjectClosed(kinds, repo, m, m[oid]) {
      var id :| BecomesBlob(s, st, id) && m[oid] == BlobOf(st, id) && oid == h(BlobOf(st, id));
    }
  }

  /** A directory that was staged, by creating over its name, is rebuilt. */
  ghost predicate StagedDirsDirty(s: Vfs, st: Staging, dirty: set<nat>) {
    forall id | BecomesBlob(s, st, id) && s.nodes[id].isDir :: id in dirty
  }

  lemma BlobIsHeld(h: P.Hash, s: Vfs, st: Staging, m: Objects, id: nat)
    requires HoldsBlobs(h, s, st, m) && BecomesBlob(s, st, id)
    ensures h(BlobOf(st, id)) in m && m[h(BlobOf(st, id))].kind == P.BlobKind
  {
  }

  lemma BlobsSupply(kinds: bool, root: Oid, s: Vfs, st: Staging, x: Build, m: Objects)
    requires Inv(s) && BaseComplete(x.repo) && Sourced(x.repo, root, s) && HoldsBlobs(x.h, s, st, m)
    requires x.s == WithBlobs(x.h, s, st) && (kinds ==> StagedDirsDirty(s, st, x.dirty))
    ensures KidsSupplied(kinds, x, m)
  {
    forall id | id in x.s.nodes ensures NodeSupplied(kinds, x, m, id) {
      assert NodeSourced(x.repo, s.nodes[id]);
      if BecomesBlob(s, st, id) { BlobIsHeld(x.h, s, st, m, id); }
    }
  }

  /** Listing a directory brings in only what the base has. */
  lemma PopulateSupplies(kinds: bool, x: Build, y: Build, m: Objects, d: nat)
    requires KidsSupplied(kinds, x, m) && y == x.(s := Populate(x.repo, x.s, d))
    ensures KidsSupplied(kinds, y, m)
  {
    if d !in x.s.dirChildren && CanPopulate(x.s, d) {
      var es := EntriesOf(x.repo, x.s.nodes[d].oid);
      CollectSourced(x.repo, x.s, d, es);
      var b := Collect(x.s, d, es);
      forall id | id in y.s.nodes ensures NodeSupplied(kinds, y, m, id) {
        if id in b.nodes { assert NodeSourced(x.repo, b.nodes[id]); } else { assert NodeSupplied(kinds, x, m, id); }
      }
    }
  }

  /** A pack is closed over the base, whatever the dirty set: the root is emitted or there
      already, and every emitted tree names only what is emitted or there. When staged
      directories are dirty, as the walk marks them, and no blob has the id of a tree, what it
      names is of the kind that the entry says. */
  lemma PackIsClosed(kinds: bool, root: Oid, s: Vfs, st: Staging, x: Build, blobs: Objects)
    requires Inv(s) && GoodRepo(x.repo) && BaseComplete(x.repo) && Sourced(x.repo, root, s)
    requires HoldsBlobs(x.h, s, st, blobs)
    requires x.s == Populate(x.repo, WithBlobs(x.h, s, st), ROOT) && Inv(x.s)
    requires kinds ==> StagedDirsDirty(s, st, x.dirty) && TreesApart(x, blobs)
    ensures
      var m := AddTrees(x, ROOT, blobs);
      && Keeps(kinds, blobs, m) && Closed(kinds, x.repo, m) && HasTree(x, m, Rebuilt(x, ROOT))
      && (kinds ==> TreesApart(x, m))
  {
    WithBlobsInv(x.h, s, st);
    var y := x.(s := WithBlobs(x.h, s, st));
    BlobsClosed(kinds, x.repo, x.h, s, st, blobs);
    BlobsSupply(kinds, root, s, st, y, blobs);
    PopulateSupplies(kinds, y, x, blobs, ROOT);
    AddTreesCloses(kinds, x, ROOT, blobs);
  }
}
