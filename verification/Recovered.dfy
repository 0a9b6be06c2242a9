/** What the engine holds once a commit's objects have been applied to it
    (src/git/mod.rs, `apply_recovered_objects`). */
module Recovered {
  import opened Basics
  import opened GitData
  import opened Inodes
  import opened VfsInvariant
  import opened GitTree
  import opened TreeBuilder
  import opened TreeOrder
  import opened PackClosure
  import opened Recovery
  import opened Accretion
  import opened DirtyWalk
  import opened Origins
  import P = PackFormat

  // ---- applying

  predicate IsTree(o: P.Obj) {
    o.kind.TreeKind? && ReadTree(o.data).Some?
  }

  function NewTrees(m: Objects): map<Oid, Entries> {
    map oid | oid in m && IsTree(m[oid]) :: ReadTree(m[oid].data).value
  }

  function NewBlobs(m: Objects): map<Oid, bytes> {
    map oid | oid in m && m[oid].kind.BlobKind? :: m[oid].data
  }

  /** Every tree that parses joins the tree table, every blob the caches. */
  function Applied(repo: Repo, m: Objects): Repo {
    Repo(repo.trees + NewTrees(m), repo.blobs + NewBlobs(m))
  }

  // ---- the objects of a commit

  /** `m` holds, each under its own id, the blobs of staged files, rebuilt trees, and the
      commit. */
  ghost predicate Known(x: Stores, b: Build, commit: P.Obj, o: P.Obj)
    requires Inv(b.s)
  {
    || o == commit
    || (exists id :: BecomesBlob(x.vfs, x.staging, id) && o == BlobOf(x.staging, id))
    || (exists d :: d in b.s.nodes && o == TreeObject(b, d))
    || (exists t :: t in b.repo.trees && o == P.Obj(P.TreeKind, TreeBytes(b.repo.trees[t])))
    || (exists t :: t in b.repo.blobs && o == P.Obj(P.BlobKind, b.repo.blobs[t]))
  }

  /** Among the objects at hand, different ones have different ids. */
  ghost predicate NoClash(x: Stores, b: Build, commit: P.Obj)
    requires Inv(b.s)
  {
    forall o, p :: Known(x, b, commit, o) && Known(x, b, commit, p) && b.h(o) == b.h(p) ==> o == p
  }

  ghost predicate NamedByHash(x: Stores, b: Build, commit: P.Obj, m: Objects)
    requires Inv(b.s)
  {
    forall oid | oid in m :: b.h(m[oid]) == oid && Known(x, b, commit, m[oid])
  }

  lemma TreeKnown(x: Stores, b: Build, commit: P.Obj, d: nat)
    requires Inv(b.s) && d in b.s.nodes
    ensures Known(x, b, commit, TreeObject(b, d)) && b.h(TreeObject(b, d)) == Rebuilt(b, d)
  {
  }

  lemma NamedAdd(x: Stores, b: Build, commit: P.Obj, m: Objects, oid: Oid, o: P.Obj)
    requires Inv(b.s) && NamedByHash(x, b, commit, m) && Known(x, b, commit, o) && b.h(o) == oid
    ensures NamedByHash(x, b, commit, m[oid := o])
  {
  }

  lemma {:induction false} KidsNamed(x: Stores, b: Build, commit: P.Obj, d: nat, kids: seq<Kid>, m: Objects)
    requires Inv(b.s) && KidsUnder(b.s, d, kids) && NamedByHash(x, b, commit, m)
    ensures NamedByHash(x, b, commit, AddKids(b, d, kids, m))
    decreases Below(b.s, d), 0, |kids|
  {
    if kids != [] {
      var k := kids[|kids| - 1];
      KidsNamed(x, b, commit, d, kids[..|kids| - 1], m);
      if k.isDir && k.id.Some? && k.id.value in b.dirty {
        ChildShrinks(b.s, d, k.id.value);
        TreesNamed(x, b, commit, k.id.value, AddKids(b, d, kids[..|kids| - 1], m));
      }
    }
  }

  lemma {:induction false} TreesNamed(x: Stores, b: Build, commit: P.Obj, d: nat, m: Objects)
    requires Inv(b.s) && d in b.s.nodes && NamedByHash(x, b, commit, m)
    ensures NamedByHash(x, b, commit, AddTrees(b, d, m))
    decreases Below(b.s, d), 1, 3
  {
    SortedUnder(b, d);
    KidsNamed(x, b, commit, d, SortedKids(b, d), m);
    TreeKnown(x, b, commit, d);
    NamedAdd(x, b, commit, AddKids(b, d, SortedKids(b, d), m), Rebuilt(b, d), TreeObject(b, d));
  }

  // ---- every dirty directory that is reached is delivered

  /** `d` and the dirty directories below it have their trees in `m` or in the base. */
  ghost predicate Delivered(b: Build, d: nat, m: Objects)
    requires Inv(b.s)
    decreases Below(b.s, d), 1
  {
    SortedUnder(b, d);
    HasTree(b, m, Rebuilt(b, d)) && DeliveredKids(b, d, SortedKids(b, d), m)
  }

  ghost predicate DeliveredKids(b: Build, d: nat, kids: seq<Kid>, m: Objects)
    requires Inv(b.s) && KidsUnder(b.s, d, kids)
    decreases Below(b.s, d), 0, |kids|
  {
    kids == [] ||
    (DeliveredKids(b, d, kids[..|kids| - 1], m) &&
     var k := kids[|kids| - 1];
     if k.isDir && k.id.Some? && k.id.value in b.dirty then
       ChildShrinks(b.s, d, k.id.value);
       Delivered(b, k.id.value, m)
     else true)
  }

  lemma {:induction false} DeliveredMore(b: Build, d: nat, m: Objects, more: Objects)
    requires Inv(b.s) && Delivered(b, d, m) && Extends(m, more)
    ensures Delivered(b, d, more)
    decreases Below(b.s, d), 1, 0
  {
    SortedUnder(b, d);
    DeliveredKidsMore(b, d, SortedKids(b, d), m, more);
  }

  lemma {:induction false} DeliveredKidsMore(b: Build, d: nat, kids: seq<Kid>, m: Objects, more: Objects)
    requires Inv(b.s) && KidsUnder(b.s, d, kids) && DeliveredKids(b, d, kids, m) && Extends(m, more)
    ensures DeliveredKids(b, d, kids, more)
    decreases Below(b.s, d), 0, |kids|
  {
    if kids != [] {
      var k := kids[|kids| - 1];
      DeliveredKidsMore(b, d, kids[..|kids| - 1], m, more);
      if k.isDir && k.id.Some? && k.id.value in b.dirty {
        ChildShrinks(b.s, d, k.id.value);
        DeliveredMore(b, k.id.value, m, more);
      }
    }
  }

  lemma {:induction false} KidsDeliver(b: Build, d: nat, kids: seq<Kid>, m: Objects)
    requires Inv(b.s) && KidsUnder(b.s, d, kids)
    ensures DeliveredKids(b, d, kids, AddKids(b, d, kids, m)) && Extends(m, AddKids(b, d, kids, m))
    decreases Below(b.s, d), 0, |kids|
  {
    if kids != [] {
      var front, k := kids[..|kids| - 1], kids[|kids| - 1];
      var mid, all := AddKids(b, d, front, m), AddKids(b, d, kids, m);
      KidsDeliver(b, d, front, m);
      if k.isDir && k.id.Some? && k.id.value in b.dirty {
        ChildShrinks(b.s, d, k.id.value);
        TreesDeliver(b, k.id.value, mid);
      }
      DeliveredKidsMore(b, d, front, mid, all);
    }
  }

  lemma {:induction false} TreesDeliver(b: Build, d: nat, m: Objects)
    requires Inv(b.s)
    ensures Delivered(b, d, AddTrees(b, d, m)) && Extends(m, AddTrees(b, d, m))
    decreases Below(b.s, d), 1, 0
  {
    SortedUnder(b, d);
    var kids := SortedKids(b, d);
    KidsDeliver(b, d, kids, m);
    DeliveredKidsMore(b, d, kids, AddKids(b, d, kids, m), AddTrees(b, d, m));
  }

  lemma {:induction false} DeliveredKid(b: Build, d: nat, kids: seq<Kid>, m: Objects, i: nat)
    requires Inv(b.s) && KidsUnder(b.s, d, kids) && DeliveredKids(b, d, kids, m) && i < |kids|
    requires kids[i].isDir && kids[i].id.Some? && kids[i].id.value in b.dirty
    ensures Delivered(b, kids[i].id.value, m)
    decreases |kids|
  {
    if i < |kids| - 1 { DeliveredKid(b, d, kids[..|kids| - 1], m, i); }
  }

  /** A committed dirty kid of a delivered directory is delivered. */
  lemma DeliveredBelow(b: Build, d: nat, m: Objects, k: Kid)
    requires Inv(b.s) && GoodRepo(b.repo) && Delivered(b, d, m) && k in KidsOf(b.repo, b.s, d) && Committed(b, k)
    requires k.isDir && k.id.Some? && k.id.value in b.dirty
    ensures Delivered(b, k.id.value, m)
  {
    SortedUnder(b, d);
    SortedKidsOrdered(b, d);
    var kids := SortedKids(b, d);
    assert k in kids;
    var i :| 0 <= i < |kids| && kids[i] == k;
    DeliveredKid(b, d, kids, m, i);
  }

  // ---- the whole commit

  /** The hash gives 20 bytes; base trees can be written and read back, base blobs have their
      ids by hash, and no submodule has the id of an object of this commit. */
  ghost predicate SoundBase(b: Build, m: Objects) {
    && (forall o: P.Obj :: |b.h(o)| == 20)
    && (forall t | t in b.repo.trees :: AllWritable(b.repo.trees[t]))
    && (forall t | t in b.repo.blobs :: b.h(P.Obj(P.BlobKind, b.repo.blobs[t])) == t)
    && (forall t | t in b.repo.trees :: forall e | e in b.repo.trees[t] && e.oid !in b.repo.blobs
      && !e.mode.Directory? :: e.oid !in m)
  }

  /** `m` is what a commit of the stores emits: blobs, trees, and the commit itself. */
  ghost predicate IsCommit(x: Stores, b: Build, commit: P.Obj, blobs: Objects, m: Objects)
    requires Inv(b.s)
  {
    && HoldsBlobs(b.h, x.vfs, x.staging, blobs)
    && m == AddTrees(b, ROOT, blobs)[b.h(commit) := commit]
  }

  /** The stores after a replay, opened, and what the builder makes of them. */
  ghost predicate Solid(x: Stores, b: Build) {
    && GroundedStores(b.repo, x) && CanonicalBase(b.repo, b.h)
    && b.s == WithBlobs(b.h, x.vfs, x.staging) && b.deleted == x.staging.deleted
  }

  lemma ReadySolid(x: Stores, b: Build)
    requires Ready(x, b)
    ensures Solid(x, b)
  {
    AccruedGrounded(b.repo, x);
  }

  /** What is at hand after a commit. */
  ghost predicate After(x: Stores, b: Build, commit: P.Obj, blobs: Objects, m: Objects) {
    Solid(x, b) && Inv(b.s) && IsCommit(x, b, commit, blobs, m) && SoundBase(b, m) && NoClash(x, b, commit)
  }

  lemma CommitNamed(x: Stores, b: Build, commit: P.Obj, blobs: Objects, m: Objects)
    requires After(x, b, commit, blobs, m)
    ensures NamedByHash(x, b, commit, m) && Delivered(b, ROOT, m) && Extends(blobs, m)
  {
    forall oid | oid in blobs ensures b.h(blobs[oid]) == oid && Known(x, b, commit, blobs[oid]) {
      var id :| BecomesBlob(x.vfs, x.staging, id) && blobs[oid] == BlobOf(x.staging, id)
        && oid == b.h(BlobOf(x.staging, id));
    }
    TreesNamed(x, b, commit, ROOT, blobs);
    TreesDeliver(b, ROOT, blobs);
    DeliveredMore(b, ROOT, AddTrees(b, ROOT, blobs), m);
    assert Known(x, b, commit, commit);
  }

  /** An object at hand whose id is among the emitted is the one emitted. */
  lemma EmittedIs(x: Stores, b: Build, commit: P.Obj, blobs: Objects, m: Objects, o: P.Obj)
    requires After(x, b, commit, blobs, m) && Known(x, b, commit, o) && b.h(o) in m
    ensures m[b.h(o)] == o
  {
    CommitNamed(x, b, commit, blobs, m);
  }

  // ---- what a reader finds afterwards

  lemma AppliedTree(repo: Repo, m: Objects, t: Oid, es: Entries)
    requires AllWritable(es)
    requires if t in m then m[t] == P.Obj(P.TreeKind, TreeBytes(es)) else t in repo.trees && repo.trees[t] == es
    ensures t in Applied(repo, m).trees && Applied(repo, m).trees[t] == es
  {
    TreeRoundTrip(es);
  }

  lemma BaseTreeStays(x: Stores, b: Build, commit: P.Obj, blobs: Objects, m: Objects, t: Oid)
    requires After(x, b, commit, blobs, m) && t in b.repo.trees
    ensures t in Applied(b.repo, m).trees && Applied(b.repo, m).trees[t] == b.repo.trees[t]
  {
    var o := P.Obj(P.TreeKind, TreeBytes(b.repo.trees[t]));
    assert CanonicalTree(b.repo, b.h, t);
    assert Known(x, b, commit, o);
    if t in m { EmittedIs(x, b, commit, blobs, m, o); }
    AppliedTree(b.repo, m, t, b.repo.trees[t]);
  }

  lemma BaseBlobStays(x: Stores, b: Build, commit: P.Obj, blobs: Objects, m: Objects, t: Oid)
    requires After(x, b, commit, blobs, m) && t in b.repo.blobs
    ensures t in Applied(b.repo, m).blobs && Applied(b.repo, m).blobs[t] == b.repo.blobs[t]
  {
    var o := P.Obj(P.BlobKind, b.repo.blobs[t]);
    assert Known(x, b, commit, o);
    if t in m { EmittedIs(x, b, commit, blobs, m, o); }
  }

  lemma NewBlobFound(x: Stores, b: Build, commit: P.Obj, blobs: Objects, m: Objects, id: nat)
    requires After(x, b, commit, blobs, m) && BecomesBlob(x.vfs, x.staging, id)
    ensures
      var oid := b.h(BlobOf(x.staging, id));
      oid in Applied(b.repo, m).blobs && Applied(b.repo, m).blobs[oid] == x.staging.files[id]
  {
    CommitNamed(x, b, commit, blobs, m);
    var o := BlobOf(x.staging, id);
    assert Known(x, b, commit, o);
    EmittedIs(x, b, commit, blobs, m, o);
  }

  /** Under which type objects are emitted: a staged file's bytes as a blob, the rebuilt root, if
      the base lacks it, as a tree, and the commit as it is. */
  lemma EmittedAs(x: Stores, b: Build, commit: P.Obj, blobs: Objects, m: Objects, id: nat)
    requires After(x, b, commit, blobs, m) && BecomesBlob(x.vfs, x.staging, id)
    ensures
      var o := P.Obj(P.BlobKind, x.staging.files[id]);
      b.h(o) in m && m[b.h(o)] == o
    ensures
      var o := P.Obj(P.TreeKind, TreeBytes(NewEntries(b, ROOT)));
      b.h(o) in m || b.h(o) in b.repo.trees
    ensures
      var o := P.Obj(P.TreeKind, TreeBytes(NewEntries(b, ROOT)));
      b.h(o) in m ==> m[b.h(o)] == o
    ensures b.h(commit) in m && m[b.h(commit)] == commit
  {
    CommitNamed(x, b, commit, blobs, m);
    var o := BlobOf(x.staging, id);
    assert Known(x, b, commit, o) && b.h(o) in blobs;
    EmittedIs(x, b, commit, blobs, m, o);
    TreeKnown(x, b, commit, ROOT);
    if Rebuilt(b, ROOT) in m { EmittedIs(x, b, commit, blobs, m, TreeObject(b, ROOT)); }
  }

  /** Each entry that is written can be read back. */
  lemma NewEntriesWritable(x: Stores, b: Build, commit: P.Obj, blobs: Objects, m: Objects, d: nat)
    requires After(x, b, commit, blobs, m) && d in b.s.nodes && b.s.nodes[d].isDir
    ensures AllWritable(NewEntries(b, d))
  {
    NewEntriesAre(b, d);
    var es := NewEntries(b, d);
    forall i | 0 <= i < |es| ensures Writable(es[i]) {
      assert es[i] in es;
      var k :| WrittenKid(b, d, k, es[i]);
      if k.id.Some? { KidsAreUnder(b.repo, b.s, d, k); WrittenKnown(x, b, m, d, k); } else {
        WrittenBase(b, m, d, k, es[i]);
      }
    }
  }

  lemma WrittenBase(b: Build, m: Objects, d: nat, k: Kid, e: TreeEntry)
    requires Inv(b.s) && d in b.s.nodes && SoundBase(b, m) && WrittenKid(b, d, k, e) && k.id.None?
    ensures Writable(e)
  {
    var es := EntriesOf(b.repo, b.s.nodes[d].oid);
    var i :| 0 <= i < |es| && BaseKids(es)[i] == k;
    CleanOid(b, d, k);
    assert Writable(es[i]);
  }

  lemma WrittenKnown(x: Stores, b: Build, m: Objects, d: nat, k: Kid)
    requires Solid(x, b) && Inv(b.s) && SoundBase(b, m) && k in KidsOf(b.repo, b.s, d) && k.id.Some?
    requires KidUnder(b.s, d, k)
    requires NewOid(b, d, k) != []
    ensures Writable(TreeEntry(k.mode, k.name, NewOid(b, d, k)))
  {
    var c := k.id.value;
    NodeWritable(x, b, m, c);
    if k.isDir && c in b.dirty { DirtyOid(b, d, k); } else { CleanOid(b, d, k); }
  }

  /** A node's mode can be written, and its id, if any, has 20 bytes. */
  lemma NodeWritable(x: Stores, b: Build, m: Objects, c: nat)
    requires Solid(x, b) && SoundBase(b, m) && c in b.s.nodes && c != ROOT
    ensures FromModeText(ModeText(b.s.nodes[c].mode)) == b.s.nodes[c].mode
    ensures b.s.nodes[c].oid == [] || |b.s.nodes[c].oid| == 20
    ensures PlainName(b.s.nodes[c].name)
  {
    var n := x.vfs.nodes[c];
    assert NodeGrounded(b.repo, n, c in x.staging.sizes.Keys);
    ModeRoundTrip(RegularFile);
    ModeRoundTrip(Directory);
    if n.oid != [] { EntryWritable(b, m, n.mode, n.oid); }
  }

  lemma EntryWritable(b: Build, m: Objects, mode: TreeEntryMode, oid: Oid)
    requires SoundBase(b, m) && FromEntry(b.repo, mode, oid)
    ensures FromModeText(ModeText(mode)) == mode && |oid| == 20
  {
    var t, e :| t in b.repo.trees && e in b.repo.trees[t] && e.mode == mode && e.oid == oid;
    var i :| 0 <= i < |b.repo.trees[t]| && b.repo.trees[t][i] == e;
    assert Writable(b.repo.trees[t][i]);
  }

  /** The tree of a delivered directory reads as its new entries. */
  lemma NewTreeFound(x: Stores, b: Build, commit: P.Obj, blobs: Objects, m: Objects, d: nat)
    requires After(x, b, commit, blobs, m) && d in b.s.nodes && b.s.nodes[d].isDir && Delivered(b, d, m)
    ensures EntriesOf(Applied(b.repo, m), Rebuilt(b, d)) == NewEntries(b, d)
    ensures Rebuilt(b, d) in Applied(b.repo, m).trees
  {
    var o := TreeObject(b, d);
    assert Known(x, b, commit, o);
    NewEntriesWritable(x, b, commit, blobs, m, d);
    if Rebuilt(b, d) in m {
      EmittedIs(x, b, commit, blobs, m, o);
      AppliedTree(b.repo, m, Rebuilt(b, d), NewEntries(b, d));
    } else {
      var t := Rebuilt(b, d);
      var base := P.Obj(P.TreeKind, TreeBytes(b.repo.trees[t]));
      assert CanonicalTree(b.repo, b.h, t) && Known(x, b, commit, base);
      TreeBytesInjective(NewEntries(b, d), b.repo.trees[t]);
      BaseTreeStays(x, b, commit, blobs, m, t);
    }
  }
}
