/** The walk that marks directories dirty (src/git/builder.rs), and why it misses none after
    changes that only add. */
module DirtyWalk {
  import opened Basics
  import opened Paths
  import opened GitData
  import opened Inodes
  import opened VfsInvariant
  import opened GitTree
  import opened TreeBuilder
  import opened TreeOrder
  import opened Sources
  import opened PackClosure
  import opened Staging
  import opened Accretion
  import opened Recovery
  import P = PackFormat

  // ---- what the walk marks

  /** What the walk from `id` adds, `n` steps being enough to reach the root. */
  function UpSet(s: Vfs, id: nat, n: nat): set<nat>
    decreases n
  {
    if GetNode(s, id).None? then {}
    else
      var node := s.nodes[id];
      var here := (if node.isDir then {id} else {}) + {node.parent};
      if node.parent == ROOT || node.parent == id || n == 0 then here else here + UpSet(s, node.parent, n - 1)
  }

  ghost function Depth(s: Vfs, id: nat): nat
    requires Rooted(s, id)
  {
    var n: nat :| AtDepth(s, id, n);
    n
  }

  /** What the walk from `id` adds; nothing for a number that is not in the graph. */
  ghost function Marked(s: Vfs, id: nat): set<nat>
    requires Inv(s)
  {
    if id in s.nodes then UpSet(s, id, Depth(s, id)) else {}
  }

  ghost predicate MarkedBy(s: Vfs, ids: set<nat>, x: nat)
    requires Inv(s)
  {
    exists id :: id in ids && x in Marked(s, id)
  }

  /** `dirty` is the set that the walk from each of `ids` leaves. */
  ghost predicate IsDirtySet(s: Vfs, ids: set<nat>, dirty: set<nat>)
    requires Inv(s)
  {
    forall x: nat :: x in dirty <==> x == ROOT || MarkedBy(s, ids, x)
  }

  // ---- when nothing has been deleted

  ghost predicate NoneDeleted(s: Vfs) {
    forall id | id in s.nodes :: !s.nodes[id].deleted
  }

  lemma {:induction false} UpSetIs(s: Vfs, id: nat, n: nat, x: nat)
    requires Inv(s) && NoneDeleted(s) && AtDepth(s, id, n) && id != ROOT
    ensures x in UpSet(s, id, n) <==> (x == id && s.nodes[id].isDir) || IsBelow(s, x, id)
    decreases n
  {
    var p := s.nodes[id].parent;
    if p == id { DepthUnique(s, id, n); }
    UpFirst(s, id, x);
    if p != ROOT {
      UpSetIs(s, p, n - 1, x);
      assert Live(s, id);
    } else {
      NothingAboveRoot(s, x);
    }
  }

  /** Above `id` are its parent and what is above that. */
  lemma UpFirst(s: Vfs, id: nat, x: nat)
    requires id in s.nodes && id != ROOT
    ensures IsBelow(s, x, id) <==> x == s.nodes[id].parent || IsBelow(s, x, s.nodes[id].parent)
  {
    var p := s.nodes[id].parent;
    if IsBelow(s, x, id) {
      var k: nat :| k > 0 && Up(s, id, k) == Some(x);
      assert Up(s, p, k - 1) == Some(x);
    }
    if x == p { assert Up(s, id, 1) == Some(x); }
    if IsBelow(s, x, p) {
      var k: nat :| k > 0 && Up(s, p, k) == Some(x);
      assert Up(s, id, k + 1) == Some(x);
    }
  }

  lemma NothingAboveRoot(s: Vfs, x: nat)
    ensures !IsBelow(s, x, ROOT)
  {
  }

  /** A directory below the root is dirty exactly when a staged inode lies below it. */
  lemma DirtyMeansStaged(s: Vfs, staged: set<nat>, dirty: set<nat>, x: nat)
    requires Inv(s) && NoneDeleted(s) && IsDirtySet(s, staged, dirty) && x != ROOT
    requires forall id | id in staged :: id in s.nodes && id != ROOT && !s.nodes[id].isDir
    ensures x in dirty <==> exists id :: id in staged && IsBelow(s, x, id)
  {
    forall id | id in staged ensures x in Marked(s, id) <==> IsBelow(s, x, id) {
      assert Rooted(s, id);
      UpSetIs(s, id, Depth(s, id), x);
    }
  }

  /** The parent of a staged file, and of a dirty directory, is dirty. */
  lemma DirtyUp(s: Vfs, staged: set<nat>, dirty: set<nat>, c: nat)
    requires Inv(s) && NoneDeleted(s) && IsDirtySet(s, staged, dirty) && c in s.nodes && c != ROOT
    requires forall id | id in staged :: id in s.nodes && id != ROOT && !s.nodes[id].isDir
    requires c in staged || c in dirty
    ensures s.nodes[c].parent in dirty
  {
    var p := s.nodes[c].parent;
    if p != ROOT {
      DirtyMeansStaged(s, staged, dirty, p);
      if c in staged {
        UpFirst(s, c, p);
      } else {
        DirtyMeansStaged(s, staged, dirty, c);
        var id :| id in staged && IsBelow(s, c, id);
        var k: nat :| k > 0 && Up(s, id, k) == Some(c);
        UpMore(s, id, k, c);
        assert IsBelow(s, p, id);
      }
    }
  }

  // ---- canonical bases

  /** A base in which every tree is written as the builder would write it, and is complete. */
  ghost predicate CanonicalBase(repo: Repo, h: P.Hash) {
    && PlainBase(repo) && BaseComplete(repo)
    && forall t | t in repo.trees :: CanonicalTree(repo, h, t)
  }

  ghost predicate CanonicalTree(repo: Repo, h: P.Hash, t: Oid) {
    t in repo.trees && Canonical(repo.trees[t]) && h(P.Obj(P.TreeKind, TreeBytes(repo.trees[t]))) == t
  }

  // ---- a directory that is not dirty

  /** The state after a run that only adds, and what the builder makes of it. */
  ghost predicate Ready(x: Stores, b: Build) {
    && AccruedStores(b.repo, x) && CanonicalBase(b.repo, b.h)
    && b.s == WithBlobs(b.h, x.vfs, x.staging) && b.deleted == {}
    && IsDirtySet(x.vfs, x.staging.sizes.Keys, b.dirty)
  }

  lemma ReadyInv(x: Stores, b: Build)
    requires Ready(x, b)
    ensures Inv(b.s) && NoneDeleted(x.vfs) && b.s.nodes.Keys == x.vfs.nodes.Keys
  {
    WithBlobsInv(b.h, x.vfs, x.staging);
    forall id | id in x.vfs.nodes ensures !x.vfs.nodes[id].deleted {
      if id != ROOT { assert Origin(b.repo, x.vfs, x.staging.sizes.Keys, id); }
    }
  }

  /** A directory keeps its id; so does a file that is not staged. */
  lemma Unstaged(x: Stores, b: Build, c: nat)
    requires Ready(x, b) && c in x.vfs.nodes && c !in x.staging.sizes
    ensures c in b.s.nodes && b.s.nodes[c] == x.vfs.nodes[c]
  {
  }

  lemma {:induction false} UpSame(s: Vfs, t: Vfs, id: nat, k: nat)
    requires s.nodes.Keys == t.nodes.Keys && forall c | c in s.nodes :: t.nodes[c].parent == s.nodes[c].parent
    ensures Up(t, id, k) == Up(s, id, k)
    decreases k
  {
    if k > 0 && id != ROOT && id in s.nodes { UpSame(s, t, s.nodes[id].parent, k - 1); }
  }

  /** A child of a directory that is not dirty: not staged, and not dirty itself. */
  lemma CleanChild(x: Stores, b: Build, d: nat, c: nat)
    requires Ready(x, b) && d !in b.dirty && c in x.vfs.nodes && c != ROOT && x.vfs.nodes[c].parent == d
    ensures c !in x.staging.sizes && c !in b.dirty
  {
    ReadyInv(x, b);
    if c in x.staging.sizes || c in b.dirty { DirtyUp(x.vfs, x.staging.sizes.Keys, b.dirty, c); }
  }

  /** The kid of a clean directory that is written is the base entry of its name. */
  lemma CleanKid(x: Stores, b: Build, d: nat, c: nat)
    requires Ready(x, b) && d !in b.dirty && d in x.vfs.nodes && c in x.vfs.nodes && c != ROOT
    requires x.vfs.nodes[c].parent == d
    requires x.vfs.nodes[c].oid != []
    ensures TreeEntry(x.vfs.nodes[c].mode, x.vfs.nodes[c].name, x.vfs.nodes[c].oid) in EntriesOf(b.repo,
      x.vfs.nodes[d].oid)
  {
    assert Origin(b.repo, x.vfs, x.staging.sizes.Keys, c);
  }

  lemma KidUnderBefore(x: Stores, b: Build, d: nat, k: Kid)
    requires Ready(x, b) && Inv(b.s) && k in KidsOf(b.repo, b.s, d) && k.id.Some?
    ensures KidUnder(b.s, d, k) && k.id.value in x.vfs.nodes && x.vfs.nodes[k.id.value].parent == d
  {
    KidsAreUnder(b.repo, b.s, d, k);
  }

  /** What is written for an entry of a clean directory's base tree. */
  lemma CleanWritten(x: Stores, b: Build, d: nat, e: TreeEntry) returns (k: Kid)
    requires Ready(x, b) && Inv(b.s) && d in x.vfs.nodes && d !in b.dirty && x.vfs.nodes[d].isDir
    requires e in EntriesOf(b.repo, x.vfs.nodes[d].oid)
    ensures k in KidsOf(b.repo, b.s, d) && k.name == e.name && k.mode == e.mode && k.oid == e.oid && Committed(b, k)
    ensures e.oid != [] && InBase(b.repo, e.mode, e.oid)
  {
    Unstaged(x, b, d);
    if d in x.vfs.dirChildren {
      assert Covered(b.repo, x.vfs, d);
      assert HasChild(x.vfs, d, e);
      var c := x.vfs.childMap[(d, e.name)];
      assert IsChild(x.vfs, c, d, e.name);
      CleanChild(x, b, d, c);
      Unstaged(x, b, c);
      k := KidOf(b.s, c);
      assert c in b.s.dirChildren[d] && GetNode(b.s, c).Some?;
    } else {
      var es := EntriesOf(b.repo, b.s.nodes[d].oid);
      var i :| 0 <= i < |es| && es[i] == e;
      k := BaseKids(es)[i];
    }
  }

  // ---- the dirty set covers what is stale

  /** A clean directory with an id is rebuilt as the base tree of that id. */
  lemma {:induction false} CleanEntries(x: Stores, b: Build, d: nat)
    requires Ready(x, b) && Inv(b.s) && d in b.s.nodes && d != ROOT && d !in b.dirty && b.s.nodes[d].isDir
    requires b.s.nodes[d].oid != []
    ensures b.s.nodes[d].oid in b.repo.trees
    ensures NewEntries(Full(b), d) == b.repo.trees[b.s.nodes[d].oid]
    decreases Below(b.s, d)
  {
    var f, es := Full(b), EntriesOf(b.repo, b.s.nodes[d].oid);
    CleanHasTree(x, b, d);
    forall k | k in KidsOf(b.repo, b.s, d) && k.id.Some? ensures KidUnder(b.s, d, k) {
      KidsAreUnder(b.repo, b.s, d, k);
    }
    forall k | k in KidsOf(b.repo, b.s, d) && k.isDir && k.id.Some? && k.oid != []
      ensures Rebuilt(f, k.id.value) == k.oid
    {
      var c := k.id.value;
      CleanKidFacts(x, b, d, k);
      ChildShrinks(b.s, d, c);
      CleanEntries(x, b, c);
      CleanRebuilt(b, c);
    }
    CleanMembers(x, b, d);
    NewEntriesAre(f, d);
    CanonicalUnique(NewEntries(f, d), es);
  }

  lemma CleanRebuilt(b: Build, c: nat)
    requires Inv(b.s) && c in b.s.nodes && b.s.nodes[c].oid in b.repo.trees
    requires NewEntries(Full(b), c) == b.repo.trees[b.s.nodes[c].oid]
    requires CanonicalBase(b.repo, b.h)
    ensures Rebuilt(Full(b), c) == b.s.nodes[c].oid
  {
    assert CanonicalTree(b.repo, b.h, b.s.nodes[c].oid);
  }

  /** The id of a clean directory names a base tree. */
  lemma CleanHasTree(x: Stores, b: Build, d: nat)
    requires Ready(x, b) && Inv(b.s) && d in b.s.nodes && d != ROOT && b.s.nodes[d].isDir && b.s.nodes[d].oid != []
    ensures b.s.nodes[d].oid in b.repo.trees && Canonical(b.repo.trees[b.s.nodes[d].oid])
  {
    ReadyInv(x, b);
    var n := x.vfs.nodes[d];
    assert Origin(b.repo, x.vfs, x.staging.sizes.Keys, d);
    var e := FindEntry(EntriesOf(b.repo, x.vfs.nodes[n.parent].oid), n.name).value;
    assert InBase(b.repo, e.mode, e.oid);
    assert CanonicalTree(b.repo, b.h, e.oid);
  }

  /** A kid with a number, of a clean directory. */
  lemma CleanKidFacts(x: Stores, b: Build, d: nat, k: Kid)
    requires Ready(x, b) && Inv(b.s) && d in b.s.nodes && d !in b.dirty && k in KidsOf(b.repo, b.s, d) && k.id.Some?
    ensures
      var c := k.id.value;
      KidUnder(b.s, d, k) && c in b.s.nodes && c != ROOT && c !in b.dirty && c in x.vfs.nodes
        && b.s.nodes[c] == x.vfs.nodes[c]
      && x.vfs.nodes[c].parent == d && k.oid == x.vfs.nodes[c].oid && k == KidOf(b.s, c) && (k.oid == [] ==> k.isDir)
  {
    KidUnderBefore(x, b, d, k);
    CleanChild(x, b, d, k.id.value);
    Unstaged(x, b, k.id.value);
    assert Origin(b.repo, x.vfs, x.staging.sizes.Keys, k.id.value);
  }

  /** What the full rebuild writes for a kid of a clean directory: its own id, if any. */
  lemma CleanOidIs(x: Stores, b: Build, d: nat, k: Kid)
    requires Ready(x, b) && Inv(b.s) && d in b.s.nodes && d !in b.dirty && k in KidsOf(b.repo, b.s, d)
    requires k.id.Some? ==> KidUnder(b.s, d, k)
    requires k.isDir && k.id.Some? && k.oid != [] ==> Rebuilt(Full(b), k.id.value) == k.oid
    ensures NewOid(Full(b), d, k) == k.oid
  {
    var f := Full(b);
    if k.id.Some? { CleanKidFacts(x, b, d, k); }
    if k.isDir && k.id.Some? && k.id.value in f.dirty { DirtyOid(f, d, k); } else { CleanOid(f, d, k); }
  }

  /** What the full rebuild writes for a clean directory are the entries of its base tree. */
  lemma CleanMembers(x: Stores, b: Build, d: nat)
    requires Ready(x, b) && Inv(b.s) && d in b.s.nodes && d != ROOT && d !in b.dirty && b.s.nodes[d].isDir
    requires b.s.nodes[d].oid != []
    requires forall k | k in KidsOf(b.repo, b.s, d) && k.id.Some? :: KidUnder(b.s, d, k)
    requires forall k | k in KidsOf(b.repo, b.s, d) && k.isDir && k.id.Some?
      && k.oid != [] :: Rebuilt(Full(b), k.id.value) == k.oid
    ensures forall e :: e in NewEntries(Full(b), d) <==> e in EntriesOf(b.repo, b.s.nodes[d].oid)
  {
    var f, es := Full(b), EntriesOf(b.repo, b.s.nodes[d].oid);
    ReadyInv(x, b);
    Unstaged(x, b, d);
    NewEntriesAre(f, d);
    forall e ensures e in NewEntries(f, d) <==> e in es {
      if e in es {
        var k := CleanWritten(x, b, d, e);
        CleanOidIs(x, b, d, k);
        assert WrittenKid(f, d, k, e);
      }
      if e in NewEntries(f, d) {
        var k :| WrittenKid(f, d, k, e);
        CleanOidIs(x, b, d, k);
        CleanKidIn(x, b, d, k);
      }
    }
  }

  lemma CleanKidIn(x: Stores, b: Build, d: nat, k: Kid)
    requires Ready(x, b) && Inv(b.s) && d in b.s.nodes && d !in b.dirty && b.s.nodes[d].isDir
    requires k in KidsOf(b.repo, b.s, d) && k.oid != []
    ensures TreeEntry(k.mode, k.name, k.oid) in EntriesOf(b.repo, b.s.nodes[d].oid)
  {
    ReadyInv(x, b);
    Unstaged(x, b, d);
    if k.id.Some? {
      CleanKidFacts(x, b, d, k);
      CleanKid(x, b, d, k.id.value);
    } else {
      BaseKidIn(b, d, k);
    }
  }

  lemma BaseKidIn(b: Build, d: nat, k: Kid)
    requires d in b.s.nodes && k in KidsOf(b.repo, b.s, d) && k.id.None?
    ensures TreeEntry(k.mode, k.name, k.oid) in EntriesOf(b.repo, b.s.nodes[d].oid)
  {
    var es := EntriesOf(b.repo, b.s.nodes[d].oid);
    var i :| 0 <= i < |es| && BaseKids(es)[i] == k;
    assert es[i] in es;
  }

  /** After any run that only adds, over canonical base trees, the walk marks every directory
      whose tree is stale: pruning keeps the root id of the full rebuild. */
  lemma WalkCoversStale(x: Stores, b: Build)
    requires Ready(x, b)
    ensures Inv(b.s) && CoversStale(b) && Rebuilt(b, ROOT) == Rebuilt(Full(b), ROOT)
  {
    ReadyInv(x, b);
    forall id | id in b.s.nodes ensures UpToDate(b, id) {
      if b.s.nodes[id].isDir && b.s.nodes[id].oid != [] && id !in b.dirty {
        CleanEntries(x, b, id);
        CleanRebuilt(b, id);
      }
    }
    PruningKeepsRoot(b);
  }
}
