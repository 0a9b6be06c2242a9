/** Recovery from end to end: replay a log, rebuild the commit, and take it back into the
    engine (src/wal/mod.rs, src/wal/recovery.rs, src/git/mod.rs). */
module CommitRun {
  import opened Basics
  import opened GitData
  import opened Inodes
  import opened TreeView
  import opened VfsInvariant
  import opened TreeBuilder
  import opened PackClosure
  import opened Sources
  import opened Wal
  import opened Recovery
  import opened StoreChanges
  import opened Accretion
  import opened Origins
  import opened DirtyWalk
  import opened Recovered
  import opened Reload
  import opened CommitHolds
  import opened GitBuilder
  import opened Modifications
  import Population
  import ReplayProofs
  import ReplayWal
  import Unmodified
  import Staging
  import P = PackFormat
  import V = VfsManager
  import T = StagingStore

  // ---- the walk does not read ids

  lemma {:induction false} UpSetSame(s: Vfs, t: Vfs, id: nat, n: nat)
    requires s.nodes.Keys == t.nodes.Keys
    requires forall c | c in s.nodes :: t.nodes[c].parent == s.nodes[c].parent
    requires forall c | c in s.nodes ::
      t.nodes[c].isDir == s.nodes[c].isDir && t.nodes[c].deleted == s.nodes[c].deleted
    ensures UpSet(t, id, n) == UpSet(s, id, n)
    decreases n
  {
    if id in s.nodes && n > 0 { UpSetSame(s, t, s.nodes[id].parent, n - 1); }
  }

  lemma DirtySetSame(h: P.Hash, x: Stores, ids: set<nat>, dirty: set<nat>)
    requires Inv(x.vfs) && Inv(WithBlobs(h, x.vfs, x.staging)) && IsDirtySet(WithBlobs(h, x.vfs, x.staging), ids, dirty)
    ensures IsDirtySet(x.vfs, ids, dirty)
  {
    var s, t := x.vfs, WithBlobs(h, x.vfs, x.staging);
    forall id ensures Marked(t, id) == Marked(s, id) {
      if id in s.nodes {
        assert Rooted(s, id) && Rooted(t, id);
        Population.DepthKept(t, s, id, Depth(t, id));
        DepthUnique(s, id, Depth(s, id));
        UpSetSame(s, t, id, Depth(s, id));
      }
    }
    forall y: nat ensures MarkedBy(s, ids, y) <==> MarkedBy(t, ids, y) {
      if id :| id in ids && y in Marked(s, id) { assert y in Marked(t, id); }
      if id :| id in ids && y in Marked(t, id) { assert y in Marked(s, id); }
    }
  }

  // ---- the root is listed before it is rebuilt

  /** The stores with the root listed. */
  function Opened(repo: Repo, x: Stores): Stores {
    x.(vfs := Populate(repo, x.vfs, ROOT))
  }

  lemma {:induction false} CollectSame(s: Vfs, t: Vfs, d: nat, entries: Entries)
    requires t.childMap == s.childMap && t.next == s.next
    ensures Collect(t, d, entries) == Collect(s, d, entries)
    decreases |entries|
  {
    if entries != [] { CollectSame(s, t, d, entries[..|entries| - 1]); }
  }

  lemma OpenedGrows(repo: Repo, x: Stores)
    requires GroundedStores(repo, x) && PlainBase(repo)
    ensures GroundedStores(repo, Opened(repo, x)) && Shows(repo, Opened(repo, x)) == Shows(repo, x)
    ensures Population.Grown(repo, x.vfs, Opened(repo, x).vfs)
  {
    PopulateGrounds(repo, x.vfs, ROOT, x.staging.sizes.Keys);
    Population.PopulateGrows(repo, x.vfs, ROOT);
    GrownStores(repo, x, Populate(repo, x.vfs, ROOT));
  }

  /** Nothing that the batch adds is staged. */
  lemma BlobsApart(h: P.Hash, s: Vfs, o: Vfs, st: Staging.Staging, more: map<nat, Node>)
    requires o.nodes == s.nodes + more && (forall id | id in st.sizes :: id in s.nodes)
    requires forall id | id in s.nodes :: id !in more
    ensures WithBlobs(h, o, st).nodes == WithBlobs(h, s, st).nodes + more
  {
    forall id | id in o.nodes ensures WithBlob(h, o, st, id) == if id in more then more[id]
      else WithBlob(h, s, st, id) {
    }
  }

  /** Listing the root and giving files the ids of their blobs go in any order. */
  lemma OpenedIs(repo: Repo, h: P.Hash, x: Stores)
    requires GroundedStores(repo, x) && PlainBase(repo)
    ensures WithBlobs(h, Opened(repo, x).vfs, x.staging) == Populate(repo, WithBlobs(h, x.vfs, x.staging), ROOT)
  {
    var s, t := x.vfs, WithBlobs(h, x.vfs, x.staging);
    if ROOT !in s.dirChildren {
      var entries := EntriesOf(repo, s.nodes[ROOT].oid);
      CollectSame(s, t, ROOT, entries);
      CollectNew(s, ROOT, entries);
      BlobsApart(h, s, Opened(repo, x).vfs, x.staging, Collect(s, ROOT, entries).nodes);
    }
  }

  lemma {:induction false} CollectNew(s: Vfs, d: nat, entries: Entries)
    ensures Collect(s, d, entries).next >= s.next
    ensures forall id | id in Collect(s, d, entries).nodes :: s.next <= id < Collect(s, d, entries).next
    decreases |entries|
  {
    if entries != [] { CollectNew(s, d, entries[..|entries| - 1]); }
  }

  lemma OpenedAccrues(repo: Repo, x: Stores)
    requires AccruedStores(repo, x) && PlainBase(repo)
    ensures AccruedStores(repo, Opened(repo, x))
  {
    PopulateAccrues(repo, x.vfs, ROOT, x.staging.sizes.Keys);
    Population.PopulateGrows(repo, x.vfs, ROOT);
    GrownStores(repo, x, Populate(repo, x.vfs, ROOT));
  }

  /** What replaying a log of additions leaves. */
  lemma ReplayedStores(repo: Repo, h: P.Hash, root: Oid, log: seq<WalEntry>, cs: seq<Change>)
    requires CanonicalBase(repo, h) && root in repo.trees && Records(log, cs) && AllAdd(BaseView(repo, root), cs)
    ensures
      var (x, ok) := Replay(repo, FreshStores(root), log);
      ok && AccruedStores(repo, x) && AllApplicable(BaseView(repo, root), cs) &&
      Shows(repo, x) == ApplyAll(BaseView(repo, root), cs) && RootIs(Opened(repo, x).vfs, root)
  {
    FreshShows(repo, root);
    FreshAccrued(repo, root);
    AllAddApplicable(BaseView(repo, root), cs);
    ReplayProofs.ReplayShows(repo, FreshStores(root), log, cs);
    ReplayAccrues(repo, FreshStores(root), log, cs);
    ReplaySourced(repo, root, log);
    PopulateSourced(repo, root, Replay(repo, FreshStores(root), log).0.vfs, ROOT);
  }

  /** The builder's outcome is what `CommitHolds` speaks of. */
  lemma BuiltSolid(repo: Repo, h: P.Hash, x: Stores, b: Build, blobs: Objects)
    requires GroundedStores(repo, x) && CanonicalBase(repo, h)
    requires b == Build(repo, h, Populate(repo, WithBlobs(h, x.vfs, x.staging), ROOT), x.staging.deleted, b.dirty)
    requires HoldsBlobs(h, x.vfs, x.staging, blobs)
    ensures Solid(Opened(repo, x), b) && HoldsBlobs(h, Opened(repo, x).vfs, x.staging, blobs)
  {
    OpenedGrows(repo, x);
    OpenedIs(repo, h, x);
    var s, o := x.vfs, Opened(repo, x).vfs;
    forall id ensures BecomesBlob(o, x.staging, id) <==> BecomesBlob(s, x.staging, id) {
      if id in x.staging.sizes { assert id in s.nodes && o.nodes[id] == s.nodes[id]; }
    }
  }

  /** When the root has not been listed, nothing is staged. */
  lemma {:induction false} RootFirst(s: Vfs, id: nat, n: nat)
    requires Inv(s) && NoneDeleted(s) && AtDepth(s, id, n) && id != ROOT
    ensures ROOT in s.dirChildren
    decreases n
  {
    assert Live(s, id);
    if s.nodes[id].parent != ROOT { RootFirst(s, s.nodes[id].parent, n - 1); }
  }

  lemma NothingStaged(repo: Repo, x: Stores)
    requires AccruedStores(repo, x) && ROOT !in x.vfs.dirChildren
    ensures x.staging.sizes.Keys == {}
  {
    forall id | id in x.staging.sizes ensures false {
      assert Rooted(x.vfs, id);
      var n: nat :| AtDepth(x.vfs, id, n);
      forall c | c in x.vfs.nodes ensures !x.vfs.nodes[c].deleted {
        if c != ROOT { assert Origin(repo, x.vfs, x.staging.sizes.Keys, c); }
      }
      RootFirst(x.vfs, id, n);
    }
  }

  /** After additions, it is ready to be taken back. */
  lemma BuiltReady(repo: Repo, h: P.Hash, x: Stores, b: Build)
    requires AccruedStores(repo, x) && CanonicalBase(repo, h) && Inv(WithBlobs(h, x.vfs, x.staging))
    requires IsDirtySet(WithBlobs(h, x.vfs, x.staging), x.staging.sizes.Keys + x.staging.deleted, b.dirty)
    requires b.repo == repo && b.h == h && Solid(Opened(repo, x), b)
    ensures Ready(Opened(repo, x), b)
  {
    var ids := x.staging.sizes.Keys;
    assert ids + x.staging.deleted == ids;
    OpenedAccrues(repo, x);
    DirtySetSame(h, x, ids, b.dirty);
    if ROOT !in x.vfs.dirChildren {
      NothingStaged(repo, x);
      forall y: nat ensures !MarkedBy(x.vfs, ids, y) && !MarkedBy(Opened(repo, x).vfs, ids, y) {}
    }
  }

  /** The outcome of a commit, taken back: what the engine then holds shows, under its root,
      what survives of what the stores showed. */
  lemma TakenBack(repo: Repo, h: P.Hash, root: Oid, x: Stores, b: Build, commit: P.Obj, blobs: Objects,
                  objects: Objects)
    requires Ready(x, b) && Inv(b.s) && b.repo == repo && b.h == h && RootIs(x.vfs, root) && root in repo.trees
    requires IsCommit(x, b, commit, blobs, objects) && SoundBase(b, objects) && NoClash(x, b, commit)
    ensures BaseView(Applied(repo, objects), Rebuilt(b, ROOT)) == Surviving(Shows(repo, x), BaseView(repo, root))
  {
    ReadySolid(x, b);
    CommitThenReload(x, b, commit, blobs, objects, root);
  }

  /** `build_pack_from_recovered_state`: no commit when nothing was modified. */
  method BuildRecovered(vfs: V.VfsManager, staging: T.StagingStore, h: P.Hash, root: Oid, commitText: Oid -> bytes,
                        ghost x: Stores)
    returns (r: Option<(Oid, Oid, Objects)>, ghost b: Build, ghost blobs: Objects)
    requires x == ReplayWal.StoresIn(vfs, staging) && GroundedStores(vfs.repo, x) && CanonicalBase(vfs.repo, h)
    modifies vfs
    ensures r.None? <==> x.staging.sizes == map[] && x.staging.deleted == {} && x.staging.changed == {}
    ensures r.Some? ==>
      var (commitOid, rootOid, objects) := r.value;
      var commit := P.Obj(P.CommitKind, commitText(rootOid));
      && Solid(Opened(vfs.repo, x), b) && Inv(b.s) && b.repo == vfs.repo && b.h == h
      && rootOid == Rebuilt(b, ROOT) && commitOid == h(commit)
      && IsCommit(Opened(vfs.repo, x), b, commit, blobs, objects)
    ensures r.Some? && AccruedStores(vfs.repo, x) ==> Ready(Opened(vfs.repo, x), b) && CoversStale(b)
  {
    var modified := staging.HasModifications();
    if !modified {
      b, blobs := Build(vfs.repo, h, x.vfs, {}, {}), map[];
      return None, b, blobs;
    }
    var commitOid: Oid, rootOid: Oid, objects: Objects;
    commitOid, rootOid, objects, b, blobs := RebuildGitObjects(vfs, staging, h, commitText);
    BuiltSolid(vfs.repo, h, x, b, blobs);
    if AccruedStores(vfs.repo, x) {
      BuiltReady(vfs.repo, h, x, b);
      WalkCoversStale(Opened(vfs.repo, x), b);
    }
    return Some((commitOid, rootOid, objects)), b, blobs;
  }

  /** A commit is made exactly when some logged change leaves something. */
  lemma MadeExactly(repo: Repo, root: Oid, log: seq<WalEntry>, cs: seq<Change>, made: bool)
    requires GoodRepo(repo) && Records(log, cs) && AllApplicable(BaseView(repo, root), cs)
    requires made <==> Staging.HasModifications(Replay(repo, FreshStores(root), log).0.staging)
    ensures made <==> AnyLeaves(cs)
  {
    FreshShows(repo, root);
    ReplayModifies(repo, root, log, cs);
    if c :| c in cs && Leaves(c) { assert Leaves(c); }
  }

  /** What replaying a log leaves. */
  lemma ReplayedTame(repo: Repo, h: P.Hash, root: Oid, log: seq<WalEntry>, cs: seq<Change>)
    requires CanonicalBase(repo, h) && root in repo.trees && Records(log, cs) && AllTame(BaseView(repo, root), cs)
    ensures
      var (x, ok) := Replay(repo, FreshStores(root), log);
      ok && GroundedStores(repo, x) && AllApplicable(BaseView(repo, root), cs) &&
      Shows(repo, x) == ApplyAll(BaseView(repo, root), cs) && Shows(repo, Opened(repo, x)) == Shows(repo, x)
  {
    FreshShows(repo, root);
    FreshGrounded(repo, root);
    AllTameApplicable(BaseView(repo, root), cs);
    ReplayProofs.ReplayShows(repo, FreshStores(root), log, cs);
    ReplayGrounds(repo, FreshStores(root), log, cs);
    OpenedGrows(repo, Replay(repo, FreshStores(root), log).0);
  }

  /** What the hash is asked for: the base is as it says, and no two objects at hand clash. */
  ghost predicate NoAccident(x: Stores, b: Build, commit: P.Obj, objects: Objects)
    requires Inv(b.s)
  {
    SoundBase(b, objects) && NoClash(x, b, commit)
  }

  /** Replay a log, rebuild, and apply. The engine's root shows the files that the logged changes
      make if and only if every directory that is not rebuilt, but hangs from one that is, shows
      the files of the tree that it carries. After additions it shows the tree of paths that
      they make, minus new directories without a file, whether or not a commit was made. */
  method RecoverAndCommit(repo: Repo, h: P.Hash, head: Oid, root: Oid, log: seq<WalEntry>, commitText: Oid -> bytes,
                          ghost cs: seq<Change>)
    returns (engine: GitEngine, objects: Objects, made: bool, ghost b: Build)
    requires CanonicalBase(repo, h) && root in repo.trees && Records(log, cs) && AllTame(BaseView(repo, root), cs)
    ensures fresh(engine) && AllApplicable(BaseView(repo, root), cs)
    ensures made <==> AnyLeaves(cs)
    ensures made ==>
      engine.State() == Applied(repo, objects) && Inv(b.s) && engine.rootTreeOid == Rebuilt(b, ROOT)
    ensures made ==> engine.commitOid == h(P.Obj(P.CommitKind, commitText(engine.rootTreeOid)))
    ensures !made ==> engine.State() == repo && engine.rootTreeOid == root && engine.commitOid == head
    ensures
      var x := Opened(repo, Replay(repo, FreshStores(root), log).0);
      made && NoAccident(x, b, P.Obj(P.CommitKind, commitText(engine.rootTreeOid)), objects) ==>
      (SameFiles(BaseView(engine.State(), engine.rootTreeOid), ApplyAll(BaseView(repo, root), cs)) <==>
       AllCurrent(x, b))
    ensures
      var x := Opened(repo, Replay(repo, FreshStores(root), log).0);
      AllAdd(BaseView(repo, root), cs)
      && (made ==> NoAccident(x, b, P.Obj(P.CommitKind, commitText(engine.rootTreeOid)), objects)) ==>
      BaseView(engine.State(), engine.rootTreeOid) ==
        Surviving(ApplyAll(BaseView(repo, root), cs), BaseView(repo, root))
  {
    ReplayedTame(repo, h, root, log, cs);
    var vfs := new V.VfsManager(repo, root);
    var staging := new T.StagingStore();
    var ok := ReplayWal.ReplayWalEntries(log, vfs, staging);
    ghost var x := ReplayWal.StoresIn(vfs, staging);
    engine := new GitEngine(repo, head, root);
    var r: Option<(Oid, Oid, Objects)>;
    ghost var blobs: Objects;
    r, b, blobs := BuildRecovered(vfs, staging, h, root, commitText, x);
    MadeExactly(repo, root, log, cs, r.Some?);
    made, objects := r.Some?, map[];
    if made {
      objects := r.value.2;
      engine.ApplyRecoveredObjects(r.value.0, r.value.1, objects);
      ghost var commit := P.Obj(P.CommitKind, commitText(r.value.1));
      if NoAccident(Opened(repo, x), b, commit, objects) {
        CommitHoldsExactly(Opened(repo, x), b, commit, blobs, objects);
        if AllAdd(BaseView(repo, root), cs) {
          ReplayedStores(repo, h, root, log, cs);
          TakenBack(repo, h, root, Opened(repo, x), b, commit, blobs, objects);
        }
      }
    } else if AllAdd(BaseView(repo, root), cs) {
      Unmodified.NothingToCommit(repo, root, log, cs);
    }
  }
}
