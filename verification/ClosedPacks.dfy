/** The pack that recovery builds from a log is closed over the base, whatever the log changes
    (src/wal/recovery.rs, `build_pack_from_recovered_state`). */
module ClosedPacks {
  import opened Basics
  import opened GitData
  import opened Inodes
  import opened TreeView
  import opened VfsInvariant
  import opened TreeBuilder
  import opened PackClosure
  import opened Sources
  import opened Wal
  import opened Recovery
  import opened StoreChanges
  import opened DirtyWalk
  import Population
  import ReplayProofs
  import Staging
  import P = PackFormat

  /** What `RebuildGitObjects` makes of the replayed stores `x`, with any dirty set. */
  ghost predicate Rebuilds(x: Stores, b: Build, blobs: Objects)
    requires Inv(WithBlobs(b.h, x.vfs, x.staging))
  {
    && b.s == Populate(b.repo, WithBlobs(b.h, x.vfs, x.staging), ROOT) && b.deleted == x.staging.deleted
    && HoldsBlobs(b.h, x.vfs, x.staging, blobs)
  }

  /** The dirty set is the one that the walk marks. */
  ghost predicate Walked(x: Stores, b: Build)
    requires Inv(WithBlobs(b.h, x.vfs, x.staging))
  {
    IsDirtySet(WithBlobs(b.h, x.vfs, x.staging), x.staging.sizes.Keys + x.staging.deleted, b.dirty)
  }

  lemma WalkMarksStaged(x: Stores, b: Build)
    requires Inv(WithBlobs(b.h, x.vfs, x.staging)) && Walked(x, b)
    ensures StagedDirsDirty(x.vfs, x.staging, b.dirty)
  {
    var t, ids := WithBlobs(b.h, x.vfs, x.staging), x.staging.sizes.Keys + x.staging.deleted;
    forall id | BecomesBlob(x.vfs, x.staging, id) && x.vfs.nodes[id].isDir ensures id in b.dirty {
      assert Rooted(t, id);
      assert id in Marked(t, id) && id in ids;
      assert MarkedBy(t, ids, id);
    }
  }

  /** After any log of applicable changes, deletions and renames among them, the emitted pack is
      closed over the base. With the walk's dirty set, and when no blob has the id of a rebuilt
      tree, a directory's entry names a tree and a file's a blob. */
  lemma ReplayedPackIsClosed(kinds: bool, root: Oid, log: seq<WalEntry>, cs: seq<Change>, b: Build, blobs: Objects)
    requires GoodRepo(b.repo) && BaseComplete(b.repo) && root in b.repo.trees
    requires Records(log, cs) && AllApplicable(BaseView(b.repo, root), cs)
    requires
      var x := Replay(b.repo, FreshStores(root), log).0;
      Inv(WithBlobs(b.h, x.vfs, x.staging)) && Rebuilds(x, b, blobs) && (kinds ==> Walked(x, b))
    requires Inv(b.s) && (kinds ==> TreesApart(b, blobs))
    ensures Replay(b.repo, FreshStores(root), log).1
    ensures
      var m := AddTrees(b, ROOT, blobs);
      && Keeps(kinds, blobs, m) && Closed(kinds, b.repo, m) && HasTree(b, m, Rebuilt(b, ROOT))
      && (kinds ==> TreesApart(b, m))
  {
    FreshShows(b.repo, root);
    ReplayProofs.ReplayShows(b.repo, FreshStores(root), log, cs);
    ReplaySourced(b.repo, root, log);
    var x := Replay(b.repo, FreshStores(root), log).0;
    if kinds { WalkMarksStaged(x, b); }
    PackIsClosed(kinds, root, x.vfs, x.staging, b, blobs);
  }

  /** Such graphs are there: both invariants hold of whatever the replay leaves. */
  lemma ReplayedCanRebuild(repo: Repo, h: P.Hash, root: Oid, log: seq<WalEntry>, cs: seq<Change>)
    requires GoodRepo(repo) && Records(log, cs) && AllApplicable(BaseView(repo, root), cs)
    ensures
      var x := Replay(repo, FreshStores(root), log).0;
      Inv(WithBlobs(h, x.vfs, x.staging)) && Inv(Populate(repo, WithBlobs(h, x.vfs, x.staging), ROOT))
  {
    FreshShows(repo, root);
    ReplayProofs.ReplayShows(repo, FreshStores(root), log, cs);
    var x := Replay(repo, FreshStores(root), log).0;
    WithBlobsInv(h, x.vfs, x.staging);
    Population.PopulateGrows(repo, WithBlobs(h, x.vfs, x.staging), ROOT);
  }
}
