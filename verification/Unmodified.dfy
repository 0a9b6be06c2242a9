/** When recovery builds no commit (src/wal/recovery.rs, `build_pack_from_recovered_state`; a
    blank path is not recorded as changed): then a commit would have shown nothing new. */
module Unmodified {
  import opened Basics
  import opened Paths
  import opened GitData
  import opened TreeView
  import opened VfsInvariant
  import opened Staging
  import opened Wal
  import opened Recovery
  import opened StoreChanges
  import opened Accretion
  import opened Reload
  import opened Modifications

  ghost predicate OnlyDirs(cs: seq<Change>) {
    forall c | c in cs :: c.MakeDir?
  }

  lemma {:induction false} NoMoves(v: View, cs: seq<Change>)
    requires AllAdd(v, cs)
    ensures forall c | c in cs :: !c.Move?
    decreases |cs|
  {
    if cs != [] {
      NoMoves(Apply(v, cs[0]), cs[1..]);
      assert forall c :: c in cs <==> c == cs[0] || c in cs[1..];
    }
  }

  /** A log of additions that leaves nothing to commit has only made directories. */
  lemma LeavesOnlyDirs(v: View, cs: seq<Change>)
    requires AllAdd(v, cs) && !AnyLeaves(cs)
    ensures OnlyDirs(cs)
  {
    NoMoves(v, cs);
    forall c | c in cs ensures c.MakeDir? { assert !Leaves(c); }
  }

  // ---- new directories alone do not survive

  /** `w` is `v` with some directories more. */
  ghost predicate MoreDirs(v: View, w: View) {
    (forall p | p in v :: p in w && w[p] == v[p]) && (forall p | p in w :: p in v || w[p].Dir?)
  }

  lemma {:induction false} OnlyDirsAdd(v: View, u: View, cs: seq<Change>)
    requires MoreDirs(v, u) && AllApplicable(u, cs) && OnlyDirs(cs)
    ensures MoreDirs(v, ApplyAll(u, cs))
    decreases |cs|
  {
    if cs != [] {
      assert cs[0] in cs;
      forall c | c in cs[1..] ensures c.MakeDir? { assert c in cs; }
      OnlyDirsAdd(v, Apply(u, cs[0]), cs[1..]);
    }
  }

  lemma {:induction false} BasePrefix(repo: Repo, root: Oid, p: Path, q: Path)
    requires p <= q && q in BaseView(repo, root)
    ensures p in BaseView(repo, root)
    decreases |q|
  {
    if p != q {
      assert q[..|q| - 1][..|p|] == p;
      BasePrefix(repo, root, p, q[..|q| - 1]);
    }
  }

  lemma DirsDoNotSurvive(repo: Repo, root: Oid, w: View)
    requires MoreDirs(BaseView(repo, root), w)
    ensures Surviving(w, BaseView(repo, root)) == BaseView(repo, root)
  {
    var v := BaseView(repo, root);
    forall p: Path ensures SameAtPath(Surviving(w, v), v, p) {
      if Survives(w, v, p) && p !in v {
        var q :| FileBelow(w, p, q);
        BasePrefix(repo, root, p, q);
      }
    }
    SameView(Surviving(w, v), v);
  }

  /** No modifications, no commit: and the base already shows what a commit would show. */
  lemma NothingToCommit(repo: Repo, root: Oid, log: seq<WalEntry>, cs: seq<Change>)
    requires GoodRepo(repo) && Records(log, cs) && AllAdd(BaseView(repo, root), cs)
    requires !HasModifications(Replay(repo, FreshStores(root), log).0.staging)
    ensures AllApplicable(BaseView(repo, root), cs) && !AnyLeaves(cs)
    ensures Surviving(ApplyAll(BaseView(repo, root), cs), BaseView(repo, root)) == BaseView(repo, root)
  {
    FreshShows(repo, root);
    AllAddApplicable(BaseView(repo, root), cs);
    ReplayModifies(repo, root, log, cs);
    LeavesOnlyDirs(BaseView(repo, root), cs);
    OnlyDirsAdd(BaseView(repo, root), BaseView(repo, root), cs);
    DirsDoNotSurvive(repo, root, ApplyAll(BaseView(repo, root), cs));
  }
}
