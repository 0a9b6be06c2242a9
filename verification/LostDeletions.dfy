/** Sessions that only remove: a removal is committed exactly when it takes away a whole entry of
    the root directory. */
module LostDeletions {
  import opened Basics
  import opened Paths
  import opened GitData
  import opened Inodes
  import opened TreeView
  import opened VfsInvariant
  import opened Population
  import opened TreeBuilder
  import opened Sources
  import opened PackClosure
  import opened Wal
  import opened Recovery
  import opened StoreChanges
  import opened ReplayProofs
  import opened Accretion
  import opened DirtyWalk
  import opened Origins
  import opened Recovered
  import opened Reload
  import opened CommitHolds
  import opened CommitRun
  import P = PackFormat

  // ---- the walk from deleted inodes

  /** The walk marks nothing for an inode that is gone: it does not get to its directory. */
  lemma DeletedMarkNothing(s: Vfs, ids: set<nat>, dirty: set<nat>)
    requires Inv(s) && IsDirtySet(s, ids, dirty)
    requires forall id | id in ids && id in s.nodes :: s.nodes[id].deleted
    ensures dirty == {ROOT}
  {
    forall id | id in ids ensures Marked(s, id) == {} {
      if id in s.nodes { assert Rooted(s, id); }
    }
    assert forall x: nat :: !MarkedBy(s, ids, x);
    assert forall x :: x in dirty <==> x == ROOT;
  }

  // ---- every inode stands where the base has it

  ghost predicate InPlace(repo: Repo, s: Vfs, id: nat) {
    && id in s.nodes && s.nodes[id].oid != [] && s.nodes[id].parent in s.nodes
    && FindEntry(EntriesOf(repo, s.nodes[s.nodes[id].parent].oid), s.nodes[id].name) ==
         Some(TreeEntry(s.nodes[id].mode, s.nodes[id].name, s.nodes[id].oid))
  }

  ghost predicate AllInPlace(repo: Repo, s: Vfs) {
    forall id {:trigger InPlace(repo, s, id)} | id in s.nodes && id != ROOT :: InPlace(repo, s, id)
  }

  /** What is true of a graph and stays true when directories are populated. */
  type Kept = Vfs -> bool

  ghost predicate Stays(repo: Repo, keeps: Kept) {
    forall s, d | Inv(s) && keeps(s) :: keeps(Populate(repo, s, d))
  }

  lemma LookupStays(repo: Repo, s: Vfs, d: nat, n: Name, keeps: Kept)
    requires Inv(s) && keeps(s) && Stays(repo, keeps)
    ensures keeps(Lookup(repo, s, d, n).0)
  {
  }

  /** Looking up a path only populates. */
  lemma {:induction false} PartsStay(repo: Repo, s: Vfs, from: nat, parts: seq<bytes>, keeps: Kept)
    requires Inv(s) && GoodRepo(repo) && keeps(s) && Stays(repo, keeps)
    ensures keeps(LookupParts(repo, s, from, parts).0)
    decreases |parts|
  {
    if parts != [] {
      if parts[0] == [] || parts[0] == DOT {
        PartsStay(repo, s, from, parts[1..], keeps);
      } else {
        LookupStays(repo, s, from, parts[0], keeps);
        PopulateGrows(repo, s, from);
        var (s1, child) := Lookup(repo, s, from, parts[0]);
        if child.Some? { PartsStay(repo, s1, child.value, parts[1..], keeps); }
      }
    }
  }

  /** So does finding the parents of a path that leads somewhere. */
  lemma {:induction false} DirsStay(repo: Repo, s: Vfs, p: Path, q: Path, keeps: Kept)
    requires Inv(s) && GoodRepo(repo) && keeps(s) && Stays(repo, keeps)
    requires Walk(repo, s, p).At? && GoodPath(q) && !Walk(repo, s, p + q).Gone?
    ensures keeps(EnsureDirs(repo, s, Walk(repo, s, p).id, q).0)
    decreases |q|
  {
    if q != [] {
      var d, n, rest := Walk(repo, s, p).id, q[0], q[1..];
      GoodTail(q);
      assert p + q == (p + [n]) + rest;
      PrefixLeads(repo, s, p + [n], p + q);
      LookupFinds(repo, s, p, n);
      LookupStays(repo, s, d, n, keeps);
      var s1 := Lookup(repo, s, d, n).0;
      GrownAt(repo, s, s1, p + q);
      DirsStay(repo, s1, p + [n], rest, keeps);
    }
  }

  lemma {:induction false} PrefixLeads(repo: Repo, s: Vfs, p: Path, q: Path)
    requires p <= q && !Walk(repo, s, q).Gone?
    ensures !Walk(repo, s, p).Gone?
    decreases |q|
  {
    if p != q {
      var q0 := q[..|q| - 1];
      assert q0[..|p|] == p;
      PrefixLeads(repo, s, p, q0);
    }
  }

  lemma ParentStays(repo: Repo, s: Vfs, p: Path, keeps: Kept)
    requires Inv(s) && GoodRepo(repo) && keeps(s) && Stays(repo, keeps)
    requires p != [] && GoodPath(p) && !Walk(repo, s, p[..|p| - 1]).Gone?
    ensures keeps(EnsureParentDirs(repo, s, Join(p)).0)
  {
    var p0 := p[..|p| - 1];
    ParseJoin(p);
    SplitLast(p);
    GoodSnoc(p0, p[|p| - 1]);
    assert [] + p0 == p0;
    DirsStay(repo, s, [], p0, keeps);
  }

  lemma PathStays(repo: Repo, s: Vfs, p: Path, keeps: Kept)
    requires Inv(s) && GoodRepo(repo) && keeps(s) && Stays(repo, keeps) && p != [] && GoodPath(p)
    ensures keeps(LookupPath(repo, s, Join(p)).0)
  {
    ParseJoin(p);
    PartsStay(repo, s, ROOT, p, keeps);
  }

  lemma BatchInPlace(repo: Repo, s: Vfs, d: nat, b: Batch, id: nat)
    requires Waiting(s, d) && PlainBase(repo) && id in b.nodes
    requires PopulatedBy(s, Populate(repo, s, d), d, EntriesOf(repo, s.nodes[d].oid), b)
    ensures InPlace(repo, Populate(repo, s, d), id)
  {
    var entries := EntriesOf(repo, s.nodes[d].oid);
    var e := FindEntry(entries, b.nodes[id].name).value;
    assert e in entries;
  }

  lemma PopulateInPlace(repo: Repo, s: Vfs, d: nat)
    requires Inv(s) && PlainBase(repo) && AllInPlace(repo, s)
    ensures AllInPlace(repo, Populate(repo, s, d))
  {
    if CanPopulate(s, d) && d !in s.dirChildren {
      var t, entries := Populate(repo, s, d), EntriesOf(repo, s.nodes[d].oid);
      var b := Collect(s, d, entries);
      CollectAll(s, d, entries);
      CollectNumbered(s, d, entries);
      CollectIds(s, d, entries);
      forall id | id in t.nodes && id != ROOT ensures InPlace(repo, t, id) {
        if id in b.nodes { BatchInPlace(repo, s, d, b, id); } else { assert InPlace(repo, s, id); }
      }
    }
  }

  ghost function InPlaceIn(repo: Repo): Kept {
    s => AllInPlace(repo, s)
  }

  lemma InPlaceStays(repo: Repo)
    requires PlainBase(repo)
    ensures Stays(repo, InPlaceIn(repo))
  {
    forall s, d | Inv(s) && AllInPlace(repo, s) ensures AllInPlace(repo, Populate(repo, s, d)) {
      PopulateInPlace(repo, s, d);
    }
  }

  lemma RemoveInPlace(repo: Repo, s: Vfs, d: nat, n: Name)
    requires Inv(s) && PlainBase(repo) && AllInPlace(repo, s)
    ensures AllInPlace(repo, Remove(repo, s, d, n).0)
  {
    PopulateInPlace(repo, s, d);
    var s1, s2 := Populate(repo, s, d), Remove(repo, s, d, n).0;
    forall id | id in s2.nodes && id != ROOT ensures InPlace(repo, s2, id) { assert InPlace(repo, s1, id); }
  }

  // ---- replaying removals

  /** Removals only: nothing is staged, and every inode is where the base has it. */
  ghost predicate Pruned(repo: Repo, root: Oid, x: Stores) {
    StoresOk(x) && RootIs(x.vfs, root) && AllInPlace(repo, x.vfs) && x.staging.sizes == map[]
  }

  lemma RemoveRoot(repo: Repo, s: Vfs, d: nat, n: Name)
    requires Inv(s) && GoodRepo(repo)
    ensures ROOT in Remove(repo, s, d, n).0.nodes && Remove(repo, s, d, n).0.nodes[ROOT].oid == s.nodes[ROOT].oid
  {
    PopulateGrows(repo, s, d);
  }

  lemma RemovePrunes(repo: Repo, root: Oid, x: Stores, p: Path)
    requires Pruned(repo, root, x) && PlainBase(repo) && Applicable(Shows(repo, x), Delete(p))
    ensures Pruned(repo, root, ReplayRemove(repo, x, Join(p)))
  {
    FindPath(repo, x, p);
    var s1 := LookupPath(repo, x.vfs, Join(p)).0;
    var x1 := x.(vfs := s1);
    InPlaceStays(repo);
    PathStays(repo, x.vfs, p, InPlaceIn(repo));
    ParentIsSeen(repo, x1, p);
    FindParent(repo, x1, p);
    GoneUnseen(repo, x1, p[..|p| - 1]);
    ParentStays(repo, s1, p, InPlaceIn(repo));
    var (s2, place) := EnsureParentDirs(repo, s1, Join(p));
    RemoveInPlace(repo, s2, place.value.0, place.value.1);
    RemoveRoot(repo, s2, place.value.0, place.value.1);
    ReplayRemoveShows(repo, x, p);
  }

  ghost predicate OnlyDeletions(cs: seq<Change>) {
    forall c | c in cs :: c.Delete?
  }

  lemma {:induction false} ReplayPrunes(repo: Repo, root: Oid, log: seq<WalEntry>, cs: seq<Change>)
    requires PlainBase(repo) && Records(log, cs) && OnlyDeletions(cs) && AllApplicable(BaseView(repo, root), cs)
    ensures Replay(repo, FreshStores(root), log).1 && Pruned(repo, root, Replay(repo, FreshStores(root), log).0)
    decreases |log|
  {
    FreshShows(repo, root);
    if log != [] {
      var front, last := log[..|log| - 1], log[|log| - 1];
      if last.payload.None? || last.payload.value.Header? {
        ReplayPrunes(repo, root, front, cs);
      } else {
        var cs0, c := cs[..|cs| - 1], cs[|cs| - 1];
        SplitLast(cs);
        assert c in cs && forall d | d in cs0 :: d in cs;
        ApplicableSplit(BaseView(repo, root), cs0, c);
        ReplayPrunes(repo, root, front, cs0);
        ReplayShows(repo, FreshStores(root), front, cs0);
        StepPrunes(repo, root, Replay(repo, FreshStores(root), front).0, last.number, c);
      }
    }
  }

  lemma StepPrunes(repo: Repo, root: Oid, x: Stores, number: nat, c: Change)
    requires Pruned(repo, root, x) && PlainBase(repo) && Applicable(Shows(repo, x), c) && c.Delete?
    ensures
      var (x2, ok) := ReplayEntry(repo, x, WalEntry(number, Some(Printed(c))));
      ok && Pruned(repo, root, x2)
  {
    EntryIsChange(repo, x, number, c);
    RecordedShows(repo, x, c);
    RemovePrunes(repo, root, RecordedStores(x, c), c.path);
  }

  // ---- what the graph and the base say of a path

  /** A path that leads to an inode leads to what that is in the base. */
  lemma {:induction false} WalkInPlace(repo: Repo, root: Oid, s: Vfs, p: Path)
    requires Inv(s) && RootIs(s, root) && AllInPlace(repo, s) && Walk(repo, s, p).At?
    ensures
      var c := Walk(repo, s, p).id;
      c in s.nodes && BaseWalk(repo, root, p) == Base(s.nodes[c].mode, s.nodes[c].oid)
    decreases |p|
  {
    WalkAt(repo, s, p);
    if p != [] {
      var p0, n, c := p[..|p| - 1], p[|p| - 1], Walk(repo, s, p).id;
      WalkInPlace(repo, root, s, p0);
      var d := Walk(repo, s, p0).id;
      assert IsChild(s, c, d, n) && InPlace(repo, s, c);
    }
  }

  lemma {:induction false} BaseWalkBelow(repo: Repo, root: Oid, p: Path, q: Path, oid: Oid)
    requires BaseWalk(repo, root, p) == Base(Directory, oid)
    ensures BaseWalk(repo, root, p + q) == BaseWalk(repo, oid, q)
    decreases |q|
  {
    if q == [] {
      assert p + q == p;
    } else {
      var q0, n := q[..|q| - 1], q[|q| - 1];
      BaseWalkBelow(repo, root, p, q0, oid);
      SplitLast(q);
      assert p + q == (p + q0) + [n];
      BaseWalkSnoc(repo, root, p + q0, n);
      BaseWalkSnoc(repo, oid, q0, n);
    }
  }

  lemma BaseFilesBelow(repo: Repo, root: Oid, p: Path, q: Path, oid: Oid)
    requires BaseWalk(repo, root, p) == Base(Directory, oid)
    ensures FileAt(BaseView(repo, root), p + q) == FileAt(BaseView(repo, oid), q)
  {
    BaseWalkBelow(repo, root, p, q, oid);
    BaseFileAt(repo, root, p + q);
    BaseFileAt(repo, oid, q);
  }

  /** Removals leave what they do not take away as it was. */
  lemma {:induction false} DeletionsLeave(v: View, cs: seq<Change>, p: Path)
    requires OnlyDeletions(cs) && AllApplicable(v, cs) && p in ApplyAll(v, cs)
    ensures p in v && ApplyAll(v, cs)[p] == v[p]
    decreases |cs|
  {
    if cs != [] {
      assert cs[0] in cs && forall c | c in cs[1..] :: c in cs;
      DeletionsLeave(Apply(v, cs[0]), cs[1..], p);
    }
  }

  // ---- the theorem

  /** The file was in the base, and has been removed. */
  ghost predicate LostFile(base: View, v: View, p: Path) {
    FileAt(base, p).Some? && FileAt(v, p).None?
  }

  /** The opened stores after removals, and a build that has only the root to rebuild. */
  ghost predicate OnlyRootDirty(root: Oid, x: Stores, b: Build) {
    && Solid(x, b) && Inv(b.s) && b.dirty == {ROOT} && ROOT in x.vfs.dirChildren
    && RootIs(x.vfs, root) && AllInPlace(b.repo, x.vfs)
  }

  lemma {:induction false} OnlyRootRebuilt(root: Oid, x: Stores, b: Build, p: Path)
    requires OnlyRootDirty(root, x, b) && CommitWalk(b, p).At?
    ensures p == [] && CommitWalk(b, p) == At(ROOT)
    decreases |p|
  {
    if p != [] {
      OnlyRootRebuilt(root, x, b, p[..|p| - 1]);
    }
  }

  /** A top-level directory that is still there is not rebuilt, and carries its base tree. */
  lemma TopIsCarried(root: Oid, x: Stores, b: Build, n: Name)
    requires OnlyRootDirty(root, x, b) && [n] in Shows(b.repo, x) && Shows(b.repo, x)[[n]].Dir?
    ensures
      var c := Unmarked(b, [n]);
      c.Some? && c.value in b.s.nodes && BaseWalk(b.repo, root, [n]) == Base(Directory, b.s.nodes[c.value].oid)
  {
    var v := x.vfs;
    GoneUnseen(b.repo, x, [n]);
    assert [n][..0] == [];
    assert Walk(b.repo, v, [n]) == Child(b.repo, v, At(ROOT), n);
    var c := v.childMap[(ROOT, n)];
    assert IsChild(v, c, ROOT, n) && Walk(b.repo, v, [n]) == At(c);
    WalkInPlace(b.repo, root, v, [n]);
    assert Seen(b.repo, v, x.staging.files, [n]).Some? && Shows(b.repo, x)[[n]] ==
      NodeEntry(b.repo, v, x.staging.files, c);
    DirSourced(x, b, c);
    assert CommitWalk(b, []) == At(ROOT);
  }

  /** And no other directory is met that is not rebuilt. */
  lemma CarriedIsTop(root: Oid, x: Stores, b: Build, p: Path)
    requires OnlyRootDirty(root, x, b) && Unmarked(b, p).Some?
    ensures |p| == 1 && p in Shows(b.repo, x) && Shows(b.repo, x)[p].Dir?
  {
    var p0, n := p[..|p| - 1], p[|p| - 1];
    OnlyRootRebuilt(root, x, b, p0);
    SplitLast(p);
    var c := b.s.childMap[(ROOT, n)];
    assert IsChild(x.vfs, x.vfs.childMap[(ROOT, n)], ROOT, n);
    assert Walk(b.repo, x.vfs, p) == At(c);
    assert Seen(b.repo, x.vfs, x.staging.files, p).Some?;
    DirSourced(x, b, c);
  }

  /** No file was removed from below a top-level entry that is still there. */
  ghost predicate WholeEntries(base: View, v: View) {
    forall p: Path | p != [] && LostFile(base, v, p) :: [p[0]] !in v
  }

  lemma TopCurrent(root: Oid, x: Stores, b: Build, n: Name, q: Path)
    requires OnlyRootDirty(root, x, b) && [n] in Shows(b.repo, x) && Shows(b.repo, x)[[n]].Dir?
    ensures
      var c := Unmarked(b, [n]);
      && c.Some? && c.value in b.s.nodes
      && FileAt(BaseView(b.repo, b.s.nodes[c.value].oid), q) == FileAt(BaseView(b.repo, root), [n] + q)
      && FileAt(SubView(Shows(b.repo, x), [n]), q) == FileAt(Shows(b.repo, x), [n] + q)
  {
    TopIsCarried(root, x, b, n);
    BaseFilesBelow(b.repo, root, [n], q, b.s.nodes[Unmarked(b, [n]).value].oid);
  }

  /** What is shown was in the base. */
  ghost predicate LeftOf(v: View, base: View) {
    forall p | p in v :: p in base && v[p] == base[p]
  }

  /** Below an entry that is still there, nothing was lost. */
  lemma WholeAt(base: View, v: View, n: Name, q: Path)
    requires LeftOf(v, base) && WholeEntries(base, v) && [n] in v
    ensures FileAt(v, [n] + q) == FileAt(base, [n] + q)
  {
    var p := [n] + q;
    assert p != [] && p[0] == n;
    if FileAt(base, p).Some? && FileAt(v, p).None? { assert LostFile(base, v, p); }
  }

  lemma WholeIsCurrent(root: Oid, x: Stores, b: Build, p: Path)
    requires OnlyRootDirty(root, x, b) && LeftOf(Shows(b.repo, x), BaseView(b.repo, root))
    requires WholeEntries(BaseView(b.repo, root), Shows(b.repo, x))
    ensures Current(x, b, p)
  {
    if Unmarked(b, p).Some? {
      CarriedIsTop(root, x, b, p);
      assert p == [p[0]];
      TopIsCarried(root, x, b, p[0]);
      var tree := BaseView(b.repo, b.s.nodes[Unmarked(b, p).value].oid);
      forall q: Path ensures FileAt(SubView(Shows(b.repo, x), p), q) == FileAt(tree, q) {
        TopCurrent(root, x, b, p[0], q);
        WholeAt(BaseView(b.repo, root), Shows(b.repo, x), p[0], q);
      }
    }
  }

  lemma CurrentTop(root: Oid, x: Stores, b: Build, n: Name, q: Path)
    requires OnlyRootDirty(root, x, b) && Current(x, b, [n])
    requires [n] in Shows(b.repo, x) && Shows(b.repo, x)[[n]].Dir?
    ensures FileAt(Shows(b.repo, x), [n] + q) == FileAt(BaseView(b.repo, root), [n] + q)
  {
    TopCurrent(root, x, b, n, q);
  }

  lemma NotLostBelow(base: View, v: View, n: Name, q: Path)
    requires LeftOf(v, base) && [n] in v
    requires v[[n]].Dir? ==> FileAt(v, [n] + q) == FileAt(base, [n] + q)
    requires v[[n]].File? && q != [] ==> [n] + q !in base
    ensures !LostFile(base, v, [n] + q)
  {
    if q == [] { assert [n] + q == [n]; }
  }

  lemma CurrentIsWhole(root: Oid, x: Stores, b: Build, n: Name, q: Path)
    requires OnlyRootDirty(root, x, b) && LeftOf(Shows(b.repo, x), BaseView(b.repo, root)) && AllCurrent(x, b)
    requires [n] in Shows(b.repo, x)
    ensures !LostFile(BaseView(b.repo, root), Shows(b.repo, x), [n] + q)
  {
    var base, v := BaseView(b.repo, root), Shows(b.repo, x);
    assert v[[n]] == base[[n]];
    if v[[n]].Dir? { CurrentTop(root, x, b, n, q); } else { FileHasNoneBelow(b.repo, root, n, q); }
    NotLostBelow(base, v, n, q);
  }

  lemma {:induction false} FileHasNoneBelow(repo: Repo, root: Oid, n: Name, q: Path)
    requires [n] in BaseView(repo, root) && BaseView(repo, root)[[n]].File?
    ensures q != [] ==> [n] + q !in BaseView(repo, root)
    decreases |q|
  {
    if q != [] {
      var q0 := q[..|q| - 1];
      SplitLast(q);
      assert ([n] + q)[..|q|] == [n] + q0;
      if q0 == [] { assert [n] + q0 == [n]; } else { FileHasNoneBelow(repo, root, n, q0); }
    }
  }

  /** What the replay of removals and the walk over what it leaves come to. */
  lemma RemovalsReady(root: Oid, log: seq<WalEntry>, cs: seq<Change>, x: Stores, b: Build)
    requires CanonicalBase(b.repo, b.h) && root in b.repo.trees && Records(log, cs) && OnlyDeletions(cs)
    requires AllTame(BaseView(b.repo, root), cs)
    requires x == Opened(b.repo, Replay(b.repo, FreshStores(root), log).0) && Solid(x, b) && Inv(b.s)
    requires IsDirtySet(x.vfs, x.staging.sizes.Keys + x.staging.deleted, b.dirty)
    ensures OnlyRootDirty(root, x, b) && AllApplicable(BaseView(b.repo, root), cs)
    ensures Shows(b.repo, x) == ApplyAll(BaseView(b.repo, root), cs)
    ensures LeftOf(Shows(b.repo, x), BaseView(b.repo, root))
  {
    AllTameApplicable(BaseView(b.repo, root), cs);
    ReplayPrunes(b.repo, root, log, cs);
    ReplayedTame(b.repo, b.h, root, log, cs);
    var y := Replay(b.repo, FreshStores(root), log).0;
    PopulateInPlace(b.repo, y.vfs, ROOT);
    PopulateGrows(b.repo, y.vfs, ROOT);
    DeletedMarkNothing(x.vfs, x.staging.sizes.Keys + x.staging.deleted, b.dirty);
    forall p | p in Shows(b.repo, x) ensures p in BaseView(b.repo, root) && Shows(b.repo, x)[p] == BaseView(b.repo,
      root)[p] {
      DeletionsLeave(BaseView(b.repo, root), cs, p);
    }
  }

  lemma HeadTail(base: View, v: View, p: Path)
    requires p != [] && LostFile(base, v, p) && ([p[0]] in v ==> !LostFile(base, v, [p[0]] + p[1..]))
    ensures [p[0]] !in v
  {
    assert p == [p[0]] + p[1..];
  }

  lemma WholeExactly(root: Oid, x: Stores, b: Build)
    requires OnlyRootDirty(root, x, b) && LeftOf(Shows(b.repo, x), BaseView(b.repo, root))
    ensures AllCurrent(x, b) <==> WholeEntries(BaseView(b.repo, root), Shows(b.repo, x))
  {
    var base, v := BaseView(b.repo, root), Shows(b.repo, x);
    if AllCurrent(x, b) {
      forall p: Path | p != [] && LostFile(base, v, p) ensures [p[0]] !in v {
        if [p[0]] in v { CurrentIsWhole(root, x, b, p[0], p[1..]); }
        HeadTail(base, v, p);
      }
    }
    if WholeEntries(base, v) {
      forall p: Path ensures Current(x, b, p) { WholeIsCurrent(root, x, b, p); }
    }
  }

  /** After a log of removals only, the commit holds exactly the files that are left if and only if
      no file was removed from below a top-level entry that is still there. */
  lemma RemovalsCommitted(root: Oid, log: seq<WalEntry>, cs: seq<Change>, x: Stores, b: Build, commit: P.Obj,
                          blobs: Objects, m: Objects)
    requires root in b.repo.trees && Records(log, cs) && OnlyDeletions(cs) && AllTame(BaseView(b.repo, root), cs)
    requires x == Opened(b.repo, Replay(b.repo, FreshStores(root), log).0) && After(x, b, commit, blobs, m)
    requires IsDirtySet(x.vfs, x.staging.sizes.Keys + x.staging.deleted, b.dirty)
    ensures AllApplicable(BaseView(b.repo, root), cs)
    ensures
      var base, left := BaseView(b.repo, root), ApplyAll(BaseView(b.repo, root), cs);
      SameFiles(CommittedView(b, m), left) <==> WholeEntries(base, left)
  {
    RemovalsReady(root, log, cs, x, b);
    CommitHoldsExactly(x, b, commit, blobs, m);
    WholeExactly(root, x, b);
  }

  /** So the removal of one file is committed exactly when it lay in the root directory. */
  lemma OneFileRemoved(base: View, p: Path)
    requires p != [] && FileAt(base, p).Some? && [p[0]] in base
    ensures WholeEntries(base, Deleted(base, p)) <==> |p| == 1
  {
    var left := Deleted(base, p);
    assert FileAt(left, p).None?;
    if |p| == 1 {
      assert p == [p[0]];
      forall q: Path | q != [] && FileAt(base, q).Some? && FileAt(left, q).None? ensures [q[0]] !in left {
        assert p <= q && q[0] == p[0];
      }
    } else {
      assert !(p <= [p[0]]);
      assert [p[0]] in left;
    }
  }
}
