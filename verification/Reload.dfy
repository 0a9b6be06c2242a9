/** Commit, apply, reopen: the tree of paths that a fresh graph over the new root shows is the
    one that was committed, but for new directories in which no file lies. */
module Reload {
  import opened Basics
  import opened Paths
  import opened GitData
  import opened Inodes
  import opened TreeView
  import opened VfsInvariant
  import opened TreeBuilder
  import opened TreeOrder
  import opened Sources
  import opened PackClosure
  import opened Recovery
  import opened StoreChanges
  import opened Accretion
  import opened DirtyWalk
  import opened Recovered
  import P = PackFormat

  /** The commit of a run of additions. */
  ghost predicate AddedAfter(x: Stores, b: Build, commit: P.Obj, blobs: Objects, m: Objects) {
    Ready(x, b) && After(x, b, commit, blobs, m)
  }

  // ---- finding entries

  lemma FindsIn(es: Entries, e: TreeEntry)
    requires DistinctNames(es) && e in es
    ensures FindEntry(es, e.name) == Some(e)
  {
    var i :| 0 <= i < |es| && es[i] == e;
    FindEntryAt(es, i);
  }

  // ---- directories that a commit leaves out

  /** A directory without an id in which nothing is staged. */
  ghost predicate Dropped(b: Build, c: nat) {
    c in b.s.nodes && b.s.nodes[c].isDir && b.s.nodes[c].oid == [] && c !in b.dirty
  }

  /** The id under which node `c` is found afterwards. */
  ghost function FinalOid(b: Build, c: nat): Oid
    requires Inv(b.s) && c in b.s.nodes
  {
    if b.s.nodes[c].isDir && c in b.dirty then Rebuilt(b, c) else b.s.nodes[c].oid
  }

  /** Where a path leads before (`l`) and after (`l2`). */
  ghost predicate Matches(b: Build, m: Objects, l: Loc, l2: Loc)
    requires Inv(b.s)
  {
    match l
    case Gone => l2.Gone?
    case Base(mode, oid) => l2 == l && (mode.Directory? ==> oid in b.repo.trees)
    case At(c) =>
      c in b.s.nodes &&
      if Dropped(b, c) then l2.Gone?
      else l2 == Base(b.s.nodes[c].mode, FinalOid(b, c)) && (b.s.nodes[c].isDir && c in b.dirty ==> Delivered(b, c, m))
  }

  /** One step of a walk through committed trees. */
  function BaseStep(repo: Repo, l: Loc, n: Name): Loc {
    match l
    case Base(Directory, oid) => BaseChild(repo, oid, n)
    case _ => Gone
  }

  lemma BaseWalkSnoc(repo: Repo, root: Oid, p: Path, n: Name)
    ensures BaseWalk(repo, root, p + [n]) == BaseStep(repo, BaseWalk(repo, root, p), n)
  {
    assert (p + [n])[..|p|] == p;
  }

  /** A child in a base tree: complete bases lead on to their own trees. */
  lemma BaseChildMatches(x: Stores, b: Build, commit: P.Obj, blobs: Objects, m: Objects, oid: Oid, n: Name)
    requires AddedAfter(x, b, commit, blobs, m) && (oid in b.repo.trees || oid == [])
    ensures oid != [] ==> Matches(b, m, BaseChild(b.repo, oid, n), BaseChild(Applied(b.repo, m), oid, n))
    ensures oid == [] ==> BaseChild(b.repo, oid, n).Gone?
  {
    if oid in b.repo.trees {
      BaseTreeStays(x, b, commit, blobs, m, oid);
      if FindEntry(b.repo.trees[oid], n).Some? {
        var e := FindEntry(b.repo.trees[oid], n).value;
        assert e in b.repo.trees[oid] && InBase(b.repo, e.mode, e.oid);
      }
    }
  }

  // ---- children of a populated directory

  /** A child in the graph, and where it came from. */
  lemma ChildFacts(x: Stores, b: Build, d: nat, n: Name)
    requires Ready(x, b) && Inv(b.s) && d in x.vfs.dirChildren && (d, n) in x.vfs.childMap
    ensures
      var c := x.vfs.childMap[(d, n)];
      && c in x.vfs.nodes && c in b.s.nodes && c != ROOT && x.vfs.nodes[c].parent == d && x.vfs.nodes[c].name == n
      && Origin(b.repo, x.vfs, x.staging.sizes.Keys, c)
      && KidOf(b.s, c) in KidsOf(b.repo, b.s, d) && KidUnder(b.s, d, KidOf(b.s, c)) && Committed(b, KidOf(b.s, c))
  {
    ReadyInv(x, b);
    var c := x.vfs.childMap[(d, n)];
    assert IsChild(x.vfs, c, d, n);
    assert Origin(b.repo, x.vfs, x.staging.sizes.Keys, c);
    assert c in b.s.dirChildren[d] && GetNode(b.s, c).Some?;
  }

  /** Below a dropped directory everything is dropped. */
  lemma DroppedChild(x: Stores, b: Build, d: nat, n: Name)
    requires Ready(x, b) && Inv(b.s) && Dropped(b, d) && d in x.vfs.dirChildren && (d, n) in x.vfs.childMap
    ensures Dropped(b, x.vfs.childMap[(d, n)])
  {
    ReadyInv(x, b);
    ChildFacts(x, b, d, n);
    var c := x.vfs.childMap[(d, n)];
    CleanChild(x, b, d, c);
    Unstaged(x, b, c);
    DroppedUnstaged(x, b, d);
  }

  lemma DroppedUnstaged(x: Stores, b: Build, d: nat)
    requires Ready(x, b) && d in b.s.nodes && b.s.nodes[d].isDir
    ensures d in x.vfs.nodes && d !in x.staging.sizes && b.s.nodes[d] == x.vfs.nodes[d]
  {
  }

  // ---- one step of the walk

  lemma StepDropped(x: Stores, b: Build, m: Objects, d: nat, n: Name)
    requires Ready(x, b) && Inv(b.s) && Dropped(b, d)
    ensures Matches(b, m, Child(b.repo, x.vfs, At(d), n), Gone)
  {
    DroppedUnstaged(x, b, d);
    if d in x.vfs.dirChildren && (d, n) in x.vfs.childMap {
      DroppedChild(x, b, d, n);
    }
  }

  lemma StepFile(x: Stores, b: Build, m: Objects, d: nat, n: Name)
    requires Ready(x, b) && Inv(b.s) && d in b.s.nodes && !b.s.nodes[d].isDir
    ensures Child(b.repo, x.vfs, At(d), n).Gone?
    ensures BaseStep(Applied(b.repo, m), Base(b.s.nodes[d].mode, FinalOid(b, d)), n).Gone?
  {
  }

  /** An entry of a populated directory's tree is its child's, if it has an id. */
  lemma EntryIsChild(x: Stores, b: Build, d: nat, n: Name)
    requires Ready(x, b) && Inv(b.s) && d in x.vfs.dirChildren && d in x.vfs.nodes
    ensures
      var r := FindEntry(EntriesOf(b.repo, x.vfs.nodes[d].oid), n);
      if (d, n) in x.vfs.childMap && x.vfs.childMap[(d, n)] in x.vfs.nodes
        && x.vfs.nodes[x.vfs.childMap[(d, n)]].oid != [] then
        var c := x.vfs.nodes[x.vfs.childMap[(d, n)]];
        r == Some(TreeEntry(c.mode, n, c.oid))
      else r == None
  {
    var es := EntriesOf(b.repo, x.vfs.nodes[d].oid);
    if (d, n) in x.vfs.childMap { ChildFacts(x, b, d, n); }
    if FindEntry(es, n).Some? {
      var e := FindEntry(es, n).value;
      assert Covered(b.repo, x.vfs, d);
      assert HasChild(x.vfs, d, e);
      assert e.oid != [];
    }
  }

  /** A child of a clean directory, or none: its base entry, unless it is dropped. */
  lemma CleanChildMatches(x: Stores, b: Build, m: Objects, d: nat, n: Name)
    requires Ready(x, b) && Inv(b.s) && d in x.vfs.dirChildren && d !in b.dirty && d in x.vfs.nodes
    ensures
      var r := FindEntry(EntriesOf(b.repo, x.vfs.nodes[d].oid), n);
      Matches(b, m, if (d, n) in x.vfs.childMap then At(x.vfs.childMap[(d, n)]) else Gone, if r.None? then Gone
        else Base(r.value.mode, r.value.oid))
  {
    EntryIsChild(x, b, d, n);
    if (d, n) in x.vfs.childMap {
      var c := x.vfs.childMap[(d, n)];
      ChildFacts(x, b, d, n);
      CleanChild(x, b, d, c);
      Unstaged(x, b, c);
    }
  }

  /** A step below a clean directory that is listed. */
  lemma ListedClean(x: Stores, b: Build, m: Objects, d: nat, n: Name, after: Repo)
    requires Ready(x, b) && Inv(b.s) && d in b.s.nodes && b.s.nodes[d].isDir && d !in b.dirty && d in x.vfs.dirChildren
    requires b.s.nodes[d].oid in b.repo.trees && EntriesOf(after, b.s.nodes[d].oid) == b.repo.trees[b.s.nodes[d].oid]
    ensures Matches(b, m, Child(b.repo, x.vfs, At(d), n), BaseChild(after, b.s.nodes[d].oid, n))
  {
    DroppedUnstaged(x, b, d);
    CleanChildMatches(x, b, m, d, n);
  }

  lemma StepClean(x: Stores, b: Build, commit: P.Obj, blobs: Objects, m: Objects, d: nat, n: Name)
    requires AddedAfter(x, b, commit, blobs, m) && d in b.s.nodes && b.s.nodes[d].isDir && d !in b.dirty
    requires b.s.nodes[d].oid != []
    ensures Matches(b, m, Child(b.repo, x.vfs, At(d), n), BaseChild(Applied(b.repo, m), b.s.nodes[d].oid, n))
  {
    var t := b.s.nodes[d].oid;
    CleanHasTree(x, b, d);
    if d in x.vfs.dirChildren {
      BaseTreeStays(x, b, commit, blobs, m, t);
      ListedClean(x, b, m, d, n, Applied(b.repo, m));
    } else {
      DroppedUnstaged(x, b, d);
      BaseChildMatches(x, b, commit, blobs, m, t, n);
    }
  }

  /** A file has an id once staged files have their blobs. */
  lemma FileHasOid(x: Stores, b: Build, m: Objects, c: nat)
    requires Ready(x, b) && SoundBase(b, m) && c in b.s.nodes && c != ROOT && !b.s.nodes[c].isDir
    ensures b.s.nodes[c].oid != []
  {
    assert Origin(b.repo, x.vfs, x.staging.sizes.Keys, c);
    if c in x.staging.sizes { assert |b.h(BlobOf(x.staging, c))| == 20; }
  }

  /** The entry that is written for a child is found, unless the child is dropped. */
  lemma DirtyChild(x: Stores, b: Build, m: Objects, d: nat, n: Name)
    requires Ready(x, b) && Inv(b.s) && SoundBase(b, m) && d in x.vfs.dirChildren && (d, n) in x.vfs.childMap
    ensures
      var c := x.vfs.childMap[(d, n)];
      c in b.s.nodes &&
      FindEntry(NewEntries(b, d), n) == if Dropped(b, c) then None
        else Some(TreeEntry(b.s.nodes[c].mode, n, FinalOid(b, c)))
  {
    var c := x.vfs.childMap[(d, n)];
    ChildFacts(x, b, d, n);
    var k := KidOf(b.s, c);
    NewEntriesAre(b, d);
    if k.isDir && c in b.dirty {
      DirtyOid(b, d, k);
      assert |b.h(TreeObject(b, c))| == 20;
    } else {
      CleanOid(b, d, k);
      if !k.isDir { FileHasOid(x, b, m, c); }
    }
    if Dropped(b, c) {
      NotWritten(b, d, k);
    } else {
      assert WrittenKid(b, d, k, EntryFor(b, d, k));
      FindsIn(NewEntries(b, d), EntryFor(b, d, k));
    }
  }

  /** No entry bears the name of a kid without an id. */
  lemma NotWritten(b: Build, d: nat, k: Kid)
    requires Inv(b.s) && GoodRepo(b.repo) && k in KidsOf(b.repo, b.s, d) && (k.id.Some? ==> KidUnder(b.s, d, k))
    requires NewOid(b, d, k) == []
    ensures FindEntry(NewEntries(b, d), k.name) == None
  {
    NewEntriesAre(b, d);
    if FindEntry(NewEntries(b, d), k.name).Some? {
      var e := FindEntry(NewEntries(b, d), k.name).value;
      var j :| WrittenKid(b, d, j, e);
      KidNames(b.repo, b.s, d, k, j);
    }
  }

  /** A name that no kid has is not written. */
  lemma NoKidNoEntry(b: Build, d: nat, n: Name)
    requires Inv(b.s) && GoodRepo(b.repo) && forall k | k in KidsOf(b.repo, b.s, d) :: k.name != n
    ensures FindEntry(NewEntries(b, d), n) == None
  {
    NewEntriesAre(b, d);
  }

  /** A name that a populated directory does not have is not written. */
  lemma NoSuchKid(b: Build, d: nat, n: Name)
    requires Inv(b.s) && GoodRepo(b.repo) && d in b.s.dirChildren && (d, n) !in b.s.childMap
    ensures FindEntry(NewEntries(b, d), n) == None
  {
    forall k | k in KidsOf(b.repo, b.s, d) ensures k.name != n {
      var id :| id in b.s.dirChildren[d] && GetNode(b.s, id).Some? && k == KidOf(b.s, id);
      assert IsChild(b.s, id, d, b.s.nodes[id].name);
    }
    NoKidNoEntry(b, d, n);
  }

  /** A base entry of a directory that is not populated is written as it is. */
  lemma BaseEntryWritten(b: Build, d: nat, e: TreeEntry)
    requires CanonicalBase(b.repo, b.h) && Inv(b.s) && d in b.s.nodes && d !in b.s.dirChildren
    requires e in EntriesOf(b.repo, b.s.nodes[d].oid)
    ensures FindEntry(NewEntries(b, d), e.name) == Some(e)
  {
    var es := EntriesOf(b.repo, b.s.nodes[d].oid);
    var i :| 0 <= i < |es| && es[i] == e;
    var k := BaseKids(es)[i];
    assert k in KidsOf(b.repo, b.s, d);
    CleanOid(b, d, k);
    NewEntriesAre(b, d);
    assert WrittenKid(b, d, k, e);
    FindsIn(NewEntries(b, d), e);
  }

  /** A directory that is not populated is written as its base tree. */
  lemma UnpopulatedSame(b: Build, d: nat, n: Name)
    requires CanonicalBase(b.repo, b.h) && Inv(b.s) && d in b.s.nodes && d !in b.s.dirChildren
    ensures FindEntry(NewEntries(b, d), n) == FindEntry(EntriesOf(b.repo, b.s.nodes[d].oid), n)
  {
    var es := EntriesOf(b.repo, b.s.nodes[d].oid);
    if FindEntry(es, n).Some? {
      BaseEntryWritten(b, d, FindEntry(es, n).value);
    } else {
      forall k | k in KidsOf(b.repo, b.s, d) ensures k.name != n {
        var i :| 0 <= i < |es| && BaseKids(es)[i] == k;
        assert es[i] in es;
      }
      NoKidNoEntry(b, d, n);
    }
  }

  lemma StepDirty(x: Stores, b: Build, commit: P.Obj, blobs: Objects, m: Objects, d: nat, n: Name)
    requires AddedAfter(x, b, commit, blobs, m) && d in b.s.nodes && b.s.nodes[d].isDir && d in b.dirty
    requires Delivered(b, d, m)
    requires b.s.nodes[d].oid == [] || b.s.nodes[d].oid in b.repo.trees
    ensures Matches(b, m, Child(b.repo, x.vfs, At(d), n), BaseChild(Applied(b.repo, m), Rebuilt(b, d), n))
  {
    DroppedUnstaged(x, b, d);
    NewTreeFound(x, b, commit, blobs, m, d);
    if d in x.vfs.dirChildren {
      if (d, n) in x.vfs.childMap {
        var c := x.vfs.childMap[(d, n)];
        ChildFacts(x, b, d, n);
        DirtyChild(x, b, m, d, n);
        if b.s.nodes[c].isDir && c in b.dirty { DeliveredBelow(b, d, m, KidOf(b.s, c)); }
      } else {
        NoSuchKid(b, d, n);
      }
    } else {
      UnpopulatedSame(b, d, n);
      BaseEntryComplete(b, b.s.nodes[d].oid, n);
    }
  }

  lemma BaseEntryComplete(b: Build, oid: Oid, n: Name)
    requires BaseComplete(b.repo)
    ensures
      var r := FindEntry(EntriesOf(b.repo, oid), n);
      r.Some? && r.value.mode.Directory? ==> r.value.oid in b.repo.trees
  {
    var r := FindEntry(EntriesOf(b.repo, oid), n);
    if r.Some? { assert r.value in b.repo.trees[oid] && InBase(b.repo, r.value.mode, r.value.oid); }
  }

  // ---- the walk

  lemma DirHasTree(x: Stores, b: Build, root: Oid, d: nat)
    requires Ready(x, b) && Inv(b.s) && d in b.s.nodes && b.s.nodes[d].isDir && RootIs(x.vfs, root)
    requires root in b.repo.trees
    ensures b.s.nodes[d].oid == [] || b.s.nodes[d].oid in b.repo.trees
  {
    DroppedUnstaged(x, b, d);
    if d != ROOT && b.s.nodes[d].oid != [] { CleanHasTree(x, b, d); }
  }

  lemma StepMatches(x: Stores, b: Build, commit: P.Obj, blobs: Objects, m: Objects, root: Oid, l: Loc, l2: Loc, n: Name)
    requires AddedAfter(x, b, commit, blobs, m) && Matches(b, m, l, l2) && RootIs(x.vfs, root) && root in b.repo.trees
    ensures Matches(b, m, Child(b.repo, x.vfs, l, n), BaseStep(Applied(b.repo, m), l2, n))
  {
    match l
    case Gone =>
    case Base(mode, oid) => if mode.Directory? { BaseChildMatches(x, b, commit, blobs, m, oid, n); }
    case At(d) =>
      if Dropped(b, d) {
        StepDropped(x, b, m, d, n);
      } else if !b.s.nodes[d].isDir {
        StepFile(x, b, m, d, n);
      } else {
        assert b.s.nodes[d].mode.Directory?;
        if d in b.dirty {
          DirHasTree(x, b, root, d);
          StepDirty(x, b, commit, blobs, m, d, n);
        } else {
          StepClean(x, b, commit, blobs, m, d, n);
        }
      }
  }

  /** Where each path led, it leads after the commit; a dropped directory is gone. */
  lemma {:induction false} WalkMatches(x: Stores, b: Build, commit: P.Obj, blobs: Objects, m: Objects, root: Oid,
                                       p: Path)
    requires AddedAfter(x, b, commit, blobs, m) && RootIs(x.vfs, root) && root in b.repo.trees
    ensures Matches(b, m, Walk(b.repo, x.vfs, p), BaseWalk(Applied(b.repo, m), Rebuilt(b, ROOT), p))
    decreases |p|
  {
    if p == [] {
      CommitNamed(x, b, commit, blobs, m);
      DroppedUnstaged(x, b, ROOT);
    } else {
      var p0, n := p[..|p| - 1], p[|p| - 1];
      WalkMatches(x, b, commit, blobs, m, root, p0);
      SplitLast(p);
      WalkSnoc(b.repo, x.vfs, p0, n);
      BaseWalkSnoc(Applied(b.repo, m), Rebuilt(b, ROOT), p0, n);
      StepMatches(x, b, commit, blobs, m, root, Walk(b.repo, x.vfs, p0),
        BaseWalk(Applied(b.repo, m), Rebuilt(b, ROOT), p0), n);
    }
  }

  // ---- what the path denotes in the base

  /** Where a path leads now (`l`), and where it led in the base tree (`base`). */
  ghost predicate FromBase(x: Stores, l: Loc, base: Loc) {
    match l
    case Gone => base.Gone?
    case Base(_, _) => base == l
    case At(c) => c in x.vfs.nodes && base == if x.vfs.nodes[c].oid == [] then Gone
      else Base(x.vfs.nodes[c].mode, x.vfs.nodes[c].oid)
  }

  lemma StepFromBase(x: Stores, b: Build, l: Loc, base: Loc, n: Name)
    requires Ready(x, b) && Inv(b.s) && FromBase(x, l, base)
    ensures FromBase(x, Child(b.repo, x.vfs, l, n), BaseStep(b.repo, base, n))
  {
    if l.At? {
      var d := l.id;
      assert EntriesOf(b.repo, []) == [];
      if d in x.vfs.dirChildren {
        EntryIsChild(x, b, d, n);
        if (d, n) in x.vfs.childMap { ChildFacts(x, b, d, n); }
      }
    }
  }

  lemma {:induction false} WalkFromBase(x: Stores, b: Build, root: Oid, p: Path)
    requires Ready(x, b) && Inv(b.s) && RootIs(x.vfs, root) && root != []
    ensures FromBase(x, Walk(b.repo, x.vfs, p), BaseWalk(b.repo, root, p))
    decreases |p|
  {
    if p != [] {
      var p0, n := p[..|p| - 1], p[|p| - 1];
      WalkFromBase(x, b, root, p0);
      SplitLast(p);
      WalkSnoc(b.repo, x.vfs, p0, n);
      BaseWalkSnoc(b.repo, root, p0, n);
      StepFromBase(x, b, Walk(b.repo, x.vfs, p0), BaseWalk(b.repo, root, p0), n);
    }
  }

  // ---- which directories are dropped, said of paths

  /** A path survives a commit when it is a file, was in the base, or has a file below it. */
  ghost predicate Survives(v: View, base: View, p: Path) {
    p in v && (v[p].File? || p in base || exists q :: FileBelow(v, p, q))
  }

  ghost predicate FileBelow(v: View, p: Path, q: Path) {
    p <= q && q in v && v[q].File?
  }

  ghost function Surviving(v: View, base: View): View {
    imap p: Path | Survives(v, base, p) :: v[p]
  }

  /** Below a dropped directory a path leads to a dropped directory or nowhere. */
  lemma {:induction false} BelowDropped(x: Stores, b: Build, p: Path, q: Path)
    requires Ready(x, b) && Inv(b.s) && Walk(b.repo, x.vfs, p).At? && Dropped(b, Walk(b.repo, x.vfs, p).id) && p <= q
    ensures
      var l := Walk(b.repo, x.vfs, q);
      l.Gone? || (l.At? && Dropped(b, l.id))
    decreases |q|
  {
    if p != q {
      var q0, n := q[..|q| - 1], q[|q| - 1];
      assert q0[..|p|] == p;
      BelowDropped(x, b, p, q0);
      SplitLast(q);
      WalkSnoc(b.repo, x.vfs, q0, n);
      var l := Walk(b.repo, x.vfs, q0);
      if l.At? {
        DroppedUnstaged(x, b, l.id);
        if l.id in x.vfs.dirChildren && (l.id, n) in x.vfs.childMap { DroppedChild(x, b, l.id, n); }
      }
    }
  }

  /** An inode below one that a path leads to has a path that goes on from there. */
  lemma {:induction false} PathBelow(repo: Repo, s: Vfs, p: Path, f: nat, k: nat) returns (q: Path)
    requires Inv(s) && NoneDeleted(s) && f in s.nodes && Walk(repo, s, p).At?
    requires Up(s, f, k) == Some(Walk(repo, s, p).id)
    ensures p <= q && Walk(repo, s, q) == At(f)
    decreases k
  {
    if k == 0 {
      q := p;
    } else {
      assert Live(s, f);
      var g := s.nodes[f].parent;
      var q0 := PathBelow(repo, s, p, g, k - 1);
      q := q0 + [s.nodes[f].name];
      WalkSnoc(repo, s, q0, s.nodes[f].name);
    }
  }

  /** A dirty directory below the root has a staged file below it. */
  lemma DirtyHasFile(x: Stores, b: Build, p: Path)
    requires Ready(x, b) && Inv(b.s) && Walk(b.repo, x.vfs, p).At? && Walk(b.repo, x.vfs, p).id in b.dirty
    requires Walk(b.repo, x.vfs, p).id != ROOT
    ensures exists q :: FileBelow(Shows(b.repo, x), p, q)
  {
    ReadyInv(x, b);
    var c := Walk(b.repo, x.vfs, p).id;
    DirtyMeansStaged(x.vfs, x.staging.sizes.Keys, b.dirty, c);
    var f :| f in x.staging.sizes.Keys && IsBelow(x.vfs, c, f);
    var k: nat :| k > 0 && Up(x.vfs, f, k) == Some(c);
    var q := PathBelow(b.repo, x.vfs, p, f, k);
    SeesFile(x, b.repo, q, f);
    assert FileBelow(Shows(b.repo, x), p, q);
  }

  lemma SeesFile(x: Stores, repo: Repo, q: Path, f: nat)
    requires Walk(repo, x.vfs, q) == At(f) && f in x.vfs.nodes && !x.vfs.nodes[f].isDir
    ensures q in Shows(repo, x) && Shows(repo, x)[q].File?
  {
    assert Seen(repo, x.vfs, x.staging.files, q).Some?;
  }

  lemma SeesDir(x: Stores, repo: Repo, q: Path, d: nat)
    requires Walk(repo, x.vfs, q) == At(d) && d in x.vfs.nodes && x.vfs.nodes[d].isDir
    ensures q in Shows(repo, x) && Shows(repo, x)[q].Dir?
  {
    assert Seen(repo, x.vfs, x.staging.files, q).Some?;
  }

  /** A dropped directory is one that does not survive. */
  lemma DroppedDies(x: Stores, b: Build, root: Oid, p: Path)
    requires Ready(x, b) && Inv(b.s) && RootIs(x.vfs, root) && root != []
    requires Walk(b.repo, x.vfs, p).At? && Dropped(b, Walk(b.repo, x.vfs, p).id)
    ensures !Survives(Shows(b.repo, x), BaseView(b.repo, root), p)
  {
    var v, c := Shows(b.repo, x), Walk(b.repo, x.vfs, p).id;
    DroppedUnstaged(x, b, c);
    SeesDir(x, b.repo, p, c);
    WalkFromBase(x, b, root, p);
    assert p !in BaseView(b.repo, root);
    forall q ensures !FileBelow(v, p, q) {
      if p <= q {
        BelowDropped(x, b, p, q);
        var l := Walk(b.repo, x.vfs, q);
        if l.At? {
          DroppedUnstaged(x, b, l.id);
          SeesDir(x, b.repo, q, l.id);
        } else {
          assert Seen(b.repo, x.vfs, x.staging.files, q).None?;
        }
      }
    }
  }

  /** Whatever else leads somewhere survives. */
  lemma OthersSurvive(x: Stores, b: Build, root: Oid, p: Path)
    requires Ready(x, b) && Inv(b.s) && RootIs(x.vfs, root) && root != []
    requires !Walk(b.repo, x.vfs, p).Gone?
    requires Walk(b.repo, x.vfs, p).At? ==>
      Walk(b.repo, x.vfs, p).id in b.s.nodes && !Dropped(b, Walk(b.repo, x.vfs, p).id)
    ensures Survives(Shows(b.repo, x), BaseView(b.repo, root), p)
  {
    var v, l := Shows(b.repo, x), Walk(b.repo, x.vfs, p);
    WalkFromBase(x, b, root, p);
    GoneUnseen(b.repo, x, p);
    if l.At? {
      var c := l.id;
      ReadyInv(x, b);
      if !x.vfs.nodes[c].isDir {
        SeesFile(x, b.repo, p, c);
      } else if x.vfs.nodes[c].oid != [] {
        assert p in BaseView(b.repo, root);
      } else {
        DroppedUnstaged(x, b, c);
        assert c != ROOT;
        DirtyHasFile(x, b, p);
      }
    } else {
      assert p in BaseView(b.repo, root);
    }
  }

  // ---- contents

  /** An unstaged file, or one below a directory that is not populated, reads as before. */
  lemma OldContent(x: Stores, b: Build, commit: P.Obj, blobs: Objects, m: Objects, t: Oid, e: TreeEntry)
    requires After(x, b, commit, blobs, m) && t in b.repo.trees && e in b.repo.trees[t] && !e.mode.Directory?
    ensures BaseContent(Applied(b.repo, m), e.oid) == BaseContent(b.repo, e.oid)
  {
    if e.oid in b.repo.blobs { BaseBlobStays(x, b, commit, blobs, m, e.oid); }
  }

  lemma FileContent(x: Stores, b: Build, commit: P.Obj, blobs: Objects, m: Objects, c: nat)
    requires AddedAfter(x, b, commit, blobs, m) && c in b.s.nodes && c != ROOT && !b.s.nodes[c].isDir
    ensures c in x.vfs.nodes
    ensures BaseEntry(Applied(b.repo, m), b.s.nodes[c].mode, b.s.nodes[c].oid) ==
      NodeEntry(b.repo, x.vfs, x.staging.files, c)
  {
    ReadyInv(x, b);
    assert Origin(b.repo, x.vfs, x.staging.sizes.Keys, c);
    if c in x.staging.sizes {
      assert BecomesBlob(x.vfs, x.staging, c);
      NewBlobFound(x, b, commit, blobs, m, c);
      FileHasOid(x, b, m, c);
    } else {
      Unstaged(x, b, c);
      var n := x.vfs.nodes[c];
      var t := x.vfs.nodes[n.parent].oid;
      var e := FindEntry(EntriesOf(b.repo, t), n.name).value;
      OldContent(x, b, commit, blobs, m, t, e);
    }
  }

  /** A base entry that a path leads to is an entry of some base tree. */
  lemma {:induction false} BaseLocFrom(repo: Repo, s: Vfs, p: Path)
    requires Walk(repo, s, p).Base?
    ensures exists t, e ::
      t in repo.trees && e in repo.trees[t] && e.mode == Walk(repo, s, p).mode && e.oid == Walk(repo, s, p).oid
  {
    var p0, n := p[..|p| - 1], p[|p| - 1];
    var l := Walk(repo, s, p0);
    var t := if l.At? then s.nodes[l.id].oid else l.oid;
    var e := FindEntry(EntriesOf(repo, t), n).value;
    assert t in repo.trees && e in repo.trees[t];
  }

  /** What is seen at a path that survives is what was seen. */
  lemma SameEntrySeen(x: Stores, b: Build, commit: P.Obj, blobs: Objects, m: Objects, root: Oid, p: Path)
    requires AddedAfter(x, b, commit, blobs, m) && RootIs(x.vfs, root) && root in b.repo.trees
    requires !Walk(b.repo, x.vfs, p).Gone?
    requires Walk(b.repo, x.vfs, p).At? ==>
      Walk(b.repo, x.vfs, p).id in b.s.nodes && !Dropped(b, Walk(b.repo, x.vfs, p).id)
    ensures p in Shows(b.repo, x)
    ensures
      var l2 := BaseWalk(Applied(b.repo, m), Rebuilt(b, ROOT), p);
      l2.Base? && BaseEntry(Applied(b.repo, m), l2.mode, l2.oid) == Shows(b.repo, x)[p]
  {
    WalkMatches(x, b, commit, blobs, m, root, p);
    GoneUnseen(b.repo, x, p);
    var l := Walk(b.repo, x.vfs, p);
    if l.At? {
      ReadyInv(x, b);
      if b.s.nodes[l.id].isDir {
        SeesDir(x, b.repo, p, l.id);
      } else {
        FileContent(x, b, commit, blobs, m, l.id);
        assert Seen(b.repo, x.vfs, x.staging.files, p).Some?;
      }
    } else if !l.mode.Directory? {
      BaseLocFrom(b.repo, x.vfs, p);
      var t, e :| t in b.repo.trees && e in b.repo.trees[t] && e.mode == l.mode && e.oid == l.oid;
      OldContent(x, b, commit, blobs, m, t, e);
    }
  }

  // ---- the theorems

  /** Reopening at the new root shows what survives of what the stores showed. */
  lemma CommitThenReload(x: Stores, b: Build, commit: P.Obj, blobs: Objects, m: Objects, root: Oid)
    requires AddedAfter(x, b, commit, blobs, m) && RootIs(x.vfs, root) && root in b.repo.trees
    ensures BaseView(Applied(b.repo, m), Rebuilt(b, ROOT)) == Surviving(Shows(b.repo, x), BaseView(b.repo, root))
  {
    var after, kept := BaseView(Applied(b.repo, m), Rebuilt(b, ROOT)),
      Surviving(Shows(b.repo, x), BaseView(b.repo, root));
    forall p: Path ensures SameAtPath(after, kept, p) { ReloadAt(x, b, commit, blobs, m, root, p); }
    SameView(after, kept);
  }

  ghost predicate SameAtPath(v: View, w: View, p: Path) {
    (p in v <==> p in w) && (p in v ==> v[p] == w[p])
  }

  lemma SameView(v: View, w: View)
    requires forall p: Path :: SameAtPath(v, w, p)
    ensures v == w
  {
    forall p: Path ensures (p in v <==> p in w) && (p in v ==> v[p] == w[p]) { assert SameAtPath(v, w, p); }
  }

  lemma ReloadAt(x: Stores, b: Build, commit: P.Obj, blobs: Objects, m: Objects, root: Oid, p: Path)
    requires AddedAfter(x, b, commit, blobs, m) && RootIs(x.vfs, root) && root in b.repo.trees
    ensures SameAtPath(BaseView(Applied(b.repo, m), Rebuilt(b, ROOT)),
      Surviving(Shows(b.repo, x), BaseView(b.repo, root)), p)
  {
    var l := Walk(b.repo, x.vfs, p);
    WalkMatches(x, b, commit, blobs, m, root, p);
    if l.Gone? {
      GoneUnseen(b.repo, x, p);
    } else if l.At? && Dropped(b, l.id) {
      DroppedDies(x, b, root, p);
    } else {
      OthersSurvive(x, b, root, p);
      SameEntrySeen(x, b, commit, blobs, m, root, p);
    }
  }
}
