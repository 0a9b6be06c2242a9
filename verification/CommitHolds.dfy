/** What a commit holds after any log, deletions and renames among them. The walk that marks
    directories looks up each staged or deleted inode and finds no deleted one
    (src/git/builder.rs:77-95, src/vfs/inode.rs:63-69), so a directory in which something was only
    removed or moved is not rebuilt: it is committed under the tree id that it carries. */
module CommitHolds {
  import opened Basics
  import opened Paths
  import opened GitData
  import opened Inodes
  import opened TreeView
  import opened VfsInvariant
  import opened TreeBuilder
  import opened TreeOrder
  import opened Sources
  import opened PackClosure
  import opened Recovery
  import opened StoreChanges
  import opened DirtyWalk
  import opened Origins
  import opened Recovered
  import opened Reload
  import P = PackFormat

  // ---- where a path leads in the commit

  /** What a child of a rebuilt directory is committed as: a marked directory is rebuilt, and
      anything else is what its id names. */
  ghost function KeptAs(b: Build, c: nat): Loc
    requires c in b.s.nodes
  {
    var n := b.s.nodes[c];
    if n.isDir && c in b.dirty then At(c) else if n.oid == [] then Gone else Base(n.mode, n.oid)
  }

  ghost function CommitStep(b: Build, l: Loc, n: Name): Loc {
    match l
    case Gone => Gone
    case Base(mode, oid) => if mode.Directory? then BaseChild(b.repo, oid, n) else Gone
    case At(d) =>
      if d in b.s.dirChildren then
        if (d, n) in b.s.childMap && b.s.childMap[(d, n)] in b.s.nodes then KeptAs(b, b.s.childMap[(d, n)]) else Gone
      else if d in b.s.nodes then BaseChild(b.repo, b.s.nodes[d].oid, n)
      else Gone
  }

  /** `At` is a directory that is rebuilt; from any other on, the base is walked. */
  ghost function CommitWalk(b: Build, p: Path): Loc {
    if p == [] then At(ROOT) else CommitStep(b, CommitWalk(b, p[..|p| - 1]), p[|p| - 1])
  }

  lemma CommitWalkSnoc(b: Build, p: Path, n: Name)
    ensures CommitWalk(b, p + [n]) == CommitStep(b, CommitWalk(b, p), n)
  {
    assert (p + [n])[..|p|] == p;
  }

  // ---- what is written for a rebuilt directory

  /** A listed child is a kid that is committed. */
  lemma KidFacts(x: Stores, b: Build, d: nat, n: Name)
    requires Solid(x, b) && Inv(b.s) && d in b.s.dirChildren && (d, n) in b.s.childMap
    ensures
      var c := b.s.childMap[(d, n)];
      && c in b.s.nodes && c != ROOT && b.s.nodes[c].name == n
      && KidOf(b.s, c) in KidsOf(b.repo, b.s, d) && KidUnder(b.s, d, KidOf(b.s, c)) && Committed(b, KidOf(b.s, c))
  {
    var c := b.s.childMap[(d, n)];
    assert IsChild(b.s, c, d, n);
    assert c in b.s.dirChildren[d] && GetNode(b.s, c).Some?;
    assert NodeGrounded(b.repo, x.vfs.nodes[c], c in x.staging.sizes.Keys);
  }

  ghost function EntryOf(b: Build, c: nat): Option<TreeEntry>
    requires Inv(b.s) && c in b.s.nodes
  {
    match KeptAs(b, c)
    case Gone => None
    case At(_) => Some(TreeEntry(b.s.nodes[c].mode, b.s.nodes[c].name, Rebuilt(b, c)))
    case Base(mode, oid) => Some(TreeEntry(mode, b.s.nodes[c].name, oid))
  }

  lemma KidWritten(x: Stores, b: Build, m: Objects, d: nat, n: Name)
    requires Solid(x, b) && Inv(b.s) && SoundBase(b, m) && d in b.s.dirChildren && (d, n) in b.s.childMap
    ensures b.s.childMap[(d, n)] in b.s.nodes
    ensures FindEntry(NewEntries(b, d), n) == EntryOf(b, b.s.childMap[(d, n)])
  {
    var c := b.s.childMap[(d, n)];
    KidFacts(x, b, d, n);
    var k := KidOf(b.s, c);
    NewEntriesAre(b, d);
    if k.isDir && c in b.dirty {
      DirtyOid(b, d, k);
      assert |b.h(TreeObject(b, c))| == 20;
    } else {
      CleanOid(b, d, k);
    }
    if NewOid(b, d, k) == [] {
      NotWritten(b, d, k);
    } else {
      assert WrittenKid(b, d, k, EntryFor(b, d, k));
      FindsIn(NewEntries(b, d), EntryFor(b, d, k));
    }
  }

  // ---- the walk over the committed trees

  /** Where a path leads in the commit (`l`), and in the trees that were applied (`l2`). */
  ghost predicate Holds(b: Build, m: Objects, l: Loc, l2: Loc)
    requires Inv(b.s)
  {
    match l
    case Gone => l2.Gone?
    case Base(mode, oid) => l2 == l && (mode.Directory? ==> oid in b.repo.trees)
    case At(d) => d in b.s.nodes && b.s.nodes[d].isDir && l2 == Base(Directory, Rebuilt(b, d)) && Delivered(b, d, m)
  }

  lemma BaseStepHolds(x: Stores, b: Build, commit: P.Obj, blobs: Objects, m: Objects, oid: Oid, n: Name)
    requires After(x, b, commit, blobs, m) && oid in b.repo.trees
    ensures Holds(b, m, BaseChild(b.repo, oid, n), BaseChild(Applied(b.repo, m), oid, n))
  {
    BaseTreeStays(x, b, commit, blobs, m, oid);
    BaseEntryComplete(b, oid, n);
  }

  /** The ids that directories carry name base trees. */
  lemma DirSourced(x: Stores, b: Build, c: nat)
    requires Solid(x, b) && c in b.s.nodes && c != ROOT && b.s.nodes[c].isDir && Inv(b.s)
    ensures b.s.nodes[c] == x.vfs.nodes[c] && (b.s.nodes[c].oid != [] ==> b.s.nodes[c].oid in b.repo.trees)
  {
    assert NodeGrounded(b.repo, x.vfs.nodes[c], c in x.staging.sizes.Keys);
    if b.s.nodes[c].oid != [] {
      var t, e :| t in b.repo.trees && e in b.repo.trees[t] && e.mode == b.s.nodes[c].mode
        && e.oid == b.s.nodes[c].oid;
      assert InBase(b.repo, e.mode, e.oid);
    }
  }

  lemma ListedStepHolds(x: Stores, b: Build, commit: P.Obj, blobs: Objects, m: Objects, d: nat, n: Name)
    requires After(x, b, commit, blobs, m) && d in b.s.dirChildren && Delivered(b, d, m)
    requires EntriesOf(Applied(b.repo, m), Rebuilt(b, d)) == NewEntries(b, d)
    ensures Holds(b, m, CommitStep(b, At(d), n), BaseChild(Applied(b.repo, m), Rebuilt(b, d), n))
  {
    if (d, n) in b.s.childMap {
      var c := b.s.childMap[(d, n)];
      KidFacts(x, b, d, n);
      KidWritten(x, b, m, d, n);
      if b.s.nodes[c].isDir {
        if c in b.dirty { DeliveredBelow(b, d, m, KidOf(b.s, c)); } else { DirSourced(x, b, c); }
      }
    } else {
      NoSuchKid(b, d, n);
    }
  }

  lemma UnlistedStepHolds(b: Build, m: Objects, d: nat, n: Name, after: Repo)
    requires CanonicalBase(b.repo, b.h) && Inv(b.s) && d in b.s.nodes && d !in b.s.dirChildren
    requires EntriesOf(after, Rebuilt(b, d)) == NewEntries(b, d)
    ensures Holds(b, m, CommitStep(b, At(d), n), BaseChild(after, Rebuilt(b, d), n))
  {
    UnpopulatedSame(b, d, n);
    BaseEntryComplete(b, b.s.nodes[d].oid, n);
  }

  lemma DirStepHolds(x: Stores, b: Build, commit: P.Obj, blobs: Objects, m: Objects, d: nat, n: Name)
    requires After(x, b, commit, blobs, m) && d in b.s.nodes && b.s.nodes[d].isDir && Delivered(b, d, m)
    ensures Holds(b, m, CommitStep(b, At(d), n), BaseChild(Applied(b.repo, m), Rebuilt(b, d), n))
  {
    NewTreeFound(x, b, commit, blobs, m, d);
    if d in b.s.dirChildren {
      ListedStepHolds(x, b, commit, blobs, m, d, n);
    } else {
      UnlistedStepHolds(b, m, d, n, Applied(b.repo, m));
    }
  }

  lemma StepHolds(x: Stores, b: Build, commit: P.Obj, blobs: Objects, m: Objects, l: Loc, l2: Loc, n: Name)
    requires After(x, b, commit, blobs, m) && Holds(b, m, l, l2)
    ensures Holds(b, m, CommitStep(b, l, n), BaseStep(Applied(b.repo, m), l2, n))
  {
    if l.At? {
      DirStepHolds(x, b, commit, blobs, m, l.id, n);
    } else if l.Base? && l.mode.Directory? {
      BaseStepHolds(x, b, commit, blobs, m, l.oid, n);
    }
  }

  /** Where each path leads in the commit, it leads in the trees that a reader then finds. */
  lemma {:induction false} WalkHolds(x: Stores, b: Build, commit: P.Obj, blobs: Objects, m: Objects, p: Path)
    requires After(x, b, commit, blobs, m)
    ensures Holds(b, m, CommitWalk(b, p), BaseWalk(Applied(b.repo, m), Rebuilt(b, ROOT), p))
    decreases |p|
  {
    if p == [] {
      CommitNamed(x, b, commit, blobs, m);
    } else {
      var p0, n := p[..|p| - 1], p[|p| - 1];
      WalkHolds(x, b, commit, blobs, m, p0);
      SplitLast(p);
      CommitWalkSnoc(b, p0, n);
      BaseWalkSnoc(Applied(b.repo, m), Rebuilt(b, ROOT), p0, n);
      StepHolds(x, b, commit, blobs, m, CommitWalk(b, p0), BaseWalk(Applied(b.repo, m), Rebuilt(b, ROOT), p0), n);
    }
  }

  // ---- the graph and the commit, side by side

  /** The path leads to a directory that hangs from a rebuilt one and is not marked itself. */
  ghost function Unmarked(b: Build, p: Path): Option<nat> {
    if p == [] then None
    else
      var l, n := CommitWalk(b, p[..|p| - 1]), p[|p| - 1];
      if l.At? && l.id in b.s.dirChildren && (l.id, n) in b.s.childMap && b.s.childMap[(l.id, n)] in b.s.nodes
         && b.s.nodes[b.s.childMap[(l.id, n)]].isDir && b.s.childMap[(l.id, n)] !in b.dirty
      then Some(b.s.childMap[(l.id, n)])
      else None
  }

  ghost predicate BelowUnmarked(b: Build, p: Path) {
    exists i :: 0 < i <= |p| && Unmarked(b, p[..i]).Some?
  }

  /** The graph and the commit lead to the same directory, base entry or nowhere; or to a file and
      what that is committed as. */
  ghost predicate Alike(b: Build, l: Loc, cl: Loc) {
    if l.At? && l.id in b.s.nodes && !b.s.nodes[l.id].isDir then cl == KeptAs(b, l.id)
    else cl == l && (l.At? ==> l.id in b.s.nodes)
  }

  lemma BelowMore(b: Build, p: Path, n: Name)
    requires BelowUnmarked(b, p)
    ensures BelowUnmarked(b, p + [n])
  {
    var i :| 0 < i <= |p| && Unmarked(b, p[..i]).Some?;
    assert (p + [n])[..i] == p[..i];
  }

  lemma AlikeStep(x: Stores, b: Build, p: Path, n: Name)
    requires Solid(x, b) && Inv(b.s) && Alike(b, Walk(b.repo, x.vfs, p), CommitWalk(b, p))
    ensures BelowUnmarked(b, p + [n]) || Alike(b, Walk(b.repo, x.vfs, p + [n]), CommitWalk(b, p + [n]))
  {
    var l, cl := Walk(b.repo, x.vfs, p), CommitWalk(b, p);
    WalkSnoc(b.repo, x.vfs, p, n);
    CommitWalkSnoc(b, p, n);
    assert (p + [n])[..|p|] == p && (p + [n])[..|p| + 1] == p + [n];
    if l.At? && b.s.nodes[l.id].isDir {
      if l.id in b.s.dirChildren && (l.id, n) in b.s.childMap {
        KidFacts(x, b, l.id, n);
        if Unmarked(b, p + [n]).Some? { assert BelowUnmarked(b, p + [n]); }
      }
    }
  }

  lemma {:induction false} SideBySide(x: Stores, b: Build, p: Path)
    requires Solid(x, b) && Inv(b.s)
    ensures BelowUnmarked(b, p) || Alike(b, Walk(b.repo, x.vfs, p), CommitWalk(b, p))
    decreases |p|
  {
    if p != [] {
      var p0, n := p[..|p| - 1], p[|p| - 1];
      SplitLast(p);
      SideBySide(x, b, p0);
      if BelowUnmarked(b, p0) { BelowMore(b, p0, n); } else { AlikeStep(x, b, p0, n); }
    }
  }

  // ---- files

  ghost function FileAt(v: View, p: Path): Option<Entry> {
    if p in v && v[p].File? then Some(v[p]) else None
  }

  ghost predicate SameFiles(v: View, w: View) {
    forall p: Path :: FileAt(v, p) == FileAt(w, p)
  }

  /** What lies at `p` and below. */
  ghost function SubView(v: View, p: Path): View {
    imap q: Path | p + q in v :: v[p + q]
  }

  /** The tree of paths under the new root. */
  ghost function CommittedView(b: Build, m: Objects): View
    requires Inv(b.s)
  {
    BaseView(Applied(b.repo, m), Rebuilt(b, ROOT))
  }

  /** A file that some base tree names reads in the applied trees as in the base. */
  lemma OldFile(x: Stores, b: Build, commit: P.Obj, blobs: Objects, m: Objects, mode: TreeEntryMode, oid: Oid)
    requires After(x, b, commit, blobs, m) && FromEntry(b.repo, mode, oid) && !mode.Directory?
    ensures BaseEntry(Applied(b.repo, m), mode, oid) == BaseEntry(b.repo, mode, oid)
  {
    var t, e :| t in b.repo.trees && e in b.repo.trees[t] && e.mode == mode && e.oid == oid;
    OldContent(x, b, commit, blobs, m, t, e);
  }

  lemma {:induction false} BaseWalkEntry(repo: Repo, root: Oid, p: Path)
    requires p != [] && BaseWalk(repo, root, p).Base?
    ensures FromEntry(repo, BaseWalk(repo, root, p).mode, BaseWalk(repo, root, p).oid)
  {
    var l := BaseWalk(repo, root, p[..|p| - 1]);
    var e := FindEntry(EntriesOf(repo, l.oid), p[|p| - 1]).value;
    assert l.oid in repo.trees && e in repo.trees[l.oid];
  }

  lemma WalkEntry(repo: Repo, s: Vfs, p: Path)
    requires Walk(repo, s, p).Base?
    ensures FromEntry(repo, Walk(repo, s, p).mode, Walk(repo, s, p).oid)
  {
    BaseLocFrom(repo, s, p);
  }

  /** A live file is committed with the content it shows. */
  lemma FileKept(x: Stores, b: Build, commit: P.Obj, blobs: Objects, m: Objects, c: nat)
    requires After(x, b, commit, blobs, m) && c in b.s.nodes && c != ROOT && !b.s.nodes[c].isDir
    requires !b.s.nodes[c].deleted
    ensures KeptAs(b, c) == Base(b.s.nodes[c].mode, b.s.nodes[c].oid)
    ensures BaseEntry(Applied(b.repo, m), b.s.nodes[c].mode, b.s.nodes[c].oid) ==
      NodeEntry(b.repo, x.vfs, x.staging.files, c)
  {
    var n := x.vfs.nodes[c];
    assert NodeGrounded(b.repo, n, c in x.staging.sizes.Keys);
    if c in x.staging.sizes {
      assert BecomesBlob(x.vfs, x.staging, c);
      NewBlobFound(x, b, commit, blobs, m, c);
      assert |b.h(BlobOf(x.staging, c))| == 20;
    } else {
      OldFile(x, b, commit, blobs, m, n.mode, n.oid);
    }
  }

  function FileOf(repo: Repo, l: Loc): Option<Entry> {
    if l.Base? && !l.mode.Directory? then Some(BaseEntry(repo, l.mode, l.oid)) else None
  }

  lemma BaseFileAt(repo: Repo, root: Oid, p: Path)
    ensures FileAt(BaseView(repo, root), p) == FileOf(repo, BaseWalk(repo, root, p))
  {
  }

  lemma ShownFileAt(x: Stores, repo: Repo, p: Path)
    requires Inv(x.vfs)
    ensures
      var l := Walk(repo, x.vfs, p);
      FileAt(Shows(repo, x), p) ==
        if !l.At? then FileOf(repo, l)
        else if l.id in x.vfs.nodes && !x.vfs.nodes[l.id].isDir
        then Some(NodeEntry(repo, x.vfs, x.staging.files, l.id)) else None
  {
    assert Seen(repo, x.vfs, x.staging.files, p) == LocEntry(repo, x.vfs, x.staging.files, Walk(repo, x.vfs, p));
  }

  /** Where graph and commit are alike, they hold the same file, or none. */
  lemma AlikeFiles(x: Stores, b: Build, commit: P.Obj, blobs: Objects, m: Objects, p: Path)
    requires After(x, b, commit, blobs, m) && Alike(b, Walk(b.repo, x.vfs, p), CommitWalk(b, p))
    ensures FileAt(CommittedView(b, m), p) == FileAt(Shows(b.repo, x), p)
  {
    var l := Walk(b.repo, x.vfs, p);
    WalkHolds(x, b, commit, blobs, m, p);
    BaseFileAt(Applied(b.repo, m), Rebuilt(b, ROOT), p);
    ShownFileAt(x, b.repo, p);
    if l.At? {
      WalkAt(b.repo, x.vfs, p);
      if !b.s.nodes[l.id].isDir { FileKept(x, b, commit, blobs, m, l.id); }
    } else if l.Base? && !l.mode.Directory? {
      WalkEntry(b.repo, x.vfs, p);
      OldFile(x, b, commit, blobs, m, l.mode, l.oid);
    }
  }

  // ---- below a directory that is not rebuilt

  /** An unmarked directory is committed under the id it carries, or not at all. */
  lemma UnmarkedKept(b: Build, p: Path)
    requires Unmarked(b, p).Some?
    ensures
      var c := Unmarked(b, p).value;
      && c in b.s.nodes && b.s.nodes[c].isDir
      && CommitWalk(b, p) == if b.s.nodes[c].oid == [] then Gone else Base(b.s.nodes[c].mode, b.s.nodes[c].oid)
  {
  }

  lemma {:induction false} WalkBelow(b: Build, p: Path, q: Path, oid: Oid)
    requires CommitWalk(b, p) == if oid == [] then Gone else Base(Directory, oid)
    ensures CommitWalk(b, p + q) == if oid == [] then Gone else BaseWalk(b.repo, oid, q)
    decreases |q|
  {
    if q == [] {
      assert p + q == p;
    } else {
      var q0, n := q[..|q| - 1], q[|q| - 1];
      WalkBelow(b, p, q0, oid);
      SplitLast(q);
      assert p + q == (p + q0) + [n];
      CommitWalkSnoc(b, p + q0, n);
    }
  }

  /** No file lies below the empty id. */
  lemma NoFilesBelow(repo: Repo, q: Path)
    requires [] !in repo.trees
    ensures FileAt(BaseView(repo, []), q) == None
  {
    if q != [] { NothingBelow(repo, q); }
  }

  lemma {:induction false} NothingBelow(repo: Repo, q: Path)
    requires [] !in repo.trees && q != []
    ensures BaseWalk(repo, [], q).Gone?
    decreases |q|
  {
    assert EntriesOf(repo, []) == [];
    if |q| > 1 { NothingBelow(repo, q[..|q| - 1]); }
  }

  /** A base tree's files read the same in the base and in the applied trees. */
  lemma SameFileOf(x: Stores, b: Build, commit: P.Obj, blobs: Objects, m: Objects, oid: Oid, q: Path)
    requires After(x, b, commit, blobs, m)
    ensures FileOf(Applied(b.repo, m), BaseWalk(b.repo, oid, q)) == FileOf(b.repo, BaseWalk(b.repo, oid, q))
  {
    var l := BaseWalk(b.repo, oid, q);
    if l.Base? && !l.mode.Directory? {
      BaseWalkEntry(b.repo, oid, q);
      OldFile(x, b, commit, blobs, m, l.mode, l.oid);
    }
  }

  /** Below it, the commit holds the files of the tree that it carries. */
  lemma UnmarkedFiles(x: Stores, b: Build, commit: P.Obj, blobs: Objects, m: Objects, p: Path, q: Path)
    requires After(x, b, commit, blobs, m) && Unmarked(b, p).Some?
    ensures
      FileAt(CommittedView(b, m), p + q) == FileAt(BaseView(b.repo, b.s.nodes[Unmarked(b, p).value].oid), q)
  {
    var oid := b.s.nodes[Unmarked(b, p).value].oid;
    UnmarkedKept(b, p);
    WalkBelow(b, p, q, oid);
    WalkHolds(x, b, commit, blobs, m, p + q);
    BaseFileAt(Applied(b.repo, m), Rebuilt(b, ROOT), p + q);
    BaseFileAt(b.repo, oid, q);
    if oid == [] { NoFilesBelow(b.repo, q); } else { SameFileOf(x, b, commit, blobs, m, oid, q); }
  }

  // ---- the exact condition

  /** If the path leads to a directory that is not rebuilt: the files shown below it are those of
      the tree it carries. */
  ghost predicate Current(x: Stores, b: Build, p: Path) {
    Unmarked(b, p).Some? ==>
      Unmarked(b, p).value in b.s.nodes &&
      SameFiles(SubView(Shows(b.repo, x), p), BaseView(b.repo, b.s.nodes[Unmarked(b, p).value].oid))
  }

  lemma CurrentIs(x: Stores, b: Build, commit: P.Obj, blobs: Objects, m: Objects, p: Path)
    requires After(x, b, commit, blobs, m) && Unmarked(b, p).Some?
    ensures Current(x, b, p) <==>
      forall q: Path :: FileAt(CommittedView(b, m), p + q) == FileAt(Shows(b.repo, x), p + q)
  {
    var v, base := Shows(b.repo, x), BaseView(b.repo, b.s.nodes[Unmarked(b, p).value].oid);
    forall q: Path
      ensures FileAt(CommittedView(b, m), p + q) == FileAt(base, q)
      ensures FileAt(SubView(v, p), q) == FileAt(v, p + q)
    {
      UnmarkedFiles(x, b, commit, blobs, m, p, q);
    }
  }

  lemma HeldBelow(x: Stores, b: Build, commit: P.Obj, blobs: Objects, m: Objects, p: Path, q: Path)
    requires After(x, b, commit, blobs, m) && Unmarked(b, p).Some? && Current(x, b, p)
    ensures FileAt(CommittedView(b, m), p + q) == FileAt(Shows(b.repo, x), p + q)
  {
    var v := Shows(b.repo, x);
    UnmarkedFiles(x, b, commit, blobs, m, p, q);
    assert FileAt(SubView(v, p), q) == FileAt(v, p + q);
  }

  lemma Rejoined(v: View, w: View, p: Path, i: nat)
    requires i <= |p| && FileAt(v, p[..i] + p[i..]) == FileAt(w, p[..i] + p[i..])
    ensures FileAt(v, p) == FileAt(w, p)
  {
    assert p == p[..i] + p[i..];
  }

  ghost predicate AllCurrent(x: Stores, b: Build) {
    forall p: Path :: Current(x, b, p)
  }

  lemma FileHeld(x: Stores, b: Build, commit: P.Obj, blobs: Objects, m: Objects, p: Path)
    requires After(x, b, commit, blobs, m) && AllCurrent(x, b)
    ensures FileAt(CommittedView(b, m), p) == FileAt(Shows(b.repo, x), p)
  {
    SideBySide(x, b, p);
    if BelowUnmarked(b, p) {
      var i := FirstUnmarked(b, p);
      HeldBelow(x, b, commit, blobs, m, p[..i], p[i..]);
      Rejoined(CommittedView(b, m), Shows(b.repo, x), p, i);
    } else {
      AlikeFiles(x, b, commit, blobs, m, p);
    }
  }

  lemma FirstUnmarked(b: Build, p: Path) returns (i: nat)
    requires BelowUnmarked(b, p)
    ensures 0 < i <= |p| && Unmarked(b, p[..i]).Some?
  {
    i :| 0 < i <= |p| && Unmarked(b, p[..i]).Some?;
  }

  /** After any log of applicable changes, and whatever set is marked: the commit holds exactly the
      files that were shown if and only if every directory that is not rebuilt, but hangs from
      one that is, shows the files of the tree that it carries. */
  lemma CommitHoldsExactly(x: Stores, b: Build, commit: P.Obj, blobs: Objects, m: Objects)
    requires After(x, b, commit, blobs, m)
    ensures SameFiles(CommittedView(b, m), Shows(b.repo, x)) <==> AllCurrent(x, b)
  {
    if SameFiles(CommittedView(b, m), Shows(b.repo, x)) {
      forall p: Path ensures Current(x, b, p) {
        if Unmarked(b, p).Some? { CurrentIs(x, b, commit, blobs, m, p); }
      }
    }
    if AllCurrent(x, b) {
      forall p: Path ensures FileAt(CommittedView(b, m), p) == FileAt(Shows(b.repo, x), p) {
        FileHeld(x, b, commit, blobs, m, p);
      }
    }
  }
}
