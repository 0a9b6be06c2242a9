/** Which renames and which new directories keep the tables right: exactly those that do not
    move an entry onto itself or below itself, and those whose name is free
    (src/vfs/inode.rs, `rename` and `mkdir`, which check neither). */
module EdgeCases {
  import opened Basics
  import opened Paths
  import opened GitData
  import opened Inodes
  import opened TreeView
  import opened VfsInvariant
  import opened Population
  import opened VfsOperations

  // ---- below itself

  /** `s2` is `s` after (d, n) was renamed to (d2, n2), both directories being populated. */
  ghost predicate Renamed(repo: Repo, s: Vfs, s2: Vfs, p: Path, n: Name, p2: Path, n2: Name) {
    && Inv(s) && Walk(repo, s, p).At? && Walk(repo, s, p2).At?
    && var d, d2 := Walk(repo, s, p).id, Walk(repo, s, p2).id;
      && d in s.dirChildren && d2 in s.dirChildren && (d, n) in s.childMap
      && s.childMap[(d, n)] in Remove(repo, s, d2, n2).0.nodes
      && s2 == Rehang(Remove(repo, s, d2, n2).0, s.childMap[(d, n)], d, n, d2, n2)
  }

  /** Every other inode keeps its parent; the old place is empty, whether or not it is the new. */
  lemma RenamedLinks(repo: Repo, s: Vfs, s2: Vfs, p: Path, n: Name, p2: Path, n2: Name)
    requires Renamed(repo, s, s2, p, n, p2, n2) && p + [n] <= p2 + [n2]
    ensures
      var d, d2, id := Walk(repo, s, p).id, Walk(repo, s, p2).id, s.childMap[(Walk(repo, s, p).id, n)];
      && s2.nodes.Keys == s.nodes.Keys && s2.nodes[id].parent == d2 && d in s2.dirChildren
      && (forall x | x in s.nodes && x != id :: s2.nodes[x].parent == s.nodes[x].parent)
      && LiveChild(s2, d, n) == None
      && (p + [n] == p2 + [n2] ==> (d, n) in s2.childMap && s2.childMap[(d, n)] == id && s2.nodes[id].deleted)
  {
    var d, d2 := Walk(repo, s, p).id, Walk(repo, s, p2).id;
    assert IsChild(s, s.childMap[(d, n)], d, n);
    if (d2, n2) in s.childMap { assert IsChild(s, s.childMap[(d2, n2)], d2, n2); }
    if d == d2 { WalkUnique(repo, s, p, p2); }
    SnocEq(p, n, p2, n2);
  }

  /** `s2` differs from `s` in the parent of `id`, which is now `d2`. */
  ghost predicate Reparented(s: Vfs, s2: Vfs, id: nat, d2: nat) {
    && id in s2.nodes && s2.nodes[id].parent == d2
    && forall x | x in s.nodes && x != id :: x in s2.nodes && s2.nodes[x].parent == s.nodes[x].parent
  }

  lemma RenamedReparents(repo: Repo, s: Vfs, s2: Vfs, p: Path, n: Name, p2: Path, n2: Name)
    requires Renamed(repo, s, s2, p, n, p2, n2) && p + [n] <= p2 + [n2]
    ensures Walk(repo, s, p + [n]) == At(s.childMap[(Walk(repo, s, p).id, n)])
    ensures Reparented(s, s2, Walk(repo, s, p + [n]).id, Walk(repo, s, p2).id)
  {
    RenamedLinks(repo, s, s2, p, n, p2, n2);
    WalkSnoc(repo, s, p, n);
    assert IsChild(s, s.childMap[(Walk(repo, s, p).id, n)], Walk(repo, s, p).id, n);
  }

  /** The parent of the inode at `q` is the inode that the path before it leads to. */
  lemma ParentIs(repo: Repo, s: Vfs, q: Path)
    requires Inv(s) && Walk(repo, s, q).At? && q != []
    ensures
      var id, up := Walk(repo, s, q).id, Walk(repo, s, q[..|q| - 1]);
      id != ROOT && id in s.nodes && up == At(s.nodes[id].parent) && s.nodes[id].parent != id
  {
    var q0 := q[..|q| - 1];
    WalkPrefix(repo, s, q0, q);
    WalkAt(repo, s, q);
    if Walk(repo, s, q) == Walk(repo, s, q0) { WalkUnique(repo, s, q, q0); }
    assert IsChild(s, Walk(repo, s, q).id, Walk(repo, s, q0).id, q[|q| - 1]);
  }

  lemma Apart(repo: Repo, s: Vfs, q: Path, t: Path)
    requires Inv(s) && Walk(repo, s, q).At? && q != t
    ensures Walk(repo, s, q) != Walk(repo, s, t)
  {
    if Walk(repo, s, q) == Walk(repo, s, t) { WalkUnique(repo, s, q, t); }
  }

  /** From an inode at or below the moved one, the parent chain leads up to it. */
  lemma {:induction false} ChainMeets(repo: Repo, s: Vfs, s2: Vfs, t: Path, q: Path, d2: nat, j: nat)
    requires Inv(s) && t <= q && Walk(repo, s, t).At? && Walk(repo, s, q).At?
    requires Reparented(s, s2, Walk(repo, s, t).id, d2) && AtDepth(s2, Walk(repo, s, q).id, j)
    ensures |q| - |t| <= j && AtDepth(s2, Walk(repo, s, t).id, j - (|q| - |t|))
    decreases |q|
  {
    if q != t {
      assert q[..|q| - 1][..|t|] == t;
      ParentIs(repo, s, q);
      Apart(repo, s, q, t);
      ChainMeets(repo, s, s2, t, q[..|q| - 1], d2, j - 1);
    }
  }

  /** With its parent at or below it, the moved inode is cut off from the root. */
  lemma CutOff(repo: Repo, s: Vfs, s2: Vfs, t: Path, q: Path)
    requires Inv(s) && t <= q && t != [] && Walk(repo, s, t).At? && Walk(repo, s, q).At?
    requires Reparented(s, s2, Walk(repo, s, t).id, Walk(repo, s, q).id)
    ensures !Rooted(s2, Walk(repo, s, t).id)
  {
    var id := Walk(repo, s, t).id;
    ParentIs(repo, s, t);
    forall k: nat ensures !AtDepth(s2, id, k) {
      if AtDepth(s2, id, k) {
        ChainMeets(repo, s, s2, t, q, Walk(repo, s, q).id, k - 1);
        DepthUnique(s2, id, k);
      }
    }
  }

  /** An entry moved onto or below itself leaves tables that do not agree. */
  lemma BelowItselfBreaks(repo: Repo, s: Vfs, s2: Vfs, p: Path, n: Name, p2: Path, n2: Name)
    requires Renamed(repo, s, s2, p, n, p2, n2) && p + [n] <= p2 + [n2]
    ensures !Inv(s2)
  {
    RenamedLinks(repo, s, s2, p, n, p2, n2);
    if p + [n] == p2 + [n2] {
      assert !IsChild(s2, s2.childMap[(Walk(repo, s, p).id, n)], Walk(repo, s, p).id, n);
    } else {
      RenamedReparents(repo, s, s2, p, n, p2, n2);
      PrefixSnoc(p + [n], p2, n2);
      CutOff(repo, s, s2, p + [n], p2);
    }
  }

  /** The same along the chain that `get_path` climbs. */
  lemma {:induction false} ClimbMeets(repo: Repo, s: Vfs, s2: Vfs, t: Path, q: Path, d2: nat, k: nat)
    requires Inv(s) && t <= q && Walk(repo, s, t).At? && Walk(repo, s, q).At?
    requires Reparented(s, s2, Walk(repo, s, t).id, d2) && Climbs(s2, Walk(repo, s, q).id, k)
    ensures |q| - |t| <= k && Climbs(s2, Walk(repo, s, t).id, k - (|q| - |t|))
    decreases |q|
  {
    if q != t {
      assert q[..|q| - 1][..|t|] == t;
      ParentIs(repo, s, q);
      Apart(repo, s, q, t);
      ClimbMeets(repo, s, s2, t, q[..|q| - 1], d2, k - 1);
    }
  }

  /** Going up from the moved entry comes back to it for ever. */
  lemma {:induction false} NeverClimbs(repo: Repo, s: Vfs, s2: Vfs, t: Path, q: Path, k: nat)
    requires Inv(s) && t <= q && t != q && t != [] && Walk(repo, s, t).At? && Walk(repo, s, q).At?
    requires Reparented(s, s2, Walk(repo, s, t).id, Walk(repo, s, q).id)
    ensures !Climbs(s2, Walk(repo, s, t).id, k)
    decreases k
  {
    ParentIs(repo, s, t);
    Apart(repo, s, q, t);
    if Climbs(s2, Walk(repo, s, t).id, k) {
      ClimbMeets(repo, s, s2, t, q, Walk(repo, s, q).id, k - 1);
      NeverClimbs(repo, s, s2, t, q, k - 1 - (|q| - |t|));
    }
  }

  // ---- the path that is lost

  /** On the way down to the old parent, the two changed links are never met. */
  lemma StepFinds(repo: Repo, s: Vfs, s2: Vfs, p: Path, n: Name, p2: Path, n2: Name, q: Path, m: Name)
    requires Renamed(repo, s, s2, p, n, p2, n2) && |p| <= |p2| && q + [m] <= p
    ensures Walk(repo, s, q).At? && Walk(repo, s, q + [m]).At?
    ensures LiveChild(s2, Walk(repo, s, q).id, m) == Some(Walk(repo, s, q + [m]).id)
  {
    assert (q + [m])[..|q|] == q;
    WalkPrefix(repo, s, q, p);
    WalkPrefix(repo, s, q + [m], p);
    WalkSnoc(repo, s, q, m);
    Apart(repo, s, q, p);
    Apart(repo, s, q, p2);
    OtherLinkKept(repo, s, s2, p, n, p2, n2, Walk(repo, s, q).id, m);
  }

  lemma OtherLinkKept(repo: Repo, s: Vfs, s2: Vfs, p: Path, n: Name, p2: Path, n2: Name, x: nat, m: Name)
    requires Renamed(repo, s, s2, p, n, p2, n2)
    requires (x, m) in s.childMap && At(x) != Walk(repo, s, p) && At(x) != Walk(repo, s, p2)
    ensures LiveChild(s2, x, m) == Some(s.childMap[(x, m)])
  {
    var d, d2 := Walk(repo, s, p).id, Walk(repo, s, p2).id;
    assert IsChild(s, s.childMap[(x, m)], x, m);
    assert IsChild(s, s.childMap[(d, n)], d, n);
    if (d2, n2) in s.childMap { assert IsChild(s, s.childMap[(d2, n2)], d2, n2); }
  }

  lemma LookupStep(repo: Repo, s: Vfs, from: nat, r: Path, c: nat)
    requires r != [] && GoodName(r[0]) && LiveChild(s, from, r[0]) == Some(c)
    ensures LookupParts(repo, s, from, r) == LookupParts(repo, s, c, r[1..])
  {
  }

  lemma LookupFails(repo: Repo, s: Vfs, from: nat, r: Path)
    requires r != [] && GoodName(r[0]) && LiveChild(s, from, r[0]) == None && from in s.dirChildren
    ensures LookupParts(repo, s, from, r) == (s, None)
  {
  }

  /** In `s2`, looking up the names of `p` one by one leads where `p` led in `s`. */
  ghost predicate Finds(repo: Repo, s: Vfs, s2: Vfs, p: Path) {
    forall i: nat | i < |p| :: FindsAt(repo, s, s2, p, i)
  }

  ghost predicate FindsAt(repo: Repo, s: Vfs, s2: Vfs, p: Path, i: nat)
    requires i < |p|
  {
    && Walk(repo, s, p[..i]).At? && Walk(repo, s, p[..i + 1]).At?
    && LiveChild(s2, Walk(repo, s, p[..i]).id, p[i]) == Some(Walk(repo, s, p[..i + 1]).id)
  }

  lemma RenamedFinds(repo: Repo, s: Vfs, s2: Vfs, p: Path, n: Name, p2: Path, n2: Name)
    requires Renamed(repo, s, s2, p, n, p2, n2) && |p| <= |p2|
    ensures Finds(repo, s, s2, p)
  {
    forall i: nat | i < |p| ensures FindsAt(repo, s, s2, p, i) {
      assert p[..i] + [p[i]] == p[..i + 1];
      StepFinds(repo, s, s2, p, n, p2, n2, p[..i], p[i]);
    }
  }

  /** Looking up anything at or below a name that is gone from the directory at `p` finds
      nothing; `i` names have been looked up. */
  lemma {:induction false} PathLost(repo: Repo, s: Vfs, s2: Vfs, p: Path, to: Path, i: nat)
    requires Finds(repo, s, s2, p) && p < to && GoodPath(to) && i <= |p|
    requires Walk(repo, s, p).At? && Walk(repo, s, p).id in s2.dirChildren
    requires LiveChild(s2, Walk(repo, s, p).id, to[|p|]) == None && Walk(repo, s, p[..i]).At?
    ensures LookupParts(repo, s2, Walk(repo, s, p[..i]).id, to[i..]) == (s2, None)
    decreases |p| - i
  {
    var r := to[i..];
    assert r[0] == to[i];
    if i == |p| {
      assert p[..i] == p;
      LookupFails(repo, s2, Walk(repo, s, p).id, r);
    } else {
      assert FindsAt(repo, s, s2, p, i);
      assert r[1..] == to[i + 1..];
      LookupStep(repo, s2, Walk(repo, s, p[..i]).id, r, Walk(repo, s, p[..i + 1]).id);
      PathLost(repo, s, s2, p, to, i + 1);
    }
  }

  // ---- renames

  /** When a rename succeeds, for any two names. */
  lemma RenameSucceeds(repo: Repo, s: Vfs, p: Path, n: Name, p2: Path, n2: Name) returns (s1: Vfs, s2: Vfs)
    requires Inv(s) && GoodRepo(repo) && Walk(repo, s, p).At? && Walk(repo, s, p2).At?
    ensures
      var d, d2, v := Walk(repo, s, p).id, Walk(repo, s, p2).id, ViewOf(repo, s, map[]);
      && (Rename(repo, s, d, n, d2, n2).1 <==> p + [n] in v && IsDir(v, p2))
      && s2 == Rename(repo, s, d, n, d2, n2).0
      && (Rename(repo, s, d, n, d2, n2).1 ==> Grown(repo, s, s1) && Renamed(repo, s1, s2, p, n, p2, n2))
  {
    var d, d2 := Walk(repo, s, p).id, Walk(repo, s, p2).id;
    PopulateBoth(repo, s, map[], p, p2);
    ParentSeen(repo, s, map[], p, n);
    s1, s2 := Populate(repo, Populate(repo, s, d), d2), Rename(repo, s, d, n, d2, n2).0;
    WalkSnoc(repo, s1, p, n);
    if CanPopulate(s, d) && CanPopulate(Populate(repo, s, d), d2) {
      if (d, n) in s1.childMap {
        assert IsChild(s1, s1.childMap[(d, n)], d, n);
        DirSeen(repo, s1, map[], p + [n]);
      } else {
        assert Seen(repo, s1, map[], p + [n]).None?;
      }
    }
  }

  lemma LostBelow(repo: Repo, s: Vfs, s2: Vfs, p: Path, n: Name, p2: Path, n2: Name)
    requires Renamed(repo, s, s2, p, n, p2, n2) && p + [n] <= p2 + [n2] && GoodPath(p2 + [n2])
    ensures LookupParts(repo, s2, ROOT, p2 + [n2]) == (s2, None)
  {
    var to := p2 + [n2];
    assert to[..|p|] == (p + [n])[..|p|] == p && to[|p|] == (p + [n])[|p|] == n;
    RenamedFinds(repo, s, s2, p, n, p2, n2);
    RenamedLinks(repo, s, s2, p, n, p2, n2);
    assert p[..0] == [] && to[0..] == to;
    PathLost(repo, s, s2, p, to, 0);
  }

  lemma IntoItself(repo: Repo, s: Vfs, p: Path, n: Name, p2: Path, n2: Name)
    requires Inv(s) && GoodRepo(repo) && Walk(repo, s, p).At? && Walk(repo, s, p2).At?
    requires GoodName(n2) && p + [n] <= p2 + [n2]
    requires Rename(repo, s, Walk(repo, s, p).id, n, Walk(repo, s, p2).id, n2).1
    ensures
      var s2 := Rename(repo, s, Walk(repo, s, p).id, n, Walk(repo, s, p2).id, n2).0;
      !Inv(s2) && LookupPath(repo, s2, Join(p2 + [n2])) == (s2, None)
  {
    var s1, s2 := RenameSucceeds(repo, s, p, n, p2, n2);
    BelowItselfBreaks(repo, s1, s2, p, n, p2, n2);
    WalkGood(repo, s, p2);
    GoodSnoc(p2, n2);
    ParseJoin(p2 + [n2]);
    LostBelow(repo, s1, s2, p, n, p2, n2);
  }

  /** A rename that succeeds keeps the tables right, and its entry can be found under the new
      path, exactly when it moves the entry neither onto itself nor below itself. */
  lemma RenameKeeps(repo: Repo, s: Vfs, p: Path, n: Name, p2: Path, n2: Name)
    requires Inv(s) && GoodRepo(repo) && Walk(repo, s, p).At? && Walk(repo, s, p2).At? && GoodName(n2)
    ensures
      var (s2, ok) := Rename(repo, s, Walk(repo, s, p).id, n, Walk(repo, s, p2).id, n2);
      var v, from, to := ViewOf(repo, s, map[]), p + [n], p2 + [n2];
      && (ok <==> from in v && IsDir(v, p2))
      && (ok ==> (Inv(s2) <==> !(from <= to)))
      && (ok ==> (LookupPath(repo, s2, Join(to)).1.Some? <==> !(from <= to)))
  {
    var s1, s2 := RenameSucceeds(repo, s, p, n, p2, n2);
    if Rename(repo, s, Walk(repo, s, p).id, n, Walk(repo, s, p2).id, n2).1 {
      if p + [n] <= p2 + [n2] {
        IntoItself(repo, s, p, n, p2, n2);
      } else {
        RenameChanges(repo, s, map[], p, n, p2, n2);
        MovedFound(repo, s, s2, p, n, p2, n2);
      }
    }
  }

  lemma MovedFound(repo: Repo, s: Vfs, s2: Vfs, p: Path, n: Name, p2: Path, n2: Name)
    requires Inv(s) && Inv(s2) && GoodRepo(repo) && GoodName(n2) && Walk(repo, s, p2).At?
    requires p + [n] in ViewOf(repo, s, map[])
    requires ViewOf(repo, s2, map[]) == Moved(ViewOf(repo, s, map[]), p + [n], p2 + [n2]) && !(p + [n] <= p2 + [n2])
    ensures LookupPath(repo, s2, Join(p2 + [n2])).1.Some?
  {
    var to := p2 + [n2];
    WalkGood(repo, s, p2);
    GoodSnoc(p2, n2);
    assert (p + [n]) + to[|to|..] == p + [n];
    assert to in ViewOf(repo, s2, map[]);
    assert Seen(repo, s2, map[], to).Some?;
    LookupPathFinds(repo, s2, to);
  }

  /** The path of an entry moved below itself: printing it never ends, but directly inside
      itself, where the entry becomes its own parent. */
  lemma MovedBelowItself(repo: Repo, s: Vfs, p: Path, n: Name, p2: Path, n2: Name)
    requires Inv(s) && GoodRepo(repo) && Walk(repo, s, p).At? && Walk(repo, s, p2).At?
    requires p + [n] <= p2 && Rename(repo, s, Walk(repo, s, p).id, n, Walk(repo, s, p2).id, n2).1
    ensures
      var s2 := Rename(repo, s, Walk(repo, s, p).id, n, Walk(repo, s, p2).id, n2).0;
      Walk(repo, s, p + [n]).At? && (Ends(s2, Walk(repo, s, p + [n]).id) <==> p2 == p + [n])
  {
    var s1, s2 := RenameSucceeds(repo, s, p, n, p2, n2);
    WalkPrefix(repo, s, p + [n], p2);
    GrownAt(repo, s, s1, p);
    GrownAt(repo, s, s1, p + [n]);
    GrownAt(repo, s, s1, p2);
    PrefixSnoc(p + [n], p2, n2);
    RenamedReparents(repo, s1, s2, p, n, p2, n2);
    if p2 == p + [n] {
      assert Climbs(s2, Walk(repo, s, p + [n]).id, 0);
    } else {
      forall k: nat ensures !Climbs(s2, Walk(repo, s, p + [n]).id, k) { NeverClimbs(repo, s1, s2, p + [n], p2, k); }
    }
  }

  // ---- new directories

  /** A new directory keeps the tables right exactly when its name was free. */
  lemma MkdirKeeps(repo: Repo, s: Vfs, p: Path, n: Name)
    requires Inv(s) && GoodRepo(repo) && Walk(repo, s, p).At? && GoodName(n)
    ensures
      var (s2, r) := Mkdir(repo, s, Walk(repo, s, p).id, n);
      var v := ViewOf(repo, s, map[]);
      && (r.Some? <==> IsDir(v, p))
      && (r.Some? ==> (Inv(s2) <==> p + [n] !in v))
  {
    var d := Walk(repo, s, p).id;
    PopulateAt(repo, s, map[], p);
    assert p + [n] in ViewOf(repo, s, map[]) <==> Seen(repo, s, map[], p + [n]).Some?;
    if Walk(repo, s, p + [n]).Gone? {
      MkdirChanges(repo, s, map[], p, n);
    } else {
      if Walk(repo, s, p + [n]).At? { WalkAt(repo, s, p + [n]); }
      var s1 := Populate(repo, s, d);
      GrownAt(repo, s, s1, p + [n]);
      WalkSnoc(repo, s1, p, n);
      if CanPopulate(s, d) { TakenTwice(repo, s1, d, n); }
    }
  }

  lemma TakenTwice(repo: Repo, s: Vfs, d: nat, n: Name)
    requires Inv(s) && d in s.dirChildren && (d, n) in s.childMap
    ensures !Inv(Mkdir(repo, s, d, n).0)
  {
    var s2, c := Mkdir(repo, s, d, n).0, s.childMap[(d, n)];
    assert IsChild(s, c, d, n);
    assert s2.childMap[(d, n)] == s.next != c;
    assert Live(s2, c);
  }
}
