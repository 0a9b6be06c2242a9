/** What the mutations of the inode graph do to the tree of paths. */
module VfsChanges {
  import opened Basics
  import opened Paths
  import opened GitData
  import opened Inodes
  import opened TreeView
  import opened VfsInvariant
  import opened Population

  // ---- walks after a change of one or two child links

  /** No other path leads to where `p` leads. */
  ghost predicate OnlyPath(repo: Repo, s: Vfs, p: Path) {
    forall q: Path :: Walk(repo, s, q) == Walk(repo, s, p) ==> q == p
  }

  lemma InvOnlyPath(repo: Repo, s: Vfs, p: Path)
    requires Inv(s) && Walk(repo, s, p).At?
    ensures OnlyPath(repo, s, p)
  {
    forall q: Path | Walk(repo, s, q) == Walk(repo, s, p) ensures q == p {
      WalkUnique(repo, s, p, q);
    }
  }

  /** `s2` lists every directory as `s` does, but for the links (d, n) and (d2, n2). */
  ghost predicate SameBut(repo: Repo, s: Vfs, s2: Vfs, d: nat, n: Name, d2: nat, n2: Name) {
    forall l: Loc, m: Name | !(l == At(d) && m == n) && !(l == At(d2) && m == n2) ::
      Child(repo, s2, l, m) == Child(repo, s, l, m)
  }

  /** With (d, n) cut, everything at or below its path is gone and nothing else changes,
      as long as the path stays clear of the other link. */
  lemma {:induction false} CutWalk(repo: Repo, s: Vfs, s2: Vfs, p: Path, n: Name, p2: Path, n2: Name, q: Path)
    requires Walk(repo, s, p).At? && Walk(repo, s, p2).At? && OnlyPath(repo, s, p) && OnlyPath(repo, s, p2)
    requires SameBut(repo, s, s2, Walk(repo, s, p).id, n, Walk(repo, s, p2).id, n2)
    requires Child(repo, s2, Walk(repo, s, p), n).Gone?
    requires !(p2 + [n2] <= q) || p2 + [n2] == p + [n]
    ensures Walk(repo, s2, q) == if p + [n] <= q then Gone else Walk(repo, s, q)
    decreases |q|
  {
    if q != [] {
      var q0, m := q[..|q| - 1], q[|q| - 1];
      assert q == q0 + [m];
      PrefixSnoc(p2 + [n2], q0, m);
      CutWalk(repo, s, s2, p, n, p2, n2, q0);
      CutStep(repo, s, s2, p, n, p2, n2, q0, m);
    }
  }

  lemma CutStep(repo: Repo, s: Vfs, s2: Vfs, p: Path, n: Name, p2: Path, n2: Name, q: Path, m: Name)
    requires Walk(repo, s, p).At? && Walk(repo, s, p2).At? && OnlyPath(repo, s, p) && OnlyPath(repo, s, p2)
    requires SameBut(repo, s, s2, Walk(repo, s, p).id, n, Walk(repo, s, p2).id, n2)
    requires Child(repo, s2, Walk(repo, s, p), n).Gone?
    requires p2 + [n2] != q + [m] || p2 + [n2] == p + [n]
    requires Walk(repo, s2, q) == if p + [n] <= q then Gone else Walk(repo, s, q)
    ensures Walk(repo, s2, q + [m]) == if p + [n] <= q + [m] then Gone else Walk(repo, s, q + [m])
  {
    WalkSnoc(repo, s, q, m);
    WalkSnoc(repo, s2, q, m);
    PrefixSnoc(p + [n], q, m);
    SnocEq(p, n, q, m);
    SnocEq(p2, n2, q, m);
    SnocEq(p, n, p2, n2);
  }

  /** With (d2, n2) pointing at the inode formerly at (d, n), its path shows the old subtree. */
  lemma {:induction false} ShiftWalk(repo: Repo, s: Vfs, s2: Vfs, p: Path, n: Name, p2: Path, n2: Name, r: Path)
    requires Walk(repo, s, p).At? && Walk(repo, s, p2).At? && OnlyPath(repo, s, p) && OnlyPath(repo, s, p2)
    requires SameBut(repo, s, s2, Walk(repo, s, p).id, n, Walk(repo, s, p2).id, n2)
    requires Child(repo, s2, Walk(repo, s, p), n).Gone?
    requires Child(repo, s2, Walk(repo, s, p2), n2) == Child(repo, s, Walk(repo, s, p), n)
    requires !(p + [n] <= p2 + [n2])
    ensures Walk(repo, s2, p2 + [n2] + r) == Walk(repo, s, p + [n] + r)
    decreases |r|
  {
    var t, t2 := p + [n], p2 + [n2];
    if r == [] {
      assert t + r == t && t2 + r == t2;
      PrefixSnoc(t, p2, n2);
      CutWalk(repo, s, s2, p, n, p2, n2, p2);
      WalkSnoc(repo, s, p, n);
      WalkSnoc(repo, s2, p2, n2);
    } else {
      var r0, m := r[..|r| - 1], r[|r| - 1];
      assert t + r == (t + r0) + [m] && t2 + r == (t2 + r0) + [m];
      ShiftWalk(repo, s, s2, p, n, p2, n2, r0);
      ShiftedApart(p, n, p2, n2, r0);
      ShiftStep(repo, s, s2, p, n, p2, n2, t + r0, t2 + r0, m);
    }
  }

  lemma ShiftStep(repo: Repo, s: Vfs, s2: Vfs, p: Path, n: Name, p2: Path, n2: Name, from: Path, to: Path, m: Name)
    requires Walk(repo, s, p).At? && Walk(repo, s, p2).At? && OnlyPath(repo, s, p) && OnlyPath(repo, s, p2)
    requires SameBut(repo, s, s2, Walk(repo, s, p).id, n, Walk(repo, s, p2).id, n2)
    requires from != p && from != p2 && Walk(repo, s2, to) == Walk(repo, s, from)
    ensures Walk(repo, s2, to + [m]) == Walk(repo, s, from + [m])
  {
    WalkSnoc(repo, s, from, m);
    WalkSnoc(repo, s2, to, m);
  }

  lemma ShiftedApart(p: Path, n: Name, p2: Path, n2: Name, r: Path)
    requires !(p + [n] <= p2 + [n2])
    ensures p + [n] + r != p && p + [n] + r != p2
  {
    PrefixSnoc(p + [n], p2, n2);
    assert |p + [n] + r| > |p|;
    assert (p + [n] + r)[..|p| + 1] == p + [n];
  }

  /** With a childless new inode at (d, n), its path leads there and nothing else changes. */
  lemma {:induction false} GraftWalk(repo: Repo, s: Vfs, s2: Vfs, p: Path, n: Name, c: nat, q: Path)
    requires Walk(repo, s, p).At? && OnlyPath(repo, s, p)
    requires SameBut(repo, s, s2, Walk(repo, s, p).id, n, Walk(repo, s, p).id, n)
    requires Child(repo, s, Walk(repo, s, p), n).Gone? && Child(repo, s2, Walk(repo, s, p), n) == At(c)
    requires c != Walk(repo, s, p).id && forall m: Name :: Child(repo, s, At(c), m).Gone?
    ensures Walk(repo, s2, q) == if q == p + [n] then At(c) else Walk(repo, s, q)
    decreases |q|
  {
    if q != [] {
      var q0, m := q[..|q| - 1], q[|q| - 1];
      assert q == q0 + [m];
      GraftWalk(repo, s, s2, p, n, c, q0);
      GraftStep(repo, s, s2, p, n, c, q0, m);
    }
  }

  lemma GraftStep(repo: Repo, s: Vfs, s2: Vfs, p: Path, n: Name, c: nat, q: Path, m: Name)
    requires Walk(repo, s, p).At? && OnlyPath(repo, s, p)
    requires SameBut(repo, s, s2, Walk(repo, s, p).id, n, Walk(repo, s, p).id, n)
    requires Child(repo, s, Walk(repo, s, p), n).Gone? && Child(repo, s2, Walk(repo, s, p), n) == At(c)
    requires c != Walk(repo, s, p).id && forall k: Name :: Child(repo, s, At(c), k).Gone?
    requires Walk(repo, s2, q) == if q == p + [n] then At(c) else Walk(repo, s, q)
    ensures Walk(repo, s2, q + [m]) == if q + [m] == p + [n] then At(c) else Walk(repo, s, q + [m])
  {
    SnocEq(p, n, q, m);
    WalkSnoc(repo, s, p, n);
    WalkSnoc(repo, s, q, m);
    WalkSnoc(repo, s2, q, m);
  }

  // ---- staging a file's content

  /** Staging content for an inode changes what is seen at its path only; a directory has
      no content to see. */
  lemma StageView(repo: Repo, s: Vfs, files: map<nat, bytes>, p: Path, data: bytes)
    requires NodesOk(s) && Walk(repo, s, p).At? && Walk(repo, s, p).id in s.nodes && OnlyPath(repo, s, p)
    ensures var id := Walk(repo, s, p).id; var v := ViewOf(repo, s, files);
      p in v && ViewOf(repo, s, files[id := data]) ==
        if s.nodes[id].isDir then v else v[p := File(s.nodes[id].mode, Some(data))]
  {
    var id := Walk(repo, s, p).id;
    var v, files2 := ViewOf(repo, s, files), files[id := data];
    assert Seen(repo, s, files, p).Some?;
    forall q: Path | q != p ensures Seen(repo, s, files2, q) == Seen(repo, s, files, q) {
      assert Walk(repo, s, q) != At(id);
    }
    ReplacedView(repo, s, files, files2, p);
  }

  lemma ReplacedView(repo: Repo, s: Vfs, files: map<nat, bytes>, files2: map<nat, bytes>, p: Path)
    requires forall q: Path | q != p :: Seen(repo, s, files2, q) == Seen(repo, s, files, q)
    requires Seen(repo, s, files, p).Some?
    ensures p in ViewOf(repo, s, files)
    ensures ViewOf(repo, s, files2) == ViewOf(repo, s, files)[p := Seen(repo, s, files2, p).value]
  {
  }

  /** No node shows a different entry. */
  ghost predicate SameFaces(s: Vfs, s2: Vfs) {
    && s2.nodes.Keys == s.nodes.Keys
    && forall x | x in s.nodes ::
      && s2.nodes[x].oid == s.nodes[x].oid
      && s2.nodes[x].mode == s.nodes[x].mode
      && s2.nodes[x].isDir == s.nodes[x].isDir
  }

  lemma SameEntry(repo: Repo, s: Vfs, s2: Vfs, files: map<nat, bytes>, l: Loc)
    requires SameFaces(s, s2)
    ensures LocEntry(repo, s2, files, l) == LocEntry(repo, s, files, l)
  {
  }

  // ---- a new child

  /** `s2` is `s` with the new inode `s.next` under its parent; nothing is below it yet. */
  ghost predicate Linked(s: Vfs, s2: Vfs, node: Node) {
    && s2.next == s.next + 1
    && s2.nodes == s.nodes[s.next := node]
    && s2.childMap == s.childMap[(node.parent, node.name) := s.next]
    && node.parent in s.dirChildren && (node.parent, node.name) !in s.childMap
    && s2.dirChildren == (if node.isDir then s.dirChildren[s.next := []] else s.dirChildren)
                           [node.parent := s.dirChildren[node.parent] + [s.next]]
    && !node.deleted && GoodName(node.name)
    && (node.isDir <==> node.mode.Directory?)
  }

  lemma LinkedRooted(s: Vfs, s2: Vfs, node: Node)
    requires Inv(s) && Linked(s, s2, node)
    ensures AllRooted(s2)
  {
    RootedKept(s, s2);
    forall id | id in s2.nodes ensures Rooted(s2, id) {
      if id == s.next {
        assert Rooted(s2, node.parent);
        var k: nat :| AtDepth(s2, node.parent, k);
        assert AtDepth(s2, id, k + 1);
      }
    }
  }

  lemma LinkedLists(s: Vfs, s2: Vfs, node: Node)
    requires Inv(s) && Linked(s, s2, node)
    ensures ListsOk(s2) && MapOk(s2)
  {
    var c := s.next;
    assert c !in s.nodes;
    assert IsChild(s2, c, node.parent, node.name);
    forall x | x in s.nodes && Live(s, x) ensures Live(s2, x) { }
    assert c !in s.dirChildren[node.parent];
    assert forall x :: x in s.dirChildren[node.parent] + [c] <==> x in s.dirChildren[node.parent] || x == c;
  }

  lemma LinkedLive(s: Vfs, s2: Vfs, node: Node)
    requires Inv(s) && Linked(s, s2, node)
    ensures NodesOk(s2) && LiveOk(s2)
  {
    assert s.next in s.dirChildren[node.parent] + [s.next];
    assert s.next !in s.dirChildren;
    forall x | Live(s2, x) ensures x != s.next ==> Live(s, x) { }
    assert forall x :: x in s.dirChildren[node.parent] ==> x in s.dirChildren[node.parent] + [s.next];
  }

  lemma LinkedInv(s: Vfs, s2: Vfs, node: Node)
    requires Inv(s) && Linked(s, s2, node)
    ensures Inv(s2)
  {
    LinkedLists(s, s2, node);
    LinkedLive(s, s2, node);
    LinkedRooted(s, s2, node);
  }

  lemma LinkedChildren(repo: Repo, s: Vfs, s2: Vfs, node: Node)
    requires Inv(s) && Linked(s, s2, node)
    ensures SameBut(repo, s, s2, node.parent, node.name, node.parent, node.name)
    ensures Child(repo, s, At(node.parent), node.name).Gone?
    ensures Child(repo, s2, At(node.parent), node.name) == At(s.next)
    ensures s.next != node.parent && forall m: Name :: Child(repo, s, At(s.next), m).Gone?
  {
    assert s.next !in s.nodes;
    assert forall m: Name :: (s.next, m) !in s.childMap;
  }

  lemma LinkedView(repo: Repo, s: Vfs, s2: Vfs, files: map<nat, bytes>, node: Node, p: Path)
    requires Inv(s) && Linked(s, s2, node) && Walk(repo, s, p) == At(node.parent)
    ensures Walk(repo, s2, p + [node.name]) == At(s.next)
    ensures ViewOf(repo, s2, files) == ViewOf(repo, s, files)[p + [node.name] := NodeEntry(repo, s2, files, s.next)]
    ensures p + [node.name] !in ViewOf(repo, s, files)
  {
    var t := p + [node.name];
    InvOnlyPath(repo, s, p);
    LinkedChildren(repo, s, s2, node);
    GraftWalk(repo, s, s2, p, node.name, s.next, t);
    WalkSnoc(repo, s, p, node.name);
    forall q: Path | q != t ensures Seen(repo, s2, files, q) == Seen(repo, s, files, q) {
      GraftWalk(repo, s, s2, p, node.name, s.next, q);
      if Walk(repo, s, q).At? { WalkAt(repo, s, q); }
    }
    GraftedView(repo, s, s2, files, t);
  }

  lemma GraftedView(repo: Repo, s: Vfs, s2: Vfs, files: map<nat, bytes>, t: Path)
    requires forall q: Path | q != t :: Seen(repo, s2, files, q) == Seen(repo, s, files, q)
    requires Walk(repo, s2, t).At? && Walk(repo, s2, t).id in s2.nodes && Walk(repo, s, t).Gone?
    ensures t !in ViewOf(repo, s, files)
    ensures ViewOf(repo, s2, files)
            == ViewOf(repo, s, files)[t := NodeEntry(repo, s2, files, Walk(repo, s2, t).id)]
  {
    assert Seen(repo, s2, files, t).Some?;
  }

  // ---- a removed child

  ghost predicate Unlinked(s: Vfs, s2: Vfs, d: nat, n: Name) {
    && (d, n) in s.childMap && d in s.dirChildren
    && var c := s.childMap[(d, n)];
    && c in s.nodes
    && s2 == Vfs(
        s.nodes[c := s.nodes[c].(deleted := true)],
        s.childMap - {(d, n)},
        s.dirChildren[d := Without(s.dirChildren[d], c)],
        s.next)
  }

  lemma {:induction false} WithoutNoDup(ids: seq<nat>, id: nat)
    requires NoDup(ids)
    ensures NoDup(Without(ids, id))
  {
    if ids != [] {
      var front := ids[..|ids| - 1];
      WithoutNoDup(front, id);
      var last := ids[|ids| - 1];
      assert last !in front;
      assert last !in Without(front, id);
      assert forall i | 0 <= i < |Without(front, id)| :: Without(front, id)[i] != last;
    }
  }

  lemma UnlinkedMap(s: Vfs, s2: Vfs, d: nat, n: Name)
    requires Inv(s) && Unlinked(s, s2, d, n)
    ensures NodesOk(s2) && MapOk(s2)
  {
    assert IsChild(s, s.childMap[(d, n)], d, n);
    forall x, m | (x, m) in s2.childMap ensures x in s2.dirChildren && IsChild(s2, s2.childMap[(x, m)], x, m) {
      assert IsChild(s, s.childMap[(x, m)], x, m);
    }
  }

  lemma UnlinkedLists(s: Vfs, s2: Vfs, d: nat, n: Name)
    requires Inv(s) && Unlinked(s, s2, d, n)
    ensures ListsOk(s2)
  {
    var c := s.childMap[(d, n)];
    WithoutNoDup(s.dirChildren[d], c);
    assert IsChild(s, c, d, n);
    forall x, y | x in s2.dirChildren && y in s2.dirChildren[x]
      ensures y in s2.nodes && IsChild(s2, y, x, s2.nodes[y].name)
    {
      assert y in s.dirChildren[x] && IsChild(s, y, x, s.nodes[y].name);
    }
  }

  lemma UnlinkedLive(s: Vfs, s2: Vfs, d: nat, n: Name)
    requires Inv(s) && Unlinked(s, s2, d, n)
    ensures LiveOk(s2)
  {
    forall x | Live(s2, x) ensures Live(s, x) && x != s.childMap[(d, n)] { }
    assert IsChild(s, s.childMap[(d, n)], d, n);
  }

  lemma UnlinkedInv(s: Vfs, s2: Vfs, d: nat, n: Name)
    requires Inv(s) && Unlinked(s, s2, d, n)
    ensures Inv(s2)
  {
    UnlinkedMap(s, s2, d, n);
    UnlinkedLists(s, s2, d, n);
    UnlinkedLive(s, s2, d, n);
    RootedKept(s, s2);
  }

  lemma UnlinkedWalk(repo: Repo, s: Vfs, s2: Vfs, p: Path, n: Name, q: Path)
    requires Inv(s) && Walk(repo, s, p).At? && Unlinked(s, s2, Walk(repo, s, p).id, n)
    ensures Walk(repo, s2, q) == if p + [n] <= q then Gone else Walk(repo, s, q)
  {
    InvOnlyPath(repo, s, p);
    UnlinkedChildren(repo, s, s2, Walk(repo, s, p).id, n);
    CutWalk(repo, s, s2, p, n, p, n, q);
  }

  lemma UnlinkedChildren(repo: Repo, s: Vfs, s2: Vfs, d: nat, n: Name)
    requires Unlinked(s, s2, d, n)
    ensures SameBut(repo, s, s2, d, n, d, n) && Child(repo, s2, At(d), n).Gone?
  {
  }

  lemma UnlinkedView(repo: Repo, s: Vfs, s2: Vfs, files: map<nat, bytes>, p: Path, n: Name)
    requires Inv(s) && Walk(repo, s, p).At? && Unlinked(s, s2, Walk(repo, s, p).id, n)
    ensures ViewOf(repo, s2, files) == Deleted(ViewOf(repo, s, files), p + [n])
  {
    assert SameFaces(s, s2);
    forall q: Path ensures Seen(repo, s2, files, q) == (if p + [n] <= q then None else Seen(repo, s, files, q)) {
      UnlinkedWalk(repo, s, s2, p, n, q);
      SameEntry(repo, s, s2, files, Walk(repo, s2, q));
    }
    DeletedView(repo, s, s2, files, p + [n]);
  }

  lemma DeletedView(repo: Repo, s: Vfs, s2: Vfs, files: map<nat, bytes>, t: Path)
    requires forall q: Path :: Seen(repo, s2, files, q) == (if t <= q then None else Seen(repo, s, files, q))
    ensures ViewOf(repo, s2, files) == Deleted(ViewOf(repo, s, files), t)
  {
  }

  // ---- a moved child

  /** `s2` is `s` with the inode at (d, n) moved to (d2, n2), whose old inode is cut off. */
  ghost predicate Shifted(s: Vfs, s2: Vfs, d: nat, n: Name, d2: nat, n2: Name) {
    && (d, n) in s.childMap && d in s.dirChildren && d2 in s.dirChildren && (d, n) != (d2, n2)
    && s2.dirChildren.Keys == s.dirChildren.Keys
    && SameFaces(s, s2)
    && s2.childMap == (s.childMap - {(d, n)})[(d2, n2) := s.childMap[(d, n)]]
  }

  lemma ShiftedChildren(repo: Repo, s: Vfs, s2: Vfs, d: nat, n: Name, d2: nat, n2: Name)
    requires Shifted(s, s2, d, n, d2, n2)
    ensures SameBut(repo, s, s2, d, n, d2, n2)
    ensures Child(repo, s2, At(d), n).Gone?
    ensures Child(repo, s2, At(d2), n2) == Child(repo, s, At(d), n)
  {
  }

  lemma ShiftedLinks(repo: Repo, s: Vfs, s2: Vfs, p: Path, n: Name, p2: Path, n2: Name)
    requires Inv(s) && Walk(repo, s, p).At? && Walk(repo, s, p2).At?
    requires Shifted(s, s2, Walk(repo, s, p).id, n, Walk(repo, s, p2).id, n2)
    ensures OnlyPath(repo, s, p) && OnlyPath(repo, s, p2)
    ensures SameBut(repo, s, s2, Walk(repo, s, p).id, n, Walk(repo, s, p2).id, n2)
    ensures Child(repo, s2, Walk(repo, s, p), n).Gone?
    ensures Child(repo, s2, Walk(repo, s, p2), n2) == Child(repo, s, Walk(repo, s, p), n)
  {
    InvOnlyPath(repo, s, p);
    InvOnlyPath(repo, s, p2);
    ShiftedChildren(repo, s, s2, Walk(repo, s, p).id, n, Walk(repo, s, p2).id, n2);
  }

  /** Where `q` leads once the subtree at `t` has moved to `t2`. */
  function WalkMoved(repo: Repo, s: Vfs, t: Path, t2: Path, q: Path): Loc {
    if t2 <= q then Walk(repo, s, t + q[|t2|..])
    else if t <= q then Gone
    else Walk(repo, s, q)
  }

  lemma ShiftedWalk(repo: Repo, s: Vfs, s2: Vfs, p: Path, n: Name, p2: Path, n2: Name, q: Path)
    requires Walk(repo, s, p).At? && Walk(repo, s, p2).At? && OnlyPath(repo, s, p) && OnlyPath(repo, s, p2)
    requires SameBut(repo, s, s2, Walk(repo, s, p).id, n, Walk(repo, s, p2).id, n2)
    requires Child(repo, s2, Walk(repo, s, p), n).Gone?
    requires Child(repo, s2, Walk(repo, s, p2), n2) == Child(repo, s, Walk(repo, s, p), n)
    requires !(p + [n] <= p2 + [n2])
    ensures Walk(repo, s2, q) == WalkMoved(repo, s, p + [n], p2 + [n2], q)
  {
    var t2 := p2 + [n2];
    if t2 <= q {
      assert q == t2 + q[|t2|..];
      ShiftWalk(repo, s, s2, p, n, p2, n2, q[|t2|..]);
    } else {
      CutWalk(repo, s, s2, p, n, p2, n2, q);
    }
  }

  lemma ShiftedView(repo: Repo, s: Vfs, s2: Vfs, files: map<nat, bytes>, p: Path, n: Name, p2: Path, n2: Name)
    requires Inv(s) && Walk(repo, s, p).At? && Walk(repo, s, p2).At?
    requires Shifted(s, s2, Walk(repo, s, p).id, n, Walk(repo, s, p2).id, n2)
    requires !(p + [n] <= p2 + [n2])
    ensures ViewOf(repo, s2, files) == Moved(ViewOf(repo, s, files), p + [n], p2 + [n2])
  {
    ShiftedLinks(repo, s, s2, p, n, p2, n2);
    forall q: Path
      ensures Seen(repo, s2, files, q) == LocEntry(repo, s, files, WalkMoved(repo, s, p + [n], p2 + [n2], q))
    {
      ShiftedWalk(repo, s, s2, p, n, p2, n2, q);
      SameEntry(repo, s, s2, files, Walk(repo, s2, q));
    }
    MovedView(repo, s, s2, files, p + [n], p2 + [n2]);
  }

  lemma MovedView(repo: Repo, s: Vfs, s2: Vfs, files: map<nat, bytes>, t: Path, t2: Path)
    requires forall q: Path :: Seen(repo, s2, files, q) == LocEntry(repo, s, files, WalkMoved(repo, s, t, t2, q))
    ensures ViewOf(repo, s2, files) == Moved(ViewOf(repo, s, files), t, t2)
  {
    var v, v2, w := ViewOf(repo, s, files), ViewOf(repo, s2, files), Moved(ViewOf(repo, s, files), t, t2);
    forall q: Path ensures q in v2 <==> q in w {
      MovedAt(repo, s, files, t, t2, q);
      assert q in v2 <==> Seen(repo, s2, files, q).Some?;
    }
    forall q: Path | q in v2 ensures v2[q] == w[q] {
      MovedAt(repo, s, files, t, t2, q);
      assert v2[q] == Seen(repo, s2, files, q).value;
    }
  }

  lemma MovedAt(repo: Repo, s: Vfs, files: map<nat, bytes>, t: Path, t2: Path, q: Path)
    ensures var e := LocEntry(repo, s, files, WalkMoved(repo, s, t, t2, q)); var w := Moved(ViewOf(repo, s, files), t,
      t2);
      (q in w <==> e.Some?) && (q in w ==> w[q] == e.value)
  {
    var v := ViewOf(repo, s, files);
    if t2 <= q {
      var src := t + q[|t2|..];
      assert src in v <==> Seen(repo, s, files, src).Some?;
    } else {
      assert q in v <==> Seen(repo, s, files, q).Some?;
    }
  }
}
