/** What holds of the four tables in every state a server reaches, and what a path denotes
    in a state where only part of the tree has been populated. */
module VfsInvariant {
  import opened Basics
  import opened Paths
  import opened GitData
  import opened Inodes
  import opened TreeView

  // ---- the invariant

  ghost predicate Live(s: Vfs, c: nat) {
    c in s.nodes && c != ROOT && !s.nodes[c].deleted
  }

  ghost predicate IsChild(s: Vfs, c: nat, d: nat, n: Name) {
    Live(s, c) && s.nodes[c].parent == d && s.nodes[c].name == n
  }

  ghost predicate NoDup(ids: seq<nat>) {
    forall i, j | 0 <= i < j < |ids| :: ids[i] != ids[j]
  }

  /** `id` reaches the root in exactly `k` steps up its parent chain. */
  ghost predicate AtDepth(s: Vfs, id: nat, k: nat)
    decreases k
  {
    if k == 0 then id == ROOT
    else id != ROOT && id in s.nodes && AtDepth(s, s.nodes[id].parent, k - 1)
  }

  lemma {:induction false} DepthUnique(s: Vfs, id: nat, k: nat)
    requires AtDepth(s, id, k)
    ensures forall j: nat | AtDepth(s, id, j) :: j == k
    decreases k
  {
    if k > 0 { DepthUnique(s, s.nodes[id].parent, k - 1); }
  }

  ghost predicate Rooted(s: Vfs, id: nat) {
    exists k: nat :: AtDepth(s, id, k)
  }

  ghost predicate NodesOk(s: Vfs) {
    && ROOT in s.nodes && s.nodes[ROOT].isDir && !s.nodes[ROOT].deleted
    && forall id | id in s.nodes ::
      && 0 < id < s.next
      && (s.nodes[id].isDir <==> s.nodes[id].mode.Directory?)
      && (id != ROOT ==> GoodName(s.nodes[id].name))
  }

  ghost predicate MapOk(s: Vfs) {
    forall d, n | (d, n) in s.childMap :: d in s.dirChildren && IsChild(s, s.childMap[(d, n)], d, n)
  }

  ghost predicate ListsOk(s: Vfs) {
    forall d | d in s.dirChildren ::
      && d in s.nodes && s.nodes[d].isDir
      && NoDup(s.dirChildren[d])
      && forall c | c in s.dirChildren[d] :: c in s.nodes && IsChild(s, c, d, s.nodes[c].name)
  }

  ghost predicate LiveOk(s: Vfs) {
    forall c {:trigger Live(s, c)} | Live(s, c) ::
      && (s.nodes[c].parent, s.nodes[c].name) in s.childMap
      && s.childMap[(s.nodes[c].parent, s.nodes[c].name)] == c
      && s.nodes[c].parent in s.dirChildren
      && c in s.dirChildren[s.nodes[c].parent]
  }

  ghost predicate AllRooted(s: Vfs) {
    forall id {:trigger Rooted(s, id)} | id in s.nodes :: Rooted(s, id)
  }

  ghost predicate Inv(s: Vfs) {
    NodesOk(s) && MapOk(s) && ListsOk(s) && LiveOk(s) && AllRooted(s)
  }

  /** How often `c` is listed under `d`. */
  ghost function Listed(s: Vfs, d: nat, c: nat): nat {
    if d in s.dirChildren then multiset(s.dirChildren[d])[c] else 0
  }

  lemma {:induction false} CountOnce(ids: seq<nat>, c: nat)
    requires NoDup(ids)
    ensures multiset(ids)[c] == if c in ids then 1 else 0
  {
    if ids != [] {
      assert ids == [ids[0]] + ids[1..];
      CountOnce(ids[1..], c);
    }
  }

  /** The two child tables say the same: a name maps to an inode exactly when that inode is
      listed once under the directory and is a live node with that parent and name. */
  lemma TablesAgree(s: Vfs, d: nat, n: Name, c: nat)
    requires Inv(s)
    ensures (d, n) in s.childMap && s.childMap[(d, n)] == c <==> Listed(s, d, c) == 1 && IsChild(s, c, d, n)
    ensures Listed(s, d, c) <= 1
    ensures IsChild(s, c, d, n) ==> Listed(s, d, c) == 1
  {
    if d in s.dirChildren { CountOnce(s.dirChildren[d], c); }
  }

  // ---- what a path denotes

  /** Where a path leads: nowhere, to an inode, or to an entry of a base tree below a
      directory that has not been populated. */
  datatype Loc = Gone | At(id: nat) | Base(mode: TreeEntryMode, oid: Oid)

  function BaseChild(repo: Repo, oid: Oid, name: Name): Loc {
    match FindEntry(EntriesOf(repo, oid), name)
    case None => Gone
    case Some(e) => Base(e.mode, e.oid)
  }

  function Child(repo: Repo, s: Vfs, l: Loc, n: Name): Loc {
    match l
    case Gone => Gone
    case At(id) =>
      if id in s.dirChildren then
        if (id, n) in s.childMap then At(s.childMap[(id, n)]) else Gone
      else if id in s.nodes && s.nodes[id].isDir then BaseChild(repo, s.nodes[id].oid, n)
      else Gone
    case Base(mode, oid) => if mode.Directory? then BaseChild(repo, oid, n) else Gone
  }

  function Walk(repo: Repo, s: Vfs, p: Path): Loc {
    if p == [] then At(ROOT) else Child(repo, s, Walk(repo, s, p[..|p| - 1]), p[|p| - 1])
  }

  lemma WalkSnoc(repo: Repo, s: Vfs, p: Path, n: Name)
    ensures Walk(repo, s, p + [n]) == Child(repo, s, Walk(repo, s, p), n)
  {
    assert (p + [n])[..|p|] == p;
  }

  lemma {:induction false} WalkAt(repo: Repo, s: Vfs, p: Path)
    requires Inv(s) && Walk(repo, s, p).At?
    ensures var id := Walk(repo, s, p).id;
      id in s.nodes && !s.nodes[id].deleted && AtDepth(s, id, |p|) && (p == [] <==> id == ROOT)
  {
    if p != [] {
      var q := p[..|p| - 1];
      assert Walk(repo, s, q).At?;
      WalkAt(repo, s, q);
      var d, n := Walk(repo, s, q).id, p[|p| - 1];
      assert (d, n) in s.childMap;
    }
  }

  /** An inode is reached by one path only. */
  lemma {:induction false} WalkUnique(repo: Repo, s: Vfs, p: Path, q: Path)
    requires Inv(s) && Walk(repo, s, p).At? && Walk(repo, s, p) == Walk(repo, s, q)
    ensures p == q
    decreases |p|
  {
    WalkAt(repo, s, p);
    WalkAt(repo, s, q);
    if p != [] {
      var p0, q0 := p[..|p| - 1], q[..|q| - 1];
      assert (Walk(repo, s, p0).id, p[|p| - 1]) in s.childMap;
      assert (Walk(repo, s, q0).id, q[|q| - 1]) in s.childMap;
      WalkUnique(repo, s, p0, q0);
      assert p == p0 + [p[|p| - 1]] && q == q0 + [q[|q| - 1]];
    }
  }

  /** A path that leads somewhere leads somewhere at each step. */
  lemma {:induction false} WalkPrefix(repo: Repo, s: Vfs, p: Path, q: Path)
    requires p <= q && !Walk(repo, s, q).Gone?
    ensures !Walk(repo, s, p).Gone?
    ensures Walk(repo, s, q).At? ==> Walk(repo, s, p).At?
    decreases |q|
  {
    if p != q {
      assert q[..|q| - 1][..|p|] == p;
      WalkPrefix(repo, s, p, q[..|q| - 1]);
    }
  }

  /** An inode found by a path is populated above: all names on the way are good. */
  lemma {:induction false} WalkGood(repo: Repo, s: Vfs, p: Path)
    requires Inv(s) && GoodRepo(repo) && !Walk(repo, s, p).Gone?
    ensures GoodPath(p)
  {
    if p != [] {
      var p0, n := p[..|p| - 1], p[|p| - 1];
      WalkGood(repo, s, p0);
      var l := Walk(repo, s, p0);
      if l.At? && l.id in s.dirChildren {
        assert (l.id, n) in s.childMap;
      } else {
        var oid := if l.At? then s.nodes[l.id].oid else l.oid;
        var e := FindEntry(EntriesOf(repo, oid), n).value;
        assert oid in repo.trees && e in repo.trees[oid];
      }
      SplitLast(p);
    }
  }

  // ---- contents

  function BaseContent(repo: Repo, oid: Oid): Option<bytes> {
    if oid == [] then Some([]) else if oid in repo.blobs then Some(repo.blobs[oid]) else None
  }

  /** `files` holds the staged copies by inode; they hide the base blob. */
  function NodeEntry(repo: Repo, s: Vfs, files: map<nat, bytes>, id: nat): Entry
    requires id in s.nodes
  {
    if s.nodes[id].isDir then Dir
    else File(s.nodes[id].mode, if id in files then Some(files[id]) else BaseContent(repo, s.nodes[id].oid))
  }

  function BaseEntry(repo: Repo, mode: TreeEntryMode, oid: Oid): Entry {
    if mode.Directory? then Dir else File(mode, BaseContent(repo, oid))
  }

  function LocEntry(repo: Repo, s: Vfs, files: map<nat, bytes>, l: Loc): Option<Entry> {
    match l
    case Gone => None
    case At(id) => if id in s.nodes then Some(NodeEntry(repo, s, files, id)) else None
    case Base(mode, oid) => Some(BaseEntry(repo, mode, oid))
  }

  ghost function Seen(repo: Repo, s: Vfs, files: map<nat, bytes>, p: Path): Option<Entry> {
    LocEntry(repo, s, files, Walk(repo, s, p))
  }

  /** The tree of paths a state stands for. */
  ghost function ViewOf(repo: Repo, s: Vfs, files: map<nat, bytes>): View {
    imap p: Path | Seen(repo, s, files, p).Some? :: Seen(repo, s, files, p).value
  }

  /** The tree of paths a Git tree stands for. */
  function BaseWalk(repo: Repo, root: Oid, p: Path): Loc {
    if p == [] then Base(Directory, root)
    else
      match BaseWalk(repo, root, p[..|p| - 1])
      case Base(Directory, oid) => BaseChild(repo, oid, p[|p| - 1])
      case _ => Gone
  }

  ghost function BaseView(repo: Repo, root: Oid): View {
    imap p: Path | BaseWalk(repo, root, p).Base? ::
      BaseEntry(repo, BaseWalk(repo, root, p).mode, BaseWalk(repo, root, p).oid)
  }

  lemma FreshInv(root: Oid)
    ensures Inv(Unpopulated(root))
  {
    assert AtDepth(Unpopulated(root), ROOT, 0);
  }

  lemma {:induction false} FreshWalk(repo: Repo, root: Oid, p: Path)
    ensures p != [] ==> Walk(repo, Unpopulated(root), p) == BaseWalk(repo, root, p)
    ensures !BaseWalk(repo, root, p).At?
    decreases |p|
  {
    if p != [] {
      FreshWalk(repo, root, p[..|p| - 1]);
    }
  }

  /** A VFS that has populated nothing yet shows the base tree. */
  lemma FreshView(repo: Repo, root: Oid)
    ensures ViewOf(repo, Unpopulated(root), map[]) == BaseView(repo, root)
  {
    forall p: Path { FreshWalk(repo, root, p); }
  }
}
