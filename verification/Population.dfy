/** Populating a directory on demand never changes what a path denotes. */
module Population {
  import opened Basics
  import opened Paths
  import opened GitData
  import opened Inodes
  import opened TreeView
  import opened VfsInvariant

  /** `l2` is where `l1` leads once more of the tree is populated: the same place, or the
      inode that now stands for the base entry. */
  ghost predicate SamePlace(s: Vfs, s2: Vfs, l1: Loc, l2: Loc) {
    || l1 == l2
    || (l1.Base? && l2.At? && l2.id in s2.nodes && l2.id >= s.next
        && s2.nodes[l2.id].mode == l1.mode && s2.nodes[l2.id].oid == l1.oid)
  }

  ghost predicate SameAt(repo: Repo, s: Vfs, s2: Vfs, p: Path) {
    SamePlace(s, s2, Walk(repo, s, p), Walk(repo, s2, p))
  }

  /** `s2` is `s` with some directories populated. */
  ghost predicate Grown(repo: Repo, s: Vfs, s2: Vfs) {
    && s.next <= s2.next
    && s.nodes.Keys <= s2.nodes.Keys
    && (forall id | id in s.nodes :: s2.nodes[id] == s.nodes[id])
    && (forall id | id in s2.nodes && id !in s.nodes :: id >= s.next)
    && (forall p: Path {:trigger SameAt(repo, s, s2, p)} :: SameAt(repo, s, s2, p))
  }

  lemma GrownReflexive(repo: Repo, s: Vfs)
    ensures Grown(repo, s, s)
  {
  }

  lemma GrownTransitive(repo: Repo, s: Vfs, s1: Vfs, s2: Vfs)
    requires Grown(repo, s, s1) && Grown(repo, s1, s2)
    ensures Grown(repo, s, s2)
  {
    forall p: Path ensures SameAt(repo, s, s2, p) {
      assert SameAt(repo, s, s1, p) && SameAt(repo, s1, s2, p);
    }
  }

  /** What a reader sees is unchanged, whatever is staged for the inodes of `s`. */
  lemma SamePlaceSeen(repo: Repo, s: Vfs, s2: Vfs, files: map<nat, bytes>, p: Path)
    requires Inv(s) && NodesOk(s2) && Grown(repo, s, s2)
    requires forall id | id in files :: id < s.next
    ensures Seen(repo, s2, files, p) == Seen(repo, s, files, p)
  {
    assert SameAt(repo, s, s2, p);
    if Walk(repo, s, p).At? { WalkAt(repo, s, p); }
  }

  /** What a reader sees is unchanged, whatever is staged for the inodes of `s`. */
  lemma GrownView(repo: Repo, s: Vfs, s2: Vfs, files: map<nat, bytes>)
    requires Inv(s) && Inv(s2) && Grown(repo, s, s2)
    requires forall id | id in files :: id < s.next
    ensures ViewOf(repo, s2, files) == ViewOf(repo, s, files)
  {
    forall p: Path { SamePlaceSeen(repo, s, s2, files, p); }
  }

  lemma GrownAt(repo: Repo, s: Vfs, s2: Vfs, p: Path)
    requires Grown(repo, s, s2)
    ensures Walk(repo, s, p).At? ==> Walk(repo, s2, p) == Walk(repo, s, p)
    ensures Walk(repo, s, p).Gone? <==> Walk(repo, s2, p).Gone?
  {
    assert SameAt(repo, s, s2, p);
  }

  // ---- one directory

  /** The new inodes and the new names stand for each other, under `d`. */
  ghost predicate Paired(s: Vfs, d: nat, b: Batch) {
    && (forall id: nat :: id in b.nodes <==> s.next <= id < b.next)
    && (forall id | id in b.nodes ::
          && b.nodes[id].parent == d && !b.nodes[id].deleted
          && (d, b.nodes[id].name) in b.children && b.children[(d, b.nodes[id].name)] == id)
    && (forall k | k in b.children ::
          k.0 == d && b.children[k] in b.nodes && b.nodes[b.children[k]].name == k.1)
  }

  /** Each new inode carries the mode and object id of the tree entry of its name. */
  ghost predicate Copies(d: nat, entries: Entries, b: Batch) {
    && (forall n: Name :: (d, n) in b.children <==> FindEntry(entries, n).Some?)
    && (forall id | id in b.nodes :: FindEntry(entries, b.nodes[id].name).Some?
          && b.nodes[id] == EntryNode(d, FindEntry(entries, b.nodes[id].name).value))
  }

  lemma {:induction false} FindEntrySnoc(entries: Entries, e: TreeEntry, n: Name)
    ensures FindEntry(entries + [e], n) ==
            if FindEntry(entries, n).Some? then FindEntry(entries, n)
            else if e.name == n then Some(e) else None
  {
    if entries != [] {
      assert (entries + [e])[1..] == entries[1..] + [e];
      FindEntrySnoc(entries[1..], e, n);
    }
  }

  lemma {:induction false} CollectIds(s: Vfs, d: nat, entries: Entries)
    requires MapOk(s) && d !in s.dirChildren
    ensures var b := Collect(s, d, entries);
      && b.next == s.next + |entries| && |b.ids| == |entries|
      && (forall i | 0 <= i < |b.ids| :: b.ids[i] == s.next + i)
      && (forall id: nat :: id in b.nodes <==> s.next <= id < b.next)
  {
    if entries != [] {
      assert (d, entries[|entries| - 1].name) !in s.childMap;
      CollectIds(s, d, entries[..|entries| - 1]);
    }
  }

  lemma PairedSnoc(s: Vfs, d: nat, e: TreeEntry, b0: Batch, b: Batch)
    requires Paired(s, d, b0) && b0.next >= s.next
    requires (d, e.name) !in b0.children
    requires b.nodes == b0.nodes[b0.next := EntryNode(d, e)] && b.children == b0.children[(d, e.name) := b0.next]
    requires b.next == b0.next + 1
    ensures Paired(s, d, b)
  {
  }

  lemma CopiesSnoc(d: nat, front: Entries, e: TreeEntry, b0: Batch, b: Batch)
    requires Copies(d, front, b0) && FindEntry(front, e.name).None?
    requires b.nodes == b0.nodes[b0.next := EntryNode(d, e)] && b.children == b0.children[(d, e.name) := b0.next]
    ensures Copies(d, front + [e], b)
  {
    forall n: Name { FindEntrySnoc(front, e, n); }
  }

  lemma LastIsNew(front: Entries, e: TreeEntry)
    requires DistinctNames(front + [e])
    ensures FindEntry(front, e.name).None?
  {
    forall i | 0 <= i < |front| ensures front[i].name != e.name {
      assert (front + [e])[i] == front[i] && (front + [e])[|front|] == e;
    }
  }

  /** In a state that meets the invariant an unpopulated directory has no children yet, so
      every entry gets the next inode number. */
  lemma {:induction false} CollectAll(s: Vfs, d: nat, entries: Entries)
    requires MapOk(s) && d !in s.dirChildren && DistinctNames(entries)
    ensures Paired(s, d, Collect(s, d, entries)) && Copies(d, entries, Collect(s, d, entries))
  {
    CollectIds(s, d, entries);
    if entries != [] {
      var front, e := entries[..|entries| - 1], entries[|entries| - 1];
      assert entries == front + [e];
      CollectAll(s, d, front);
      var b0, b := Collect(s, d, front), Collect(s, d, entries);
      assert (d, e.name) !in s.childMap;
      LastIsNew(front, e);
      CollectIds(s, d, front);
      PairedSnoc(s, d, e, b0, b);
      CopiesSnoc(d, front, e, b0, b);
    }
  }

  ghost predicate Numbered(s: Vfs, b: Batch) {
    && NoDup(b.ids)
    && (forall id :: id in b.ids <==> id in b.nodes)
  }

  lemma CollectNumbered(s: Vfs, d: nat, entries: Entries)
    requires MapOk(s) && d !in s.dirChildren
    ensures Numbered(s, Collect(s, d, entries))
  {
    CollectIds(s, d, entries);
    var b := Collect(s, d, entries);
    forall id | id in b.nodes ensures id in b.ids {
      assert b.ids[id - s.next] == id;
    }
  }

  /** `s2` is `s` with directory `d` populated from `entries`. */
  ghost predicate PopulatedBy(s: Vfs, s2: Vfs, d: nat, entries: Entries, b: Batch) {
    && Paired(s, d, b)
    && Copies(d, entries, b)
    && Numbered(s, b)
    && s.next <= b.next
    && s2 == Vfs(s.nodes + b.nodes, s.childMap + b.children, s.dirChildren[d := b.ids], b.next)
  }

  /** `d` is a directory of `s` that is not yet populated. */
  ghost predicate Waiting(s: Vfs, d: nat) {
    Inv(s) && d in s.nodes && s.nodes[d].isDir && d !in s.dirChildren
  }

  lemma PopulatedNames(s: Vfs, s2: Vfs, d: nat, entries: Entries, b: Batch)
    requires Waiting(s, d) && GoodEntries(entries) && PopulatedBy(s, s2, d, entries, b)
    ensures forall id | id in b.nodes :: GoodName(b.nodes[id].name) && IsChild(s2, id, d, b.nodes[id].name)
    ensures NodesOk(s2)
  {
    forall id | id in b.nodes ensures GoodName(b.nodes[id].name) {
      var e := FindEntry(entries, b.nodes[id].name).value;
      var i :| 0 <= i < |entries| && entries[i] == e;
    }
  }

  lemma PopulatedMap(s: Vfs, s2: Vfs, d: nat, entries: Entries, b: Batch)
    requires Waiting(s, d) && GoodEntries(entries) && PopulatedBy(s, s2, d, entries, b)
    ensures MapOk(s2)
  {
    PopulatedNames(s, s2, d, entries, b);
    forall x, n | (x, n) in s2.childMap ensures x in s2.dirChildren && IsChild(s2, s2.childMap[(x, n)], x, n) {
      if (x, n) !in b.children { assert IsChild(s, s.childMap[(x, n)], x, n); }
    }
  }

  lemma PopulatedLive(s: Vfs, s2: Vfs, d: nat, entries: Entries, b: Batch)
    requires Waiting(s, d) && PopulatedBy(s, s2, d, entries, b)
    ensures LiveOk(s2)
  {
    forall c | Live(s2, c) ensures c in s.nodes ==> Live(s, c) { }
  }

  lemma PopulatedInv(s: Vfs, s2: Vfs, d: nat, entries: Entries, b: Batch)
    requires Waiting(s, d) && GoodEntries(entries) && PopulatedBy(s, s2, d, entries, b)
    ensures Inv(s2)
  {
    PopulatedNames(s, s2, d, entries, b);
    PopulatedMap(s, s2, d, entries, b);
    PopulatedLive(s, s2, d, entries, b);
    RootedKept(s, s2);
    forall id | id in s2.nodes ensures Rooted(s2, id) {
      if id in b.nodes {
        assert Rooted(s2, d);
        var k: nat :| AtDepth(s2, d, k);
        assert AtDepth(s2, id, k + 1);
      }
    }
  }

  lemma {:induction false} DepthKept(s: Vfs, s2: Vfs, id: nat, k: nat)
    requires forall x | x in s.nodes :: x in s2.nodes && s2.nodes[x].parent == s.nodes[x].parent
    requires AtDepth(s, id, k)
    ensures AtDepth(s2, id, k)
    decreases k
  {
    if k > 0 { DepthKept(s, s2, s.nodes[id].parent, k - 1); }
  }

  lemma RootedKept(s: Vfs, s2: Vfs)
    requires forall x | x in s.nodes :: x in s2.nodes && s2.nodes[x].parent == s.nodes[x].parent
    requires AllRooted(s)
    ensures forall id | id in s.nodes :: Rooted(s2, id)
  {
    forall id | id in s.nodes ensures Rooted(s2, id) {
      assert Rooted(s, id);
      var k: nat :| AtDepth(s, id, k);
      DepthKept(s, s2, id, k);
    }
  }

  lemma PopulatedChild(repo: Repo, s: Vfs, s2: Vfs, d: nat, b: Batch, n: Name)
    requires Waiting(s, d) && PopulatedBy(s, s2, d, EntriesOf(repo, s.nodes[d].oid), b)
    ensures SamePlace(s, s2, Child(repo, s, At(d), n), Child(repo, s2, At(d), n))
  {
    assert (d, n) !in s.childMap;
  }

  /** Every other directory lists as before. */
  lemma PopulatedElsewhere(repo: Repo, s: Vfs, s2: Vfs, d: nat, b: Batch, x: nat, n: Name)
    requires Waiting(s, d) && PopulatedBy(s, s2, d, EntriesOf(repo, s.nodes[d].oid), b)
    requires x != d && x in s.nodes
    ensures Child(repo, s2, At(x), n) == Child(repo, s, At(x), n)
  {
    assert (x, n) !in b.children;
  }

  /** A freshly numbered inode is not populated and lists like the entry it stands for. */
  lemma PopulatedNew(repo: Repo, s: Vfs, s2: Vfs, d: nat, b: Batch, c: nat, n: Name)
    requires Waiting(s, d) && PopulatedBy(s, s2, d, EntriesOf(repo, s.nodes[d].oid), b)
    requires c in s2.nodes && c >= s.next
    ensures Child(repo, s2, At(c), n) == Child(repo, s, Base(s2.nodes[c].mode, s2.nodes[c].oid), n)
  {
    assert c !in s.nodes;
    assert c !in s2.dirChildren;
  }

  lemma {:induction false} PopulatedWalk(repo: Repo, s: Vfs, s2: Vfs, d: nat, b: Batch, p: Path)
    requires Waiting(s, d) && PopulatedBy(s, s2, d, EntriesOf(repo, s.nodes[d].oid), b)
    ensures SamePlace(s, s2, Walk(repo, s, p), Walk(repo, s2, p))
    decreases |p|
  {
    if p != [] {
      var p0, n := p[..|p| - 1], p[|p| - 1];
      PopulatedWalk(repo, s, s2, d, b, p0);
      var l, l2 := Walk(repo, s, p0), Walk(repo, s2, p0);
      if l != l2 { PopulatedNew(repo, s, s2, d, b, l2.id, n); }
      else if l.At? {
        WalkAt(repo, s, p0);
        if l.id == d { PopulatedChild(repo, s, s2, d, b, n); }
        else { PopulatedElsewhere(repo, s, s2, d, b, l.id, n); }
      }
    }
  }

  /** `ensure_dir_populated` keeps the invariant and the meaning of every path. */
  lemma PopulateGrows(repo: Repo, s: Vfs, d: nat)
    requires Inv(s) && GoodRepo(repo)
    ensures var s2 := Populate(repo, s, d);
      Inv(s2) && Grown(repo, s, s2) && (CanPopulate(s, d) <==> d in s2.dirChildren)
  {
    if d in s.dirChildren || !CanPopulate(s, d) { GrownReflexive(repo, s); }
    else {
      var s2, entries := Populate(repo, s, d), EntriesOf(repo, s.nodes[d].oid);
      var b := Collect(s, d, entries);
      CollectAll(s, d, entries);
      CollectNumbered(s, d, entries);
      CollectIds(s, d, entries);
      PopulatedInv(s, s2, d, entries, b);
      forall p: Path ensures SameAt(repo, s, s2, p) {
        PopulatedWalk(repo, s, s2, d, b, p);
      }
    }
  }

  // ---- lookups

  lemma LookupFinds(repo: Repo, s: Vfs, p: Path, n: Name)
    requires Inv(s) && GoodRepo(repo) && Walk(repo, s, p).At? && GoodName(n)
    ensures var (s2, r) := Lookup(repo, s, Walk(repo, s, p).id, n);
      && Inv(s2) && Grown(repo, s, s2)
      && (if Walk(repo, s, p + [n]).Gone? then r.None? else r.Some? && Walk(repo, s2, p + [n]) == At(r.value))
  {
    var d := Walk(repo, s, p).id;
    var s2 := Lookup(repo, s, d, n).0;
    WalkAt(repo, s, p);
    PopulateGrows(repo, s, d);
    WalkSnoc(repo, s, p, n);
    WalkSnoc(repo, s2, p, n);
    GrownAt(repo, s, s2, p);
    GrownAt(repo, s, s2, p + [n]);
    GrownReflexive(repo, s);
  }

  lemma {:induction false} LookupPartsFinds(repo: Repo, s: Vfs, p: Path, q: Path)
    requires Inv(s) && GoodRepo(repo) && Walk(repo, s, p).At? && GoodPath(q)
    ensures var (s2, r) := LookupParts(repo, s, Walk(repo, s, p).id, q);
      && Inv(s2) && Grown(repo, s, s2)
      && (if Walk(repo, s, p + q).Gone? then r.None? else r.Some? && Walk(repo, s2, p + q) == At(r.value))
    decreases |q|
  {
    if q == [] {
      assert p + q == p;
      GrownReflexive(repo, s);
    } else {
      var n, rest := q[0], q[1..];
      GoodTail(q);
      assert p + q == (p + [n]) + rest;
      var (s1, r) := Lookup(repo, s, Walk(repo, s, p).id, n);
      LookupFinds(repo, s, p, n);
      if r.Some? {
        LookupPartsFinds(repo, s1, p + [n], rest);
        var s2 := LookupParts(repo, s1, r.value, rest).0;
        GrownTransitive(repo, s, s1, s2);
        GrownAt(repo, s, s1, p + q);
      } else if !Walk(repo, s, p + q).Gone? {
        WalkPrefix(repo, s, p + [n], p + q);
      }
    }
  }

  /** `lookup_path` of a printed path finds exactly what the path denotes. */
  lemma LookupPathFinds(repo: Repo, s: Vfs, p: Path)
    requires Inv(s) && GoodRepo(repo) && GoodPath(p)
    ensures var (s2, r) := LookupPath(repo, s, Join(p));
      && Inv(s2) && Grown(repo, s, s2)
      && (if Walk(repo, s, p).Gone? then r.None? else r.Some? && Walk(repo, s2, p) == At(r.value))
  {
    assert [] + p == p;
    if p == [] { GrownReflexive(repo, s); }
    else {
      ParseJoin(p);
      LookupPartsFinds(repo, s, [], p);
    }
  }

  lemma {:induction false} EnsureDirsFinds(repo: Repo, s: Vfs, p: Path, q: Path)
    requires Inv(s) && GoodRepo(repo) && Walk(repo, s, p).At? && GoodPath(q)
    requires !Walk(repo, s, p + q).Gone?
    ensures EnsureDirs(repo, s, Walk(repo, s, p).id, q) == LookupParts(repo, s, Walk(repo, s, p).id, q)
    decreases |q|
  {
    if q != [] {
      var n, rest := q[0], q[1..];
      GoodTail(q);
      assert p + q == (p + [n]) + rest;
      WalkPrefix(repo, s, p + [n], p + q);
      LookupFinds(repo, s, p, n);
      var id := Walk(repo, s, p).id;
      var (s1, r) := Lookup(repo, s, id, n);
      GrownAt(repo, s, s1, p + q);
      assert EnsureDirs(repo, s, id, q) == EnsureDirs(repo, s1, r.value, rest);
      assert LookupParts(repo, s, id, q) == LookupParts(repo, s1, r.value, rest);
      EnsureDirsFinds(repo, s1, p + [n], rest);
    }
  }

  /** When the parent of a printed path exists, `ensure_parent_dirs` returns it and the last
      name and creates nothing. */
  lemma EnsureParentDirsFinds(repo: Repo, s: Vfs, p: Path, n: Name)
    requires Inv(s) && GoodRepo(repo) && GoodPath(p + [n]) && !Walk(repo, s, p).Gone?
    ensures var (s2, r) := EnsureParentDirs(repo, s, Join(p + [n]));
      Inv(s2) && Grown(repo, s, s2) && r.Some? && r.value.1 == n && Walk(repo, s2, p) == At(r.value.0)
  {
    ParseJoin(p + [n]);
    assert (p + [n])[..|p|] == p;
    GoodSnoc(p, n);
    assert [] + p == p;
    EnsureDirsFinds(repo, s, [], p);
    LookupPartsFinds(repo, s, [], p);
  }

  /** `get_path` prints the path by which an inode is reached. */
  lemma {:induction false} NamesUpWalk(repo: Repo, s: Vfs, p: Path)
    requires Inv(s) && Walk(repo, s, p).At?
    ensures Climbs(s, Walk(repo, s, p).id, |p|)
    ensures NamesUp(s, Walk(repo, s, p).id, |p|) == Some(p)
  {
    WalkAt(repo, s, p);
    if p != [] {
      NamesUpWalk(repo, s, p[..|p| - 1]);
      var d := Walk(repo, s, p[..|p| - 1]).id;
      var id := Walk(repo, s, p).id;
      assert (d, p[|p| - 1]) in s.childMap;
      assert s.nodes[id].parent == d && p == p[..|p| - 1] + [s.nodes[id].name];
      WalkAt(repo, s, p[..|p| - 1]);
      DepthUnique(s, id, |p|);
    }
  }

  lemma GetPathPrints(repo: Repo, s: Vfs, p: Path)
    requires Inv(s) && Walk(repo, s, p).At?
    ensures GetPath(s, Walk(repo, s, p).id) == Some(Join(p))
  {
    var id := Walk(repo, s, p).id;
    NamesUpWalk(repo, s, p);
    forall k: nat | Climbs(s, id, k) ensures NamesUp(s, id, k) == Some(p) {
      NamesUpUnique(s, id, k, |p|);
    }
  }

  /** Printing a reachable inode's path and resolving it again gives the inode back. */
  lemma PrintThenResolve(repo: Repo, s: Vfs, p: Path)
    requires Inv(s) && GoodRepo(repo) && Walk(repo, s, p).At?
    ensures GetPath(s, Walk(repo, s, p).id) == Some(Join(p))
    ensures LookupPath(repo, s, Join(p)).1 == Some(Walk(repo, s, p).id)
    ensures Grown(repo, s, LookupPath(repo, s, Join(p)).0)
  {
    GetPathPrints(repo, s, p);
    WalkGood(repo, s, p);
    LookupPathFinds(repo, s, p);
    GrownAt(repo, s, LookupPath(repo, s, Join(p)).0, p);
  }

  /** The printed path's parent and last name are those of the inode, and finding them
      creates nothing. */
  lemma PrintThenParent(repo: Repo, s: Vfs, p: Path)
    requires Inv(s) && GoodRepo(repo) && Walk(repo, s, p).At? && p != []
    ensures var id := Walk(repo, s, p).id;
      EnsureParentDirs(repo, s, Join(p)).1 == Some((s.nodes[id].parent, s.nodes[id].name))
    ensures Grown(repo, s, EnsureParentDirs(repo, s, Join(p)).0)
  {
    WalkGood(repo, s, p);
    WalkAt(repo, s, p);
    var p0, n := p[..|p| - 1], p[|p| - 1];
    SplitLast(p);
    EnsureParentDirsFinds(repo, s, p0, n);
    GrownAt(repo, s, EnsureParentDirs(repo, s, Join(p)).0, p0);
    assert (Walk(repo, s, p0).id, n) in s.childMap;
  }
}
