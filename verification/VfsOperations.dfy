/** Each operation of the inode graph keeps the invariant and makes one change to the tree
    of paths. */
module VfsOperations {
  import opened Basics
  import opened Paths
  import opened GitData
  import opened Inodes
  import opened TreeView
  import opened VfsInvariant
  import opened Population
  import opened VfsChanges

  ghost predicate OldIds(s: Vfs, files: map<nat, bytes>) {
    forall id | id in files :: id < s.next
  }

  /** A path leads to a directory inode exactly when the view has a directory there. */
  lemma DirSeen(repo: Repo, s: Vfs, files: map<nat, bytes>, p: Path)
    requires Inv(s) && Walk(repo, s, p).At?
    ensures p in ViewOf(repo, s, files)
    ensures ViewOf(repo, s, files)[p] == NodeEntry(repo, s, files, Walk(repo, s, p).id)
    ensures IsDir(ViewOf(repo, s, files), p) <==> CanPopulate(s, Walk(repo, s, p).id)
  {
    WalkAt(repo, s, p);
    assert Seen(repo, s, files, p).Some?;
  }

  /** Populating `d`, which every mutation does first. */
  lemma PopulateAt(repo: Repo, s: Vfs, files: map<nat, bytes>, p: Path)
    requires Inv(s) && GoodRepo(repo) && OldIds(s, files) && Walk(repo, s, p).At?
    ensures var d := Walk(repo, s, p).id; var s1 := Populate(repo, s, d);
      && Inv(s1) && Grown(repo, s, s1) && Walk(repo, s1, p) == At(d)
      && ViewOf(repo, s1, files) == ViewOf(repo, s, files)
      && (CanPopulate(s, d) <==> d in s1.dirChildren)
      && (CanPopulate(s, d) <==> IsDir(ViewOf(repo, s, files), p))
  {
    var d := Walk(repo, s, p).id;
    PopulateGrows(repo, s, d);
    GrownAt(repo, s, Populate(repo, s, d), p);
    GrownView(repo, s, Populate(repo, s, d), files);
    DirSeen(repo, s, files, p);
  }

  // ---- create

  lemma LinkCreated(repo: Repo, s: Vfs, files: map<nat, bytes>, p: Path, n: Name, mode: TreeEntryMode)
    requires Inv(s) && OldIds(s, files) && Walk(repo, s, p).At? && Walk(repo, s, p).id in s.dirChildren
    requires (Walk(repo, s, p).id, n) !in s.childMap && GoodName(n) && mode.RegularFile?
    ensures var s2 := Link(s, Node(Walk(repo, s, p).id, n, [], mode, false, false));
      Inv(s2) && ViewOf(repo, s2, files[s.next := []]) == Created(ViewOf(repo, s, files), p + [n])
  {
    var node := Node(Walk(repo, s, p).id, n, [], mode, false, false);
    var s2 := Link(s, node);
    LinkedInv(s, s2, node);
    LinkedView(repo, s, s2, files[s.next := []], node, p);
    FilesUnseen(repo, s, files, []);
  }

  /** Content staged for an inode number not yet in use is seen nowhere. */
  lemma FilesUnseen(repo: Repo, s: Vfs, files: map<nat, bytes>, data: bytes)
    requires Inv(s)
    ensures ViewOf(repo, s, files[s.next := data]) == ViewOf(repo, s, files)
  {
    forall p: Path ensures Seen(repo, s, files[s.next := data], p) == Seen(repo, s, files, p) {
      if Walk(repo, s, p).At? { WalkAt(repo, s, p); }
    }
  }

  /** `create_file` followed by staging an empty copy. */
  lemma CreateChanges(repo: Repo, s: Vfs, files: map<nat, bytes>, p: Path, n: Name)
    requires Inv(s) && GoodRepo(repo) && OldIds(s, files) && Walk(repo, s, p).At? && GoodName(n)
    ensures var (s2, r) := CreateFile(repo, s, Walk(repo, s, p).id, n, RegularFile); var v := ViewOf(repo, s, files);
      && Inv(s2)
      && (r.Some? <==> IsDir(v, p))
      && (r.None? ==> s2 == s)
      && (r.Some? ==> r.value < s2.next && s.next <= s2.next
                      && ViewOf(repo, s2, files[r.value := []]) == Created(v, p + [n]))
  {
    var d := Walk(repo, s, p).id;
    var s1 := Populate(repo, s, d);
    PopulateAt(repo, s, files, p);
    if d in s1.dirChildren {
      if (d, n) in s1.childMap {
        Revive(repo, s1, files, p, n);
      } else {
        LinkCreated(repo, s1, files, p, n, RegularFile);
      }
    }
  }

  lemma Revive(repo: Repo, s: Vfs, files: map<nat, bytes>, p: Path, n: Name)
    requires Inv(s) && Walk(repo, s, p).At? && (Walk(repo, s, p).id, n) in s.childMap
    ensures var id := s.childMap[(Walk(repo, s, p).id, n)];
      && id in s.nodes && id < s.next
      && s.(nodes := s.nodes[id := s.nodes[id].(deleted := false)]) == s
      && ViewOf(repo, s, files[id := []]) == Created(ViewOf(repo, s, files), p + [n])
  {
    var id := s.childMap[(Walk(repo, s, p).id, n)];
    WalkSnoc(repo, s, p, n);
    assert IsChild(s, id, Walk(repo, s, p).id, n);
    assert s.nodes[id := s.nodes[id].(deleted := false)] == s.nodes;
    InvOnlyPath(repo, s, p + [n]);
    StageView(repo, s, files, p + [n], []);
    DirSeen(repo, s, files, p + [n]);
  }

  // ---- mkdir

  lemma MkdirChanges(repo: Repo, s: Vfs, files: map<nat, bytes>, p: Path, n: Name)
    requires Inv(s) && GoodRepo(repo) && OldIds(s, files) && Walk(repo, s, p).At? && GoodName(n)
    requires Walk(repo, s, p + [n]).Gone?
    ensures var (s2, r) := Mkdir(repo, s, Walk(repo, s, p).id, n); var v := ViewOf(repo, s, files);
      && Inv(s2) && s.next <= s2.next
      && (r.Some? <==> IsDir(v, p))
      && (r.None? ==> s2 == s)
      && (r.Some? ==> ViewOf(repo, s2, files) == v[p + [n] := Dir])
  {
    var d := Walk(repo, s, p).id;
    var s1 := Populate(repo, s, d);
    PopulateAt(repo, s, files, p);
    GrownAt(repo, s, s1, p + [n]);
    WalkSnoc(repo, s1, p, n);
    if d in s1.dirChildren {
      MkdirLinks(repo, s1, files, p, n);
    }
  }

  lemma MkdirLinks(repo: Repo, s: Vfs, files: map<nat, bytes>, p: Path, n: Name)
    requires Inv(s) && Walk(repo, s, p).At? && Walk(repo, s, p).id in s.dirChildren
    requires (Walk(repo, s, p).id, n) !in s.childMap && GoodName(n)
    ensures var s2 := Mkdir(repo, s, Walk(repo, s, p).id, n).0;
      Inv(s2) && ViewOf(repo, s2, files) == ViewOf(repo, s, files)[p + [n] := Dir]
  {
    var node := Node(Walk(repo, s, p).id, n, [], Directory, true, false);
    var s2 := Mkdir(repo, s, node.parent, n).0;
    WalkAt(repo, s, p);
    assert Linked(s, s2, node);
    LinkedInv(s, s2, node);
    LinkedView(repo, s, s2, files, node, p);
  }

  // ---- remove

  lemma RemoveChanges(repo: Repo, s: Vfs, files: map<nat, bytes>, p: Path, n: Name)
    requires Inv(s) && GoodRepo(repo) && OldIds(s, files) && Walk(repo, s, p).At?
    ensures var (s2, r) := Remove(repo, s, Walk(repo, s, p).id, n); var v := ViewOf(repo, s, files);
      && Inv(s2) && s.next <= s2.next
      && (r.Some? <==> p + [n] in v)
      && ViewOf(repo, s2, files) == Deleted(v, p + [n])
      && (r.Some? ==> r.value in s2.nodes && s2.nodes[r.value].deleted)
  {
    var d := Walk(repo, s, p).id;
    var s1, s2 := Populate(repo, s, d), Remove(repo, s, d, n).0;
    PopulateAt(repo, s, files, p);
    WalkSnoc(repo, s1, p, n);
    if d in s1.dirChildren && (d, n) in s1.childMap {
      assert IsChild(s1, s1.childMap[(d, n)], d, n);
      assert Unlinked(s1, s2, d, n);
      UnlinkedInv(s1, s2, d, n);
      UnlinkedView(repo, s1, s2, files, p, n);
      DirSeen(repo, s1, files, p + [n]);
    } else {
      assert Walk(repo, s1, p + [n]).Gone?;
      NothingToDelete(repo, s1, files, p + [n]);
    }
  }

  lemma NothingToDelete(repo: Repo, s: Vfs, files: map<nat, bytes>, t: Path)
    requires Walk(repo, s, t).Gone?
    ensures t !in ViewOf(repo, s, files)
    ensures Deleted(ViewOf(repo, s, files), t) == ViewOf(repo, s, files)
  {
    var v := ViewOf(repo, s, files);
    assert Seen(repo, s, files, t).None?;
    forall q: Path | q in v ensures !(t <= q) {
      assert Seen(repo, s, files, q).Some?;
      if t <= q { WalkPrefix(repo, s, t, q); }
    }
  }

  // ---- rename

  /** The parent chain of `x` reaches the root in `k` steps without meeting `id`. */
  ghost predicate Avoids(s: Vfs, x: nat, id: nat, k: nat)
    decreases k
  {
    x != id &&
    if k == 0 then x == ROOT
    else x != ROOT && x in s.nodes && Avoids(s, s.nodes[x].parent, id, k - 1)
  }

  lemma {:induction false} WalkAvoids(repo: Repo, s: Vfs, p: Path, t: Path)
    requires Inv(s) && Walk(repo, s, p).At? && Walk(repo, s, t).At? && !(t <= p)
    ensures Avoids(s, Walk(repo, s, p).id, Walk(repo, s, t).id, |p|)
    decreases |p|
  {
    WalkAt(repo, s, p);
    if Walk(repo, s, p) == Walk(repo, s, t) { WalkUnique(repo, s, p, t); }
    if p != [] {
      var p0 := p[..|p| - 1];
      assert p == p0 + [p[|p| - 1]];
      PrefixSnoc(t, p0, p[|p| - 1]);
      WalkAvoids(repo, s, p0, t);
      assert (Walk(repo, s, p0).id, p[|p| - 1]) in s.childMap;
    }
  }

  /** `s2` is `s` with the child `id` moved from (d, n) to the free place (d2, n2). */
  ghost predicate Hung(s: Vfs, s2: Vfs, id: nat, d: nat, n: Name, d2: nat, n2: Name) {
    && IsChild(s, id, d, n) && (d2, n2) !in s.childMap && d in s.dirChildren && d2 in s.dirChildren
    && GoodName(n2)
    && s2 == Rehang(s, id, d, n, d2, n2)
  }

  lemma {:induction false} AvoidsKept(s: Vfs, s2: Vfs, x: nat, id: nat, k: nat)
    requires forall y | y in s.nodes && y != id :: y in s2.nodes && s2.nodes[y].parent == s.nodes[y].parent
    requires Avoids(s, x, id, k)
    ensures AtDepth(s2, x, k)
    decreases k
  {
    if k > 0 { AvoidsKept(s, s2, s.nodes[x].parent, id, k - 1); }
  }

  lemma {:induction false} HungRooted(s: Vfs, s2: Vfs, x: nat, id: nat, d2: nat, j: nat, k: nat)
    requires id in s2.nodes && id != ROOT && s2.nodes[id].parent == d2 && AtDepth(s2, d2, j)
    requires forall y | y in s.nodes && y != id :: y in s2.nodes && s2.nodes[y].parent == s.nodes[y].parent
    requires AtDepth(s, x, k)
    ensures Rooted(s2, x)
    decreases k
  {
    if x == id {
      assert AtDepth(s2, id, j + 1);
    } else if k == 0 {
      assert AtDepth(s2, x, 0);
    } else {
      HungRooted(s, s2, s.nodes[x].parent, id, d2, j, k - 1);
      var i: nat :| AtDepth(s2, s.nodes[x].parent, i);
      assert AtDepth(s2, x, i + 1);
    }
  }

  lemma HungAllRooted(s: Vfs, s2: Vfs, id: nat, d: nat, n: Name, d2: nat, n2: Name, j: nat)
    requires Inv(s) && Hung(s, s2, id, d, n, d2, n2) && Avoids(s, d2, id, j)
    ensures AllRooted(s2)
  {
    AvoidsKept(s, s2, d2, id, j);
    forall x | x in s2.nodes ensures Rooted(s2, x) {
      assert Rooted(s, x);
      var k: nat :| AtDepth(s, x, k);
      HungRooted(s, s2, x, id, d2, j, k);
    }
  }

  lemma HungMap(s: Vfs, s2: Vfs, id: nat, d: nat, n: Name, d2: nat, n2: Name)
    requires Inv(s) && Hung(s, s2, id, d, n, d2, n2)
    ensures NodesOk(s2) && MapOk(s2)
  {
    assert IsChild(s2, id, d2, n2);
    forall x, m | (x, m) in s2.childMap ensures x in s2.dirChildren && IsChild(s2, s2.childMap[(x, m)], x, m) {
      if (x, m) != (d2, n2) {
        assert (x, m) in s.childMap && IsChild(s, s.childMap[(x, m)], x, m);
      }
    }
  }

  lemma HungLists(s: Vfs, s2: Vfs, id: nat, d: nat, n: Name, d2: nat, n2: Name)
    requires Inv(s) && Hung(s, s2, id, d, n, d2, n2)
    ensures ListsOk(s2)
  {
    var cut := s.dirChildren[d := Without(s.dirChildren[d], id)];
    WithoutNoDup(s.dirChildren[d], id);
    assert id in s.dirChildren[d2] ==> d2 == d;
    assert id !in cut[d2];
    assert s2.dirChildren[d2] == cut[d2] + [id];
    assert forall c :: c in s2.dirChildren[d2] <==> c in cut[d2] || c == id;
    assert IsChild(s2, id, d2, n2);
    forall x, c | x in s2.dirChildren && c in s2.dirChildren[x] ensures IsChild(s2, c, x, s2.nodes[c].name) {
      if c != id { assert c in s.dirChildren[x] && IsChild(s, c, x, s.nodes[c].name); }
      else { assert x == d2; }
    }
  }

  lemma HungLive(s: Vfs, s2: Vfs, id: nat, d: nat, n: Name, d2: nat, n2: Name)
    requires Inv(s) && Hung(s, s2, id, d, n, d2, n2)
    ensures LiveOk(s2)
  {
    var cut := s.dirChildren[d := Without(s.dirChildren[d], id)];
    assert forall c :: c in s2.dirChildren[d2] <==> c in cut[d2] || c == id;
    forall c | Live(s2, c) ensures Live(s, c) { }
  }

  lemma HungInv(s: Vfs, s2: Vfs, id: nat, d: nat, n: Name, d2: nat, n2: Name, j: nat)
    requires Inv(s) && Hung(s, s2, id, d, n, d2, n2) && Avoids(s, d2, id, j)
    ensures Inv(s2)
  {
    HungMap(s, s2, id, d, n, d2, n2);
    HungLists(s, s2, id, d, n, d2, n2);
    HungLive(s, s2, id, d, n, d2, n2);
    HungAllRooted(s, s2, id, d, n, d2, n2, j);
  }

  lemma {:induction false} AvoidsUnlinked(s: Vfs, s2: Vfs, x: nat, id: nat, k: nat)
    requires forall y | y in s.nodes :: y in s2.nodes && s2.nodes[y].parent == s.nodes[y].parent
    requires Avoids(s, x, id, k)
    ensures Avoids(s2, x, id, k)
    decreases k
  {
    if k > 0 { AvoidsUnlinked(s, s2, s.nodes[x].parent, id, k - 1); }
  }

  /** The state between cutting off an old target and hanging the node in its place. */
  lemma CutTarget(repo: Repo, s: Vfs, d: nat, n: Name, d2: nat, n2: Name, j: nat)
    requires Inv(s) && d in s.dirChildren && d2 in s.dirChildren && (d, n) in s.childMap && (d, n) != (d2, n2)
    requires GoodName(n2) && Avoids(s, d2, s.childMap[(d, n)], j)
    ensures var s3 := Remove(repo, s, d2, n2).0; var id := s.childMap[(d, n)];
      Inv(s3) && Hung(s3, Rehang(s3, id, d, n, d2, n2), id, d, n, d2, n2) && Avoids(s3, d2, id, j)
  {
    var s3, id := Remove(repo, s, d2, n2).0, s.childMap[(d, n)];
    assert IsChild(s, id, d, n);
    if (d2, n2) in s.childMap {
      assert IsChild(s, s.childMap[(d2, n2)], d2, n2);
      assert Unlinked(s, s3, d2, n2);
      UnlinkedInv(s, s3, d2, n2);
      AvoidsUnlinked(s, s3, d2, id, j);
    }
    assert IsChild(s3, id, d, n);
  }

  /** What `remove` does below a populated directory. */
  lemma RemoveShape(repo: Repo, s: Vfs, d: nat, n: Name)
    requires Inv(s) && d in s.dirChildren
    ensures var s2 := Remove(repo, s, d, n).0;
      && s2.childMap == s.childMap - {(d, n)}
      && SameFaces(s, s2) && s2.dirChildren.Keys == s.dirChildren.Keys
  {
    if (d, n) in s.childMap { assert IsChild(s, s.childMap[(d, n)], d, n); }
  }

  lemma RehangShape(s: Vfs, id: nat, d: nat, n: Name, d2: nat, n2: Name)
    requires id in s.nodes && d in s.dirChildren && d2 in s.dirChildren
    ensures var s2 := Rehang(s, id, d, n, d2, n2);
      SameFaces(s, s2) && s2.dirChildren.Keys == s.dirChildren.Keys
  {
  }

  lemma RenameShifts(repo: Repo, s: Vfs, d: nat, n: Name, d2: nat, n2: Name)
    requires Inv(s) && d in s.dirChildren && d2 in s.dirChildren && (d, n) in s.childMap && (d, n) != (d2, n2)
    ensures s.childMap[(d, n)] in Remove(repo, s, d2, n2).0.nodes
    ensures Shifted(s, Rehang(Remove(repo, s, d2, n2).0, s.childMap[(d, n)], d, n, d2, n2), d, n, d2, n2)
  {
    assert IsChild(s, s.childMap[(d, n)], d, n);
    RemoveShape(repo, s, d2, n2);
    var s3 := Remove(repo, s, d2, n2).0;
    RehangShape(s3, s.childMap[(d, n)], d, n, d2, n2);
    RemoveThenSet(s.childMap, (d, n), (d2, n2), s.childMap[(d, n)]);
  }

  lemma RemoveThenSet<K, V>(m: map<K, V>, a: K, b: K, v: V)
    ensures (m - {b} - {a})[b := v] == (m - {a})[b := v]
  {
  }

  /** The target is another name than the source's, and its directory is not below the source. */
  lemma RenameApart(repo: Repo, s: Vfs, p: Path, n: Name, p2: Path, n2: Name)
    requires Inv(s) && Walk(repo, s, p).At? && Walk(repo, s, p2).At?
    requires Walk(repo, s, p).id in s.dirChildren && (Walk(repo, s, p).id, n) in s.childMap
    requires !(p + [n] <= p2 + [n2])
    ensures (Walk(repo, s, p).id, n) != (Walk(repo, s, p2).id, n2)
    ensures Avoids(s, Walk(repo, s, p2).id, s.childMap[(Walk(repo, s, p).id, n)], |p2|)
  {
    if Walk(repo, s, p) == Walk(repo, s, p2) { WalkUnique(repo, s, p, p2); }
    WalkSnoc(repo, s, p, n);
    PrefixSnoc(p + [n], p2, n2);
    WalkAvoids(repo, s, p2, p + [n]);
  }

  lemma RenameInv(repo: Repo, s: Vfs, p: Path, n: Name, p2: Path, n2: Name)
    requires Inv(s) && Walk(repo, s, p).At? && Walk(repo, s, p2).At?
    requires Walk(repo, s, p).id in s.dirChildren && Walk(repo, s, p2).id in s.dirChildren
    requires (Walk(repo, s, p).id, n) in s.childMap && GoodName(n2) && !(p + [n] <= p2 + [n2])
    ensures var d, d2 := Walk(repo, s, p).id, Walk(repo, s, p2).id;
      (d, n) != (d2, n2) && Inv(Rehang(Remove(repo, s, d2, n2).0, s.childMap[(d, n)], d, n, d2, n2))
  {
    var d, d2 := Walk(repo, s, p).id, Walk(repo, s, p2).id;
    var id := s.childMap[(d, n)];
    RenameApart(repo, s, p, n, p2, n2);
    CutTarget(repo, s, d, n, d2, n2, |p2|);
    var s3 := Remove(repo, s, d2, n2).0;
    HungInv(s3, Rehang(s3, id, d, n, d2, n2), id, d, n, d2, n2, |p2|);
  }

  lemma RenamePopulated(repo: Repo, s: Vfs, files: map<nat, bytes>, p: Path, n: Name, p2: Path, n2: Name)
    requires Inv(s) && Walk(repo, s, p).At? && Walk(repo, s, p2).At?
    requires Walk(repo, s, p).id in s.dirChildren && Walk(repo, s, p2).id in s.dirChildren
    requires (Walk(repo, s, p).id, n) in s.childMap && GoodName(n2) && !(p + [n] <= p2 + [n2])
    ensures var d, d2 := Walk(repo, s, p).id, Walk(repo, s, p2).id;
      var s2 := Rehang(Remove(repo, s, d2, n2).0, s.childMap[(d, n)], d, n, d2, n2);
      Inv(s2) && s2.next == s.next && ViewOf(repo, s2, files) == Moved(ViewOf(repo, s, files), p + [n], p2 + [n2])
  {
    var d, d2 := Walk(repo, s, p).id, Walk(repo, s, p2).id;
    RenameInv(repo, s, p, n, p2, n2);
    RenameShifts(repo, s, d, n, d2, n2);
    ShiftedView(repo, s, Rehang(Remove(repo, s, d2, n2).0, s.childMap[(d, n)], d, n, d2, n2), files, p, n, p2, n2);
  }

  /** Populating both directories of a rename. */
  lemma PopulateBoth(repo: Repo, s: Vfs, files: map<nat, bytes>, p: Path, p2: Path)
    requires Inv(s) && GoodRepo(repo) && OldIds(s, files) && Walk(repo, s, p).At? && Walk(repo, s, p2).At?
    ensures var d, d2 := Walk(repo, s, p).id, Walk(repo, s, p2).id;
      var s1 := Populate(repo, s, d); var s2 := Populate(repo, s1, d2);
      && Inv(s2) && Grown(repo, s, s2) && Inv(s1) && s.next <= s1.next
      && ViewOf(repo, s1, files) == ViewOf(repo, s, files) == ViewOf(repo, s2, files)
      && (CanPopulate(s, d) <==> IsDir(ViewOf(repo, s, files), p))
      && (CanPopulate(s1, d2) <==> IsDir(ViewOf(repo, s, files), p2))
      && (CanPopulate(s, d) ==> d in s2.dirChildren)
      && (CanPopulate(s1, d2) ==> d2 in s2.dirChildren)
      && Walk(repo, s2, p) == At(d) && Walk(repo, s2, p2) == At(d2)
  {
    var d, d2 := Walk(repo, s, p).id, Walk(repo, s, p2).id;
    var s1 := Populate(repo, s, d);
    PopulateAt(repo, s, files, p);
    GrownAt(repo, s, s1, p2);
    PopulateAt(repo, s1, files, p2);
    var s2 := Populate(repo, s1, d2);
    GrownTransitive(repo, s, s1, s2);
    GrownAt(repo, s, s2, p);
    GrownAt(repo, s, s2, p2);
  }

  /** What `rename` does once both directories are populated. */
  lemma RenameRuns(repo: Repo, s: Vfs, d: nat, n: Name, d2: nat, n2: Name)
    requires CanPopulate(s, d) && CanPopulate(Populate(repo, s, d), d2)
    ensures
      var s2 := Populate(repo, Populate(repo, s, d), d2);
      Rename(repo, s, d, n, d2, n2) ==
        if (d, n) in s2.childMap && s2.childMap[(d, n)] in s2.nodes
        then (Rehang(Remove(repo, s2, d2, n2).0, s2.childMap[(d, n)], d, n, d2, n2), true) else (s2, false)
  {
  }

  lemma NameSeen(repo: Repo, s: Vfs, files: map<nat, bytes>, p: Path, n: Name)
    requires Inv(s) && Walk(repo, s, p).At? && Walk(repo, s, p).id in s.dirChildren
    ensures
      var d := Walk(repo, s, p).id;
      && ((d, n) in s.childMap <==> p + [n] in ViewOf(repo, s, files))
      && ((d, n) in s.childMap ==> s.childMap[(d, n)] in s.nodes)
  {
    var d := Walk(repo, s, p).id;
    WalkSnoc(repo, s, p, n);
    if (d, n) in s.childMap {
      assert IsChild(s, s.childMap[(d, n)], d, n);
      DirSeen(repo, s, files, p + [n]);
    } else {
      assert Seen(repo, s, files, p + [n]).None?;
    }
  }

  lemma RenameChanges(repo: Repo, s: Vfs, files: map<nat, bytes>, p: Path, n: Name, p2: Path, n2: Name)
    requires Inv(s) && GoodRepo(repo) && OldIds(s, files) && Walk(repo, s, p).At? && Walk(repo, s, p2).At?
    requires GoodName(n2) && !(p + [n] <= p2 + [n2])
    ensures var (s2, ok) := Rename(repo, s, Walk(repo, s, p).id, n, Walk(repo, s, p2).id, n2);
      var v := ViewOf(repo, s, files);
      && Inv(s2) && s.next <= s2.next
      && (ok <==> p + [n] in v && IsDir(v, p2))
      && ViewOf(repo, s2, files) == if ok then Moved(v, p + [n], p2 + [n2]) else v
  {
    var d, d2 := Walk(repo, s, p).id, Walk(repo, s, p2).id;
    PopulateBoth(repo, s, files, p, p2);
    ParentSeen(repo, s, files, p, n);
    if CanPopulate(s, d) && CanPopulate(Populate(repo, s, d), d2) {
      var s2 := Populate(repo, Populate(repo, s, d), d2);
      RenameRuns(repo, s, d, n, d2, n2);
      NameSeen(repo, s2, files, p, n);
      if (d, n) in s2.childMap { RenamePopulated(repo, s2, files, p, n, p2, n2); }
    }
  }

  /** What is seen below a path needs a directory there. */
  lemma ParentSeen(repo: Repo, s: Vfs, files: map<nat, bytes>, p: Path, n: Name)
    requires Inv(s) && Walk(repo, s, p).At?
    ensures p + [n] in ViewOf(repo, s, files) ==> IsDir(ViewOf(repo, s, files), p)
  {
    WalkSnoc(repo, s, p, n);
    DirSeen(repo, s, files, p);
    assert p + [n] in ViewOf(repo, s, files) <==> Seen(repo, s, files, p + [n]).Some?;
  }
}
