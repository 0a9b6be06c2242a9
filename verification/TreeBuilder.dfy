/** Rebuilding tree objects from the inode graph (src/git/builder.rs): what the recursion over
    dirty directories computes, and why pruning does not change it. */
module TreeBuilder {
  import opened Basics
  import opened Paths
  import opened GitData
  import opened Inodes
  import opened VfsInvariant
  import opened GitTree
  import P = PackFormat
  import Sorting

  // ---- names that are never committed (src/vfs/filter.rs)

  const APPLE_NAMES: set<bytes> := {
    [46, 68, 83, 95, 83, 116, 111, 114, 101],                                                // .DS_Store
    [46, 108, 111, 99, 97, 108, 105, 122, 101, 100],                                         // .localized
    [46, 83, 112, 111, 116, 108, 105, 103, 104, 116, 45, 86, 49, 48, 48],                    // .Spotlight-V100
    [46, 84, 114, 97, 115, 104, 101, 115],                                                   // .Trashes
    [46, 102, 115, 101, 118, 101, 110, 116, 115, 100],                                       // .fseventsd
    [46, 84, 101, 109, 112, 111, 114, 97, 114, 121, 73, 116, 101, 109, 115],                 // .TemporaryItems
    [46, 86, 111, 108, 117, 109, 101, 73, 99, 111, 110, 46, 105, 99, 110, 115] }             // .VolumeIcon.icns

  predicate AppleMetadata(name: Name) {
    (|name| >= 2 && name[0] == 46 && name[1] == 95) || name in APPLE_NAMES
  }

  // ---- canonical order

  /** A directory sorts as if its name ended in a slash. */
  function Key(name: Name, isDir: bool): bytes {
    if isDir then name + [SLASH] else name
  }

  /** `compare_tree_entries` does not say Greater. */
  predicate EntryLeq(a: TreeEntry, b: TreeEntry) {
    Sorting.LexLeq(Key(a.name, a.mode.Directory?), Key(b.name, b.mode.Directory?))
  }

  // ---- the children of a directory

  /** A child as `list_dir` shows it; `id` is None below a directory not yet populated, whose
      children will get new numbers. */
  datatype Kid = Kid(id: Option<nat>, name: Name, mode: TreeEntryMode, isDir: bool, oid: Oid)

  predicate KidLeq(a: Kid, b: Kid) {
    Sorting.LexLeq(Key(a.name, a.isDir), Key(b.name, b.isDir))
  }

  function KidOf(s: Vfs, id: nat): Kid
    requires id in s.nodes
  {
    var n := s.nodes[id];
    Kid(Some(id), n.name, n.mode, n.isDir, n.oid)
  }

  function BaseKid(e: TreeEntry): Kid {
    Kid(None, e.name, e.mode, e.mode.Directory?, e.oid)
  }

  function LiveKids(s: Vfs, ids: seq<nat>): (r: seq<Kid>)
    ensures forall k :: k in r <==> exists id :: id in ids && GetNode(s, id).Some? && k == KidOf(s, id)
  {
    if ids == [] then []
    else
      var front, last := ids[..|ids| - 1], ids[|ids| - 1];
      assert forall id :: id in ids <==> id in front || id == last;
      LiveKids(s, front) + if GetNode(s, last).Some? then [KidOf(s, last)] else []
  }

  function BaseKids(entries: Entries): (r: seq<Kid>)
    ensures |r| == |entries| && forall i | 0 <= i < |entries| :: r[i] == BaseKid(entries[i])
  {
    seq(|entries|, i requires 0 <= i < |entries| => BaseKid(entries[i]))
  }

  function KidsOf(repo: Repo, s: Vfs, d: nat): seq<Kid> {
    if d in s.dirChildren then LiveKids(s, s.dirChildren[d])
    else if d in s.nodes then BaseKids(EntriesOf(repo, s.nodes[d].oid))
    else []
  }

  /** Everything the recursion reads: the graph, the deleted numbers, and the dirty directories. */
  datatype Build = Build(repo: Repo, h: P.Hash, s: Vfs, deleted: set<nat>, dirty: set<nat>)

  predicate Committed(x: Build, k: Kid) {
    !AppleMetadata(k.name) && !(k.id.Some? && k.id.value in x.deleted)
  }

  function Filtered(x: Build, kids: seq<Kid>): (r: seq<Kid>)
    ensures forall k :: k in r <==> k in kids && Committed(x, k)
  {
    if kids == [] then []
    else
      var front, last := kids[..|kids| - 1], kids[|kids| - 1];
      assert forall k :: k in kids <==> k in front || k == last;
      Filtered(x, front) + if Committed(x, last) then [last] else []
  }

  function SortedKids(x: Build, d: nat): seq<Kid> {
    Sorting.Sort(Filtered(x, KidsOf(x.repo, x.s, d)), KidLeq)
  }

  // ---- the recursion ends: the graph is a tree

  /** The inode `k` steps up from `id`. */
  ghost function Up(s: Vfs, id: nat, k: nat): Option<nat>
    decreases k
  {
    if k == 0 then Some(id)
    else if id == ROOT || id !in s.nodes then None
    else Up(s, s.nodes[id].parent, k - 1)
  }

  ghost predicate IsBelow(s: Vfs, d: nat, id: nat) {
    exists k: nat :: k > 0 && Up(s, id, k) == Some(d)
  }

  /** The inodes below `d`. */
  ghost function Below(s: Vfs, d: nat): set<nat> {
    set id | id in s.nodes && IsBelow(s, d, id)
  }

  lemma {:induction false} UpDepth(s: Vfs, id: nat, k: nat, n: nat)
    requires AtDepth(s, id, n) && Up(s, id, k).Some?
    ensures k <= n && AtDepth(s, Up(s, id, k).value, n - k)
    decreases k
  {
    if k > 0 { UpDepth(s, s.nodes[id].parent, k - 1, n - 1); }
  }

  lemma NotBelowItself(s: Vfs, id: nat)
    requires Inv(s) && id in s.nodes
    ensures !IsBelow(s, id, id)
  {
    assert Rooted(s, id);
    var n: nat :| AtDepth(s, id, n);
    forall k: nat | k > 0 ensures Up(s, id, k) != Some(id) {
      if Up(s, id, k) == Some(id) {
        UpDepth(s, id, k, n);
        DepthUnique(s, id, n);
      }
    }
  }

  lemma {:induction false} UpMore(s: Vfs, id: nat, k: nat, c: nat)
    requires Up(s, id, k) == Some(c) && c != ROOT && c in s.nodes
    ensures Up(s, id, k + 1) == Some(s.nodes[c].parent)
    decreases k
  {
    if k > 0 { UpMore(s, s.nodes[id].parent, k - 1, c); }
  }

  /** What lies below a child lies below its parent, and the child itself does too. */
  lemma ChildShrinks(s: Vfs, d: nat, c: nat)
    requires Inv(s) && c in s.nodes && c != ROOT && s.nodes[c].parent == d
    ensures Below(s, c) < Below(s, d)
  {
    NotBelowItself(s, c);
    assert Up(s, c, 1) == Some(d);
    forall id | id in Below(s, c) ensures id in Below(s, d) {
      var k: nat :| k > 0 && Up(s, id, k) == Some(c);
      UpMore(s, id, k, c);
    }
    assert c in Below(s, d);
  }

  /** Kids with a number are children of `d` in the graph. */
  ghost predicate KidsUnder(s: Vfs, d: nat, kids: seq<Kid>) {
    forall i | 0 <= i < |kids| && kids[i].id.Some? :: KidUnder(s, d, kids[i])
  }

  ghost predicate KidUnder(s: Vfs, d: nat, k: Kid) {
    k.id.Some? && k.id.value in s.nodes && k.id.value != ROOT && s.nodes[k.id.value].parent == d
      && k == KidOf(s, k.id.value)
  }

  lemma KidsAreUnder(repo: Repo, s: Vfs, d: nat, k: Kid)
    requires Inv(s) && k in KidsOf(repo, s, d) && k.id.Some?
    ensures KidUnder(s, d, k)
  {
    if d in s.dirChildren {
      var id :| id in s.dirChildren[d] && GetNode(s, id).Some? && k == KidOf(s, id);
      assert IsChild(s, id, d, s.nodes[id].name);
    }
  }

  lemma SortedUnder(x: Build, d: nat)
    requires Inv(x.s)
    ensures KidsUnder(x.s, d, SortedKids(x, d))
  {
    var kids := SortedKids(x, d);
    forall i | 0 <= i < |kids| && kids[i].id.Some? ensures KidUnder(x.s, d, kids[i]) {
      Sorting.SortHolds(Filtered(x, KidsOf(x.repo, x.s, d)), KidLeq, kids[i]);
      KidsAreUnder(x.repo, x.s, d, kids[i]);
    }
  }

  // ---- what the recursion computes

  /** The entries written for `kids` of `d`: a dirty directory with the id of its rebuilt tree,
      any other child with the id it has, and none for a child without one. */
  ghost function EntriesIn(x: Build, d: nat, kids: seq<Kid>): Entries
    requires Inv(x.s) && KidsUnder(x.s, d, kids)
    decreases Below(x.s, d), 0, |kids|
  {
    if kids == [] then []
    else
      var k := kids[|kids| - 1];
      var oid := NewOid(x, d, k);
      EntriesIn(x, d, kids[..|kids| - 1]) + if oid == [] then [] else [TreeEntry(k.mode, k.name, oid)]
  }

  ghost function NewOid(x: Build, d: nat, k: Kid): Oid
    requires Inv(x.s) && (k.id.Some? ==> KidUnder(x.s, d, k))
    decreases Below(x.s, d), 0, 0
  {
    if k.isDir && k.id.Some? && k.id.value in x.dirty then
      ChildShrinks(x.s, d, k.id.value);
      Rebuilt(x, k.id.value)
    else k.oid
  }

  ghost function NewEntries(x: Build, d: nat): Entries
    requires Inv(x.s)
    decreases Below(x.s, d), 1, 0
  {
    SortedUnder(x, d);
    EntriesIn(x, d, SortedKids(x, d))
  }

  ghost function TreeObject(x: Build, d: nat): P.Obj
    requires Inv(x.s)
    decreases Below(x.s, d), 1, 1
  {
    P.Obj(P.TreeKind, TreeBytes(NewEntries(x, d)))
  }

  /** The id of the rebuilt tree of `d`. */
  ghost function Rebuilt(x: Build, d: nat): Oid
    requires Inv(x.s)
    decreases Below(x.s, d), 1, 2
  {
    x.h(TreeObject(x, d))
  }

  // ---- pruning

  /** Every directory that has an id already, and those of `dirty` that have none. */
  ghost function AllDirs(s: Vfs, dirty: set<nat>): set<nat> {
    set id | id in s.nodes && s.nodes[id].isDir && (s.nodes[id].oid != [] || id in dirty)
  }

  ghost function Full(x: Build): Build {
    x.(dirty := AllDirs(x.s, x.dirty))
  }

  /** `id` is left out of the dirty set though it has an id: then that is the id of its full
      rebuild. */
  ghost predicate UpToDate(x: Build, id: nat)
    requires Inv(x.s)
  {
    id in x.s.nodes && x.s.nodes[id].isDir && x.s.nodes[id].oid != [] && id !in x.dirty
    ==> Rebuilt(Full(x), id) == x.s.nodes[id].oid
  }

  ghost predicate CoversStale(x: Build)
    requires Inv(x.s)
  {
    forall id {:trigger UpToDate(x, id)} | id in x.s.nodes :: UpToDate(x, id)
  }

  ghost predicate SameOids(x: Build, y: Build, d: nat, kids: seq<Kid>)
    requires Inv(x.s) && x.s == y.s && KidsUnder(x.s, d, kids)
  {
    forall i | 0 <= i < |kids| :: NewOid(x, d, kids[i]) == NewOid(y, d, kids[i])
  }

  lemma {:induction false} SameEntries(x: Build, y: Build, d: nat, kids: seq<Kid>)
    requires Inv(x.s) && x.s == y.s && KidsUnder(x.s, d, kids) && SameOids(x, y, d, kids)
    ensures EntriesIn(x, d, kids) == EntriesIn(y, d, kids)
    decreases |kids|
  {
    if kids != [] {
      assert NewOid(x, d, kids[|kids| - 1]) == NewOid(y, d, kids[|kids| - 1]);
      SameEntries(x, y, d, kids[..|kids| - 1]);
    }
  }

  lemma CleanOid(x: Build, d: nat, k: Kid)
    requires Inv(x.s) && (k.id.Some? ==> KidUnder(x.s, d, k)) && !(k.isDir && k.id.Some? && k.id.value in x.dirty)
    ensures NewOid(x, d, k) == k.oid
  {
  }

  lemma DirtyOid(x: Build, d: nat, k: Kid)
    requires Inv(x.s) && KidUnder(x.s, d, k) && k.isDir && k.id.value in x.dirty
    ensures NewOid(x, d, k) == Rebuilt(x, k.id.value)
  {
    ChildShrinks(x.s, d, k.id.value);
  }

  lemma RebuiltSame(x: Build, y: Build, d: nat)
    requires Inv(x.s) && x.s == y.s && x.h == y.h && NewEntries(x, d) == NewEntries(y, d)
    ensures Rebuilt(x, d) == Rebuilt(y, d)
  {
  }

  lemma {:induction false} PruneOid(x: Build, d: nat, k: Kid)
    requires Inv(x.s) && CoversStale(x) && (k.id.Some? ==> KidUnder(x.s, d, k))
    ensures NewOid(x, d, k) == NewOid(Full(x), d, k)
    decreases Below(x.s, d), 0
  {
    var y := Full(x);
    if !k.isDir || k.id.None? {
      CleanOid(x, d, k);
      CleanOid(y, d, k);
    } else if k.id.value in x.dirty {
      ChildShrinks(x.s, d, k.id.value);
      DirtyOid(x, d, k);
      DirtyOid(y, d, k);
      PruneTree(x, k.id.value);
      RebuiltSame(x, y, k.id.value);
    } else {
      CleanOid(x, d, k);
      if k.oid == [] {
        CleanOid(y, d, k);
      } else {
        DirtyOid(y, d, k);
        assert UpToDate(x, k.id.value);
      }
    }
  }

  lemma {:induction false} PruneTree(x: Build, d: nat)
    requires Inv(x.s) && CoversStale(x)
    ensures NewEntries(x, d) == NewEntries(Full(x), d)
    decreases Below(x.s, d), 1
  {
    SortedUnder(x, d);
    SameKids(x, Full(x), d);
    var kids := SortedKids(x, d);
    forall i | 0 <= i < |kids| ensures NewOid(x, d, kids[i]) == NewOid(Full(x), d, kids[i]) { PruneOid(x, d, kids[i]); }
    SameEntries(x, Full(x), d, kids);
  }

  lemma {:induction false} SameFilter(x: Build, y: Build, kids: seq<Kid>)
    requires x.deleted == y.deleted
    ensures Filtered(x, kids) == Filtered(y, kids)
  {
    if kids != [] { SameFilter(x, y, kids[..|kids| - 1]); }
  }

  lemma SameKids(x: Build, y: Build, d: nat)
    requires x.repo == y.repo && x.s == y.s && x.deleted == y.deleted
    ensures SortedKids(x, d) == SortedKids(y, d)
  {
    SameFilter(x, y, KidsOf(x.repo, x.s, d));
  }

  /** Pruning preserves meaning: a dirty set that covers every stale directory gives the root
      the id of its full rebuild. */
  lemma PruningKeepsRoot(x: Build)
    requires Inv(x.s) && CoversStale(x)
    ensures Rebuilt(x, ROOT) == Rebuilt(Full(x), ROOT)
  {
    PruneTree(x, ROOT);
  }

  /** Any two dirty sets that cover the stale directories, and agree on those without an id,
      give the root the same id. */
  lemma DirtySetsAgree(x: Build, dirty: set<nat>)
    requires Inv(x.s) && CoversStale(x) && CoversStale(x.(dirty := dirty))
    requires forall id | id in x.s.nodes && x.s.nodes[id].isDir && x.s.nodes[id].oid == [] :: id in x.dirty <==>
      id in dirty
    ensures Rebuilt(x, ROOT) == Rebuilt(x.(dirty := dirty), ROOT)
  {
    PruningKeepsRoot(x);
    PruningKeepsRoot(x.(dirty := dirty));
    assert AllDirs(x.s, x.dirty) == AllDirs(x.s, dirty);
  }
}
