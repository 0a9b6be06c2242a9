/** Loading every tree below a root, level by level (src/git/mod.rs, `initialize`). */
module TreeWaves {
  import opened Basics
  import opened GitData

  /** Reading and parsing the tree of an id; None when either fails. */
  type TreeSource = Oid -> Option<Entries>

  /** The tree of `a` is readable and has a directory entry for `b`. */
  ghost predicate Child(read: TreeSource, a: Oid, b: Oid) {
    read(a).Some? && HasDir(read(a).value, b)
  }

  ghost predicate HasDir(entries: Entries, b: Oid) {
    exists e :: e in entries && e.mode.Directory? && e.oid == b
  }

  /** `b` is reached from `root` in `k` directory entries. */
  ghost predicate Reached(read: TreeSource, root: Oid, b: Oid, k: nat)
    decreases k
  {
    if k == 0 then b == root else exists a: Oid :: Reached(read, root, a, k - 1) && Child(read, a, b)
  }

  ghost predicate Reachable(read: TreeSource, root: Oid, b: Oid) {
    exists k: nat :: Reached(read, root, b, k)
  }

  /** A set of ids that no directory entry leaves. */
  ghost predicate Closed(read: TreeSource, all: set<Oid>) {
    forall a: Oid, b: Oid :: a in all && Child(read, a, b) ==> b in all
  }

  /** `trees` are exactly the readable trees of `ids`, over what was there before. */
  ghost predicate Holds(read: TreeSource, before: map<Oid, Entries>, ids: set<Oid>, trees: map<Oid, Entries>) {
    && (forall a | a in ids && read(a).Some? :: a in trees && trees[a] == read(a).value)
    && (forall a | !(a in ids && read(a).Some?) ::
      (a in trees <==> a in before) && (a in before ==> trees[a] == before[a]))
  }

  ghost predicate AllDistinct(s: seq<Oid>) {
    forall i, j | 0 <= i < j < |s| :: s[i] != s[j]
  }

  ghost predicate Lists(s: seq<Oid>, ids: set<Oid>) {
    AllDistinct(s) && forall a :: a in s <==> a in ids
  }

  lemma ChildReachable(read: TreeSource, root: Oid, a: Oid, b: Oid)
    requires Reachable(read, root, a) && Child(read, a, b)
    ensures Reachable(read, root, b)
  {
    var k: nat :| Reached(read, root, a, k);
    assert Reached(read, root, b, k + 1);
  }

  /** A set that holds the root and the children of its members holds all that is reachable. */
  lemma {:induction false} ClosedHolds(read: TreeSource, root: Oid, ids: set<Oid>, b: Oid, k: nat)
    requires root in ids && Closed(read, ids) && Reached(read, root, b, k)
    ensures b in ids
    decreases k
  {
    if k > 0 {
      var a: Oid :| Reached(read, root, a, k - 1) && Child(read, a, b);
      ClosedHolds(read, root, ids, a, k - 1);
    }
  }

  lemma ListsAdd(s: seq<Oid>, ids: set<Oid>, a: Oid)
    requires Lists(s, ids) && a !in ids
    ensures Lists(s + [a], ids + {a})
  {
  }

  lemma HasDirStep(entries: Entries, j: nat, b: Oid)
    requires j < |entries|
    ensures HasDir(entries[..j + 1], b) <==>
      HasDir(entries[..j], b) || (entries[j].mode.Directory? && entries[j].oid == b)
  {
    assert entries[..j + 1] == entries[..j] + [entries[j]];
    assert entries[j] in entries[..j + 1];
  }

  /** The loop over the entries of one tree: its subdirectories that nobody has seen join the
      next level. `waiting` are the ids scheduled for it so far. */
  method AddSubtrees(entries: Entries, visited: set<Oid>, level: seq<Oid>, ghost waiting: set<Oid>)
    returns (seen: set<Oid>, next: seq<Oid>, ghost queued: set<Oid>)
    requires Lists(level, waiting) && waiting <= visited
    ensures Lists(next, queued) && queued <= seen
    ensures seen == visited + (queued - waiting) && waiting <= queued && (queued - waiting) !! visited
    ensures forall b: Oid :: b in seen <==> b in visited || HasDir(entries, b)
  {
    seen, next, queued := visited, level, waiting;
    for j := 0 to |entries|
      invariant Lists(next, queued) && queued <= seen
      invariant seen == visited + (queued - waiting) && waiting <= queued && (queued - waiting) !! visited
      invariant forall b: Oid :: b in seen <==> b in visited || HasDir(entries[..j], b)
    {
      var e := entries[j];
      forall b: Oid ensures HasDir(entries[..j + 1], b) <==>
        HasDir(entries[..j], b) || (e.mode.Directory? && e.oid == b) {
        HasDirStep(entries, j, b);
      }
      if e.mode.Directory? && e.oid !in seen {
        ListsAdd(next, queued, e.oid);
        seen, next, queued := seen + {e.oid}, next + [e.oid], queued + {e.oid};
      }
    }
    assert entries[..|entries|] == entries;
  }

  /** What the traversal keeps: `done` are the ids read, `waiting` those scheduled. */
  ghost predicate Wave(read: TreeSource, root: Oid, before: map<Oid, Entries>, all: set<Oid>,
                       visited: set<Oid>, done: set<Oid>, waiting: set<Oid>, trees: map<Oid, Entries>) {
    && done + waiting == visited && done !! waiting && root in visited && visited <= all
    && (forall a | a in visited :: Reachable(read, root, a))
    && (forall a: Oid, b: Oid :: a in done && Child(read, a, b) ==> b in visited)
    && Holds(read, before, done, trees)
  }

  /** One id read: it is done, and its new subdirectories wait. */
  lemma WaveStep(read: TreeSource, root: Oid, before: map<Oid, Entries>, all: set<Oid>, visited: set<Oid>,
                 done: set<Oid>, waiting: set<Oid>,
                 trees: map<Oid, Entries>, a: Oid, seen: set<Oid>)
    requires Closed(read, all) && Wave(read, root, before, all, visited, done, waiting, trees) && a in waiting
    requires visited <= seen && forall b: Oid :: b in seen <==> b in visited || Child(read, a, b)
    ensures Wave(read, root, before, all, seen, done + {a}, waiting - {a} + (seen - visited),
                 if read(a).Some? then trees[a := read(a).value] else trees)
  {
    forall b | b in seen ensures Reachable(read, root, b) {
      if b !in visited { ChildReachable(read, root, a, b); }
    }
  }

  /** One level: every id of it is read, and what their trees name that is new is the next. */
  method ReadLevel(read: TreeSource, ghost root: Oid, ghost before: map<Oid, Entries>, ghost all: set<Oid>,
                   level: seq<Oid>, visited: set<Oid>, ghost done: set<Oid>, trees: map<Oid, Entries>)
    returns (next: seq<Oid>, seen: set<Oid>, ghost ended: set<Oid>, loaded: map<Oid, Entries>)
    requires Closed(read, all) && Lists(level, visited - done)
    requires Wave(read, root, before, all, visited, done, visited - done, trees)
    ensures Lists(next, seen - ended) && Wave(read, root, before, all, seen, ended, seen - ended, loaded)
    ensures ended == done + (visited - done)
  {
    next, seen, ended, loaded := [], visited, done, trees;
    ghost var queued: set<Oid> := {};
    for i := 0 to |level|
      invariant Lists(next, queued) && queued == seen - visited && visited <= seen
      invariant ended == done + (set a | a in level[..i])
      invariant Wave(read, root, before, all, seen, ended, seen - ended, loaded)
    {
      var a := level[i];
      assert a in level && a in visited - done;
      assert a !in level[..i];
      assert level[..i + 1] == level[..i] + [a];
      ghost var was := seen;
      var parsed := read(a);
      if parsed.Some? {
        seen, next, queued := AddSubtrees(parsed.value, seen, next, queued);
        WaveStep(read, root, before, all, was, ended, was - ended, loaded, a, seen);
        loaded := loaded[a := parsed.value];
      } else {
        WaveStep(read, root, before, all, was, ended, was - ended, loaded, a, seen);
      }
      assert (was - ended) - {a} + (seen - was) == seen - (ended + {a});
      ended := ended + {a};
    }
    assert level[..|level|] == level;
    assert ended == visited;
  }

  /** The traversal ends, and has loaded exactly the readable trees that the root reaches
      through directory entries. `scheduled` lists the ids in the order of their levels: each
      stands in it once. */
  method LoadTrees(read: TreeSource, root: Oid, before: map<Oid, Entries>, ghost all: set<Oid>)
    returns (trees: map<Oid, Entries>, ghost scheduled: seq<Oid>)
    requires root in all && Closed(read, all)
    ensures forall a: Oid :: a in scheduled <==> Reachable(read, root, a)
    ensures AllDistinct(scheduled)
    ensures forall a: Oid :: Reachable(read, root, a) && read(a).Some? ==> a in trees && trees[a] == read(a).value
    ensures forall a: Oid :: !(Reachable(read, root, a) && read(a).Some?) ==>
      (a in trees <==> a in before) && (a in before ==> trees[a] == before[a])
  {
    var level, visited := [root], {root};
    ghost var done: set<Oid> := {};
    trees, scheduled := before, [root];
    assert Reached(read, root, root, 0);
    while level != []
      invariant Lists(level, visited - done) && Wave(read, root, before, all, visited, done, visited - done, trees)
      invariant Lists(scheduled, visited)
      decreases all - done
    {
      ghost var was := visited;
      assert level[0] in level;
      level, visited, done, trees := ReadLevel(read, root, before, all, level, visited, done, trees);
      assert visited == was + (visited - done);
      ListsJoin(scheduled, was, level, visited - done);
      scheduled := scheduled + level;
    }
    assert forall a | a in visited - done :: a in level;
    assert done == visited;
    forall a: Oid ensures a in visited <==> Reachable(read, root, a) {
      if Reachable(read, root, a) {
        var k: nat :| Reached(read, root, a, k);
        ClosedHolds(read, root, visited, a, k);
      }
    }
    assert Holds(read, before, visited, trees);
  }

  lemma ListsJoin(s: seq<Oid>, a: set<Oid>, t: seq<Oid>, b: set<Oid>)
    requires Lists(s, a) && Lists(t, b) && a !! b
    ensures Lists(s + t, a + b)
  {
    forall i, j | 0 <= i < j < |s + t| ensures (s + t)[i] != (s + t)[j] {
      if i < |s| && j >= |s| { assert s[i] in s && t[j - |s|] in t; }
    }
  }
}
