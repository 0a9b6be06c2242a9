/** The entries that the builder writes: which they are, that no name comes twice, and that
    they stand in Git's order, so that the same entries always give the same bytes. */
module TreeOrder {
  import opened Basics
  import opened Paths
  import opened GitData
  import opened Inodes
  import opened VfsInvariant
  import opened TreeBuilder
  import Sorting

  // ---- order

  lemma KeysDiffer(a: Name, b: Name, dirA: bool, dirB: bool)
    requires SLASH !in a && SLASH !in b && Key(a, dirA) == Key(b, dirB)
    ensures a == b && dirA == dirB
  {
    var x, y := Key(a, dirA), Key(b, dirB);
    assert (SLASH in x <==> dirA) && (SLASH in y <==> dirB);
    if dirA { assert x[..|x| - 1] == a && y[..|y| - 1] == b; }
  }

  lemma KidOrder()
    ensures Sorting.Order(KidLeq)
  {
    Sorting.LexOrder();
  }

  ghost predicate NoSlash(es: Entries) {
    forall i | 0 <= i < |es| :: SLASH !in es[i].name
  }

  ghost predicate Canonical(es: Entries) {
    Sorting.Ascending(es, EntryLeq) && DistinctNames(es) && NoSlash(es)
  }

  lemma CanonicalFront(es: Entries, front: Entries, last: TreeEntry)
    requires es == front + [last] && Canonical(es)
    ensures Canonical(front)
    ensures forall e :: e in front <==> e in es && e != last
  {
    assert forall i | 0 <= i < |front| :: es[i] == front[i];
    assert es[|front|] == last;
    forall e | e in front ensures e != last {
      var i :| 0 <= i < |front| && front[i] == e;
      assert es[i].name != es[|front|].name;
    }
  }

  lemma SameLast(a: Entries, b: Entries)
    requires a != [] && Canonical(a) && Canonical(b) && forall e :: e in a <==> e in b
    ensures b != [] && a[|a| - 1] == b[|b| - 1]
  {
    var x := a[|a| - 1];
    assert x in b;
    var y := b[|b| - 1];
    assert y in a;
    var i :| 0 <= i < |a| && a[i] == y;
    var j :| 0 <= j < |b| && b[j] == x;
    if i < |a| - 1 && j < |b| - 1 {
      Sorting.LexTotal(Key(x.name, x.mode.Directory?), Key(y.name, y.mode.Directory?));
      KeysDiffer(x.name, y.name, x.mode.Directory?, y.mode.Directory?);
    }
  }

  /** The same entries in canonical order are the same tree. */
  lemma {:induction false} CanonicalUnique(a: Entries, b: Entries)
    requires Canonical(a) && Canonical(b) && forall e :: e in a <==> e in b
    ensures a == b
    decreases |a|
  {
    if a != [] {
      SameLast(a, b);
      SplitLast(a);
      SplitLast(b);
      var last, fa, fb := a[|a| - 1], a[..|a| - 1], b[..|b| - 1];
      CanonicalFront(a, fa, last);
      CanonicalFront(b, fb, last);
      CanonicalUnique(fa, fb);
    } else if b != [] {
      SameLast(b, a);
    }
  }

  // ---- kids

  ghost predicate DistinctKids(kids: seq<Kid>) {
    forall i, j | 0 <= i < j < |kids| :: kids[i].name != kids[j].name
  }

  /** Kids of one directory with one name are one kid. */
  lemma KidNames(repo: Repo, s: Vfs, d: nat, a: Kid, b: Kid)
    requires Inv(s) && GoodRepo(repo) && a in KidsOf(repo, s, d) && b in KidsOf(repo, s, d) && a.name == b.name
    ensures a == b
  {
    if d in s.dirChildren {
      var i :| i in s.dirChildren[d] && GetNode(s, i).Some? && a == KidOf(s, i);
      var j :| j in s.dirChildren[d] && GetNode(s, j).Some? && b == KidOf(s, j);
      assert IsChild(s, i, d, s.nodes[i].name) && IsChild(s, j, d, s.nodes[j].name);
    } else {
      var es := EntriesOf(repo, s.nodes[d].oid);
      var i :| 0 <= i < |es| && BaseKids(es)[i] == a;
      var j :| 0 <= j < |es| && BaseKids(es)[j] == b;
      assert GoodEntries(es);
    }
  }

  lemma KidGood(repo: Repo, s: Vfs, d: nat, k: Kid)
    requires Inv(s) && GoodRepo(repo) && k in KidsOf(repo, s, d)
    ensures GoodName(k.name) && (k.isDir <==> k.mode.Directory?)
  {
    if d in s.dirChildren {
      var i :| i in s.dirChildren[d] && GetNode(s, i).Some? && k == KidOf(s, i);
      assert IsChild(s, i, d, s.nodes[i].name);
    } else {
      var es := EntriesOf(repo, s.nodes[d].oid);
      var i :| 0 <= i < |es| && BaseKids(es)[i] == k;
      assert GoodEntries(es);
    }
  }

  lemma {:induction false} LiveKidsDistinct(s: Vfs, ids: seq<nat>)
    requires NoDup(ids)
    ensures Sorting.Distinct(LiveKids(s, ids))
    decreases |ids|
  {
    if ids != [] {
      var front, last := ids[..|ids| - 1], ids[|ids| - 1];
      LiveKidsDistinct(s, front);
      assert last !in front;
      if GetNode(s, last).Some? { assert KidOf(s, last) !in LiveKids(s, front); }
    }
  }

  lemma {:induction false} FilteredDistinct(x: Build, kids: seq<Kid>)
    requires Sorting.Distinct(kids)
    ensures Sorting.Distinct(Filtered(x, kids))
    decreases |kids|
  {
    if kids != [] {
      var front, last := kids[..|kids| - 1], kids[|kids| - 1];
      FilteredDistinct(x, front);
      assert last !in front;
    }
  }

  lemma KidsDistinct(repo: Repo, s: Vfs, d: nat)
    requires Inv(s) && GoodRepo(repo)
    ensures Sorting.Distinct(KidsOf(repo, s, d))
  {
    if d in s.dirChildren {
      LiveKidsDistinct(s, s.dirChildren[d]);
    } else if d in s.nodes {
      assert GoodEntries(EntriesOf(repo, s.nodes[d].oid));
    }
  }

  /** The kids in the order in which they are written. */
  ghost predicate Ordered(x: Build, d: nat, kids: seq<Kid>) {
    && Sorting.Ascending(kids, KidLeq) && DistinctKids(kids)
    && forall k :: k in kids <==> k in KidsOf(x.repo, x.s, d) && Committed(x, k)
  }

  lemma SortedKidsOrdered(x: Build, d: nat)
    requires Inv(x.s) && GoodRepo(x.repo)
    ensures Ordered(x, d, SortedKids(x, d))
  {
    var all := Filtered(x, KidsOf(x.repo, x.s, d));
    var kids := SortedKids(x, d);
    KidOrder();
    Sorting.SortAscends(all, KidLeq);
    KidsDistinct(x.repo, x.s, d);
    FilteredDistinct(x, KidsOf(x.repo, x.s, d));
    Sorting.SortDistinct(all, KidLeq);
    forall k ensures k in kids <==> k in KidsOf(x.repo, x.s, d) && Committed(x, k) {
      Sorting.SortHolds(all, KidLeq, k);
    }
    forall i, j | 0 <= i < j < |kids| ensures kids[i].name != kids[j].name {
      assert kids[i] in kids && kids[j] in kids;
      if kids[i].name == kids[j].name { KidNames(x.repo, x.s, d, kids[i], kids[j]); }
    }
  }

  // ---- entries

  /** What is written for kid `k`. */
  ghost function EntryFor(x: Build, d: nat, k: Kid): TreeEntry
    requires Inv(x.s) && (k.id.Some? ==> KidUnder(x.s, d, k))
  {
    TreeEntry(k.mode, k.name, NewOid(x, d, k))
  }

  ghost predicate Writes(x: Build, d: nat, k: Kid, e: TreeEntry)
    requires Inv(x.s) && (k.id.Some? ==> KidUnder(x.s, d, k))
  {
    NewOid(x, d, k) != [] && e == EntryFor(x, d, k)
  }

  lemma {:induction false} EntriesInAre(x: Build, d: nat, kids: seq<Kid>, e: TreeEntry)
    requires Inv(x.s) && KidsUnder(x.s, d, kids)
    ensures e in EntriesIn(x, d, kids) <==> exists i :: 0 <= i < |kids| && Writes(x, d, kids[i], e)
    decreases |kids|
  {
    if kids != [] {
      var front, last := kids[..|kids| - 1], kids[|kids| - 1];
      EntriesInAre(x, d, front, e);
      if i :| 0 <= i < |front| && Writes(x, d, front[i], e) { assert Writes(x, d, kids[i], e); }
      if i :| 0 <= i < |kids| && Writes(x, d, kids[i], e) {
        if i < |front| { assert Writes(x, d, front[i], e); }
      }
      if Writes(x, d, last, e) { assert Writes(x, d, kids[|kids| - 1], e); }
    }
  }

  ghost predicate ModesMatch(kids: seq<Kid>) {
    forall i | 0 <= i < |kids| :: (kids[i].isDir <==> kids[i].mode.Directory?) && SLASH !in kids[i].name
  }

  /** What was written for kids that stand before `kids`' last stands before its entry. */
  lemma BeforeLast(x: Build, d: nat, kids: seq<Kid>, e: TreeEntry)
    requires Inv(x.s) && KidsUnder(x.s, d, kids) && Sorting.Ascending(kids, KidLeq) && DistinctKids(kids)
    requires ModesMatch(kids) && kids != [] && e in EntriesIn(x, d, kids[..|kids| - 1])
    ensures EntryLeq(e, EntryFor(x, d, kids[|kids| - 1])) && e.name != kids[|kids| - 1].name
  {
    var front := kids[..|kids| - 1];
    EntriesInAre(x, d, front, e);
    var j :| 0 <= j < |front| && Writes(x, d, front[j], e);
    assert KidLeq(kids[j], kids[|kids| - 1]) && kids[j].name != kids[|kids| - 1].name;
  }

  lemma {:induction false} EntriesInCanonical(x: Build, d: nat, kids: seq<Kid>)
    requires Inv(x.s) && KidsUnder(x.s, d, kids) && Sorting.Ascending(kids, KidLeq) && DistinctKids(kids)
    requires ModesMatch(kids)
    ensures Canonical(EntriesIn(x, d, kids))
    decreases |kids|
  {
    if kids != [] {
      var front, last := kids[..|kids| - 1], kids[|kids| - 1];
      EntriesInCanonical(x, d, front);
      var es := EntriesIn(x, d, front);
      forall i | 0 <= i < |es| ensures EntryLeq(es[i], EntryFor(x, d, last)) && es[i].name != last.name {
        assert es[i] in es;
        BeforeLast(x, d, kids, es[i]);
      }
    }
  }

  /** What is written for directory `d`: each committed kid that has an id, once, in order. */
  lemma NewEntriesAre(x: Build, d: nat)
    requires Inv(x.s) && GoodRepo(x.repo)
    ensures Canonical(NewEntries(x, d))
    ensures forall e :: e in NewEntries(x, d) <==> exists k :: WrittenKid(x, d, k, e)
  {
    var kids := SortedKids(x, d);
    SortedUnder(x, d);
    SortedKidsOrdered(x, d);
    forall i | 0 <= i < |kids| ensures (kids[i].isDir <==> kids[i].mode.Directory?) && SLASH !in kids[i].name {
      assert kids[i] in kids;
      KidGood(x.repo, x.s, d, kids[i]);
    }
    EntriesInCanonical(x, d, kids);
    forall e ensures e in NewEntries(x, d) <==> exists k :: WrittenKid(x, d, k, e) {
      EntriesInAre(x, d, kids, e);
      if i :| 0 <= i < |kids| && Writes(x, d, kids[i], e) {
        assert kids[i] in kids;
        assert WrittenKid(x, d, kids[i], e);
      }
      if k :| WrittenKid(x, d, k, e) {
        assert k in kids;
        var i :| 0 <= i < |kids| && kids[i] == k;
        assert Writes(x, d, kids[i], e);
      }
    }
  }

  ghost predicate WrittenKid(x: Build, d: nat, k: Kid, e: TreeEntry)
    requires Inv(x.s)
  {
    k in KidsOf(x.repo, x.s, d) && Committed(x, k) && (k.id.Some? ==> KidUnder(x.s, d, k)) && Writes(x, d, k, e)
  }

  // ---- Git's order, byte by byte

  /** A name comes before another by the first byte that differs; before one that extends it, when
      it is a file's, or when the next byte is above 47, the slash. */
  ghost predicate Precedes(a: Name, dirA: bool, b: Name, dirB: bool) {
    || (exists i: nat :: Sorting.DifferAt(a, b, i) && a[i] < b[i])
    || (Sorting.GoesOn(a, b) && (dirA ==> b[|a|] > 47))
    || (Sorting.GoesOn(b, a) && dirB && a[|b|] < 47)
  }

  /** The first byte that differs decides, whatever the kinds. */
  lemma ByteDecides(a: Name, dirA: bool, b: Name, dirB: bool, i: nat)
    requires Sorting.DifferAt(a, b, i)
    ensures Sorting.LexLeq(Key(a, dirA), Key(b, dirB)) <==> a[i] < b[i]
  {
    var x, y := Key(a, dirA), Key(b, dirB);
    assert x[..i] == a[..i] && y[..i] == b[..i];
    Sorting.LexDiffer(x, y, i);
  }

  /** A file stands before every extension of its name, a directory before one exactly when the
      next byte is above the slash. */
  lemma EndDecides(a: Name, dirA: bool, b: Name, dirB: bool)
    requires Sorting.GoesOn(a, b) && 47 !in b
    ensures Sorting.LexLeq(Key(a, dirA), Key(b, dirB)) <==> !dirA || b[|a|] > 47
    ensures Sorting.LexLeq(Key(b, dirB), Key(a, dirA)) <==> dirA && b[|a|] < 47
  {
    var x, y := Key(a, dirA), Key(b, dirB);
    assert b[|a|] in b;
    if dirA {
      assert x[..|a|] == a && y[..|a|] == b[..|a|];
      Sorting.LexDiffer(x, y, |a|);
      Sorting.LexDiffer(y, x, |a|);
    } else {
      assert y[..|a|] == b[..|a|] == a;
      Sorting.LexPrefix(x, y);
    }
  }

  lemma AgreeBelow(a: bytes, b: bytes, i: nat, k: nat)
    requires k < i <= |a| && i <= |b| && a[..i] == b[..i]
    ensures a[k] == b[k]
  {
    assert a[..i][k] == b[..i][k];
  }

  lemma StartsAlike(a: Name, b: Name, k: nat)
    requires Sorting.GoesOn(a, b) && k < |a|
    ensures a[k] == b[k]
  {
    assert b[..|a|][k] == b[k];
  }

  lemma DifferOnce(a: Name, b: Name, i: nat, j: nat)
    requires Sorting.DifferAt(a, b, i) && Sorting.DifferAt(a, b, j)
    ensures i == j
  {
    if i < j { AgreeBelow(a, b, j, i); }
    if j < i { AgreeBelow(a, b, i, j); }
  }

  lemma DifferOrExtend(a: Name, b: Name, i: nat)
    requires Sorting.DifferAt(a, b, i)
    ensures !Sorting.GoesOn(a, b) && !Sorting.GoesOn(b, a)
  {
    if Sorting.GoesOn(a, b) { StartsAlike(a, b, i); }
    if Sorting.GoesOn(b, a) { StartsAlike(b, a, i); }
  }

  /** The order in which entries are written is Git's. */
  lemma OrderIsGits(a: TreeEntry, b: TreeEntry)
    requires a.name != b.name && 47 !in a.name && 47 !in b.name
    ensures EntryLeq(a, b) <==> Precedes(a.name, a.mode.Directory?, b.name, b.mode.Directory?)
  {
    var i := Sorting.FirstDifference(a.name, b.name);
    if Sorting.DifferAt(a.name, b.name, i) {
      ByteDecides(a.name, a.mode.Directory?, b.name, b.mode.Directory?, i);
      DifferOrExtend(a.name, b.name, i);
      forall j: nat | Sorting.DifferAt(a.name, b.name, j) ensures j == i { DifferOnce(a.name, b.name, i, j); }
    } else {
      forall j: nat ensures !Sorting.DifferAt(a.name, b.name, j) {
        if Sorting.DifferAt(a.name, b.name, j) { DifferOrExtend(a.name, b.name, j); }
      }
      if Sorting.GoesOn(a.name, b.name) {
        EndDecides(a.name, a.mode.Directory?, b.name, b.mode.Directory?);
      } else {
        EndDecides(b.name, b.mode.Directory?, a.name, a.mode.Directory?);
      }
    }
  }

  /** Of any two entries that are written for a directory, the earlier comes first in Git's order. */
  lemma WrittenInOrder(x: Build, d: nat, i: nat, j: nat)
    requires Inv(x.s) && GoodRepo(x.repo) && i < j < |NewEntries(x, d)|
    ensures
      var a, b := NewEntries(x, d)[i], NewEntries(x, d)[j];
      a.name != b.name && Precedes(a.name, a.mode.Directory?, b.name, b.mode.Directory?)
  {
    NewEntriesAre(x, d);
    OrderIsGits(NewEntries(x, d)[i], NewEntries(x, d)[j]);
  }
}
