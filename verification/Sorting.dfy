/** Sorting by a total order, and searching what is sorted. */
module Sorting {
  import opened Basics

  /** A total order. */
  ghost predicate Order<T(!new)>(leq: (T, T) -> bool) {
    && (forall a, b :: leq(a, b) || leq(b, a))
    && (forall a, b, c :: leq(a, b) && leq(b, c) ==> leq(a, c))
  }

  /** A total order in which only equal elements are level. */
  ghost predicate StrictOrder<T(!new)>(leq: (T, T) -> bool) {
    Order(leq) && forall a, b :: leq(a, b) && leq(b, a) ==> a == b
  }

  ghost predicate Ascending<T(!new)>(s: seq<T>, leq: (T, T) -> bool) {
    forall i, j | 0 <= i < j < |s| :: leq(s[i], s[j])
  }

  /** `x` after everything that does not exceed it, as a stable sort leaves it. */
  function Insert<T>(s: seq<T>, x: T, leq: (T, T) -> bool): (r: seq<T>)
    ensures multiset(r) == multiset(s) + multiset{x}
  {
    if s == [] then [x]
    else if leq(s[|s| - 1], x) then s + [x]
    else
      assert s == s[..|s| - 1] + [s[|s| - 1]];
      Insert(s[..|s| - 1], x, leq) + [s[|s| - 1]]
  }

  function Sort<T>(s: seq<T>, leq: (T, T) -> bool): (r: seq<T>)
    ensures multiset(r) == multiset(s)
  {
    if s == [] then []
    else
      assert s == s[..|s| - 1] + [s[|s| - 1]];
      Insert(Sort(s[..|s| - 1], leq), s[|s| - 1], leq)
  }

  lemma InMultiset<T>(s: seq<T>, x: T)
    ensures x in multiset(s) <==> x in s
  {
  }

  lemma InsertHolds<T>(s: seq<T>, x: T, leq: (T, T) -> bool, y: T)
    ensures y in Insert(s, x, leq) <==> y in s || y == x
  {
    InMultiset(Insert(s, x, leq), y);
  }

  lemma AppendAscending<T(!new)>(s: seq<T>, x: T, leq: (T, T) -> bool)
    requires Ascending(s, leq) && forall y | y in s :: leq(y, x)
    ensures Ascending(s + [x], leq)
  {
  }

  lemma {:induction false} InsertAscends<T(!new)>(s: seq<T>, x: T, leq: (T, T) -> bool)
    requires Order(leq) && Ascending(s, leq)
    ensures Ascending(Insert(s, x, leq), leq)
    decreases |s|
  {
    if s != [] {
      var front, last := s[..|s| - 1], s[|s| - 1];
      forall y | y in front ensures leq(y, last) {}
      if leq(last, x) {
        AppendAscending(s, x, leq);
      } else {
        InsertAscends(front, x, leq);
        forall y | y in Insert(front, x, leq) ensures leq(y, last) { InsertHolds(front, x, leq, y); }
        AppendAscending(Insert(front, x, leq), last, leq);
      }
    }
  }

  lemma {:induction false} SortAscends<T(!new)>(s: seq<T>, leq: (T, T) -> bool)
    requires Order(leq)
    ensures Ascending(Sort(s, leq), leq)
    decreases |s|
  {
    if s != [] {
      SortAscends(s[..|s| - 1], leq);
      InsertAscends(Sort(s[..|s| - 1], leq), s[|s| - 1], leq);
    }
  }

  lemma SortHolds<T>(s: seq<T>, leq: (T, T) -> bool, x: T)
    ensures x in Sort(s, leq) <==> x in s
    ensures |Sort(s, leq)| == |s|
  {
    InMultiset(s, x);
    InMultiset(Sort(s, leq), x);
    assert |multiset(s)| == |s| && |multiset(Sort(s, leq))| == |Sort(s, leq)|;
  }

  /** No element stands at two places. */
  ghost predicate Distinct<T(!new)>(s: seq<T>) {
    forall i, j | 0 <= i < j < |s| :: s[i] != s[j]
  }

  lemma {:induction false} DistinctCounts<T(!new)>(s: seq<T>)
    ensures Distinct(s) <==> forall x :: multiset(s)[x] <= 1
    decreases |s|
  {
    if s != [] {
      var front, last := s[..|s| - 1], s[|s| - 1];
      assert s == front + [last];
      DistinctCounts(front);
      if Distinct(s) {
        assert Distinct(front);
        assert last !in front;
        forall x ensures multiset(s)[x] <= 1 { InMultiset(front, x); }
      }
      if forall x :: multiset(s)[x] <= 1 {
        forall x ensures multiset(front)[x] <= 1 { assert multiset(s)[x] <= 1; }
        assert multiset(s)[last] <= 1;
        InMultiset(front, last);
        assert last !in front;
      }
    }
  }

  lemma SortDistinct<T(!new)>(s: seq<T>, leq: (T, T) -> bool)
    requires Distinct(s)
    ensures Distinct(Sort(s, leq))
  {
    DistinctCounts(s);
    DistinctCounts(Sort(s, leq));
  }

  // ---- byte strings, in lexicographic order

  predicate LexLeq(a: bytes, b: bytes) {
    a == [] || (b != [] && (a[0] < b[0] || (a[0] == b[0] && LexLeq(a[1..], b[1..]))))
  }

  lemma {:induction false} LexTotal(a: bytes, b: bytes)
    ensures LexLeq(a, b) || LexLeq(b, a)
    ensures LexLeq(a, b) && LexLeq(b, a) ==> a == b
  {
    if a != [] && b != [] && a[0] == b[0] {
      LexTotal(a[1..], b[1..]);
      assert a == [a[0]] + a[1..] && b == [b[0]] + b[1..];
    }
  }

  lemma {:induction false} LexTransitive(a: bytes, b: bytes, c: bytes)
    requires LexLeq(a, b) && LexLeq(b, c)
    ensures LexLeq(a, c)
  {
    if a != [] && b != [] && c != [] && a[0] == b[0] && b[0] == c[0] {
      LexTransitive(a[1..], b[1..], c[1..]);
    }
  }

  /** They agree before byte `i`, which both have, and differ there. */
  predicate DifferAt(a: bytes, b: bytes, i: nat) {
    i < |a| && i < |b| && a[..i] == b[..i] && a[i] != b[i]
  }

  /** `b` goes on after `a`. */
  predicate GoesOn(a: bytes, b: bytes) {
    |a| < |b| && b[..|a|] == a
  }

  lemma {:induction false} LexDiffer(a: bytes, b: bytes, i: nat)
    requires DifferAt(a, b, i)
    ensures LexLeq(a, b) <==> a[i] < b[i]
    decreases i
  {
    if i > 0 {
      assert a[..i][0] == b[..i][0];
      assert a[1..][..i - 1] == a[..i][1..] && b[1..][..i - 1] == b[..i][1..];
      LexDiffer(a[1..], b[1..], i - 1);
    }
  }

  lemma {:induction false} LexPrefix(a: bytes, b: bytes)
    requires a <= b
    ensures LexLeq(a, b)
    ensures a != b ==> !LexLeq(b, a)
  {
    if a != [] {
      LexPrefix(a[1..], b[1..]);
      assert a == [a[0]] + a[1..] && b == [b[0]] + b[1..];
    }
  }

  /** Two byte strings differ at a byte, or one extends the other. */
  lemma {:induction false} FirstDifference(a: bytes, b: bytes) returns (i: nat)
    requires a != b
    ensures DifferAt(a, b, i) || GoesOn(a, b) || GoesOn(b, a)
  {
    i := 0;
    while i < |a| && i < |b| && a[i] == b[i]
      invariant i <= |a| && i <= |b| && a[..i] == b[..i]
    {
      i := i + 1;
    }
  }

  lemma LexOrder()
    ensures StrictOrder(LexLeq)
  {
    forall a, b ensures LexLeq(a, b) || LexLeq(b, a) { LexTotal(a, b); }
    forall a, b | LexLeq(a, b) && LexLeq(b, a) ensures a == b { LexTotal(a, b); }
    forall a, b, c | LexLeq(a, b) && LexLeq(b, c) ensures LexLeq(a, c) { LexTransitive(a, b, c); }
  }

  predicate NatLeq(a: nat, b: nat) { a <= b }

  /** `binary_search` of a slice: where `x` stands, when the slice ascends. */
  method Search<T(==,!new)>(s: seq<T>, x: T, leq: (T, T) -> bool) returns (r: Option<nat>)
    requires StrictOrder(leq)
    ensures r.Some? ==> r.value < |s| && s[r.value] == x
    ensures r.None? && Ascending(s, leq) ==> x !in s
  {
    var lo, hi := 0, |s|;
    while lo < hi
      invariant 0 <= lo <= hi <= |s|
      invariant Ascending(s, leq) ==> forall i | 0 <= i < |s| && s[i] == x :: lo <= i < hi
    {
      var mid := (lo + hi) / 2;
      if s[mid] == x { return Some(mid); }
      if leq(s[mid], x) { lo := mid + 1; } else { hi := mid; }
    }
    return None;
  }
}
