/** Repository-relative paths: how the VFS prints a chain of names and how it splits
    a string back into names (src/vfs/inode.rs). */
module Paths {
  import opened Basics

  type Name = bytes
  type Path = seq<Name>

  const SLASH: byte := 47
  const DOT: Name := [46]
  const DOT_DOT: Name := [46, 46]

  predicate GoodName(n: Name) {
    n != [] && SLASH !in n && n != DOT && n != DOT_DOT
  }

  ghost predicate GoodPath(p: Path) {
    forall n | n in p :: GoodName(n)
  }

  lemma SplitLast<T>(s: seq<T>)
    requires s != []
    ensures s == s[..|s| - 1] + [s[|s| - 1]]
  {
  }

  lemma GoodTail(p: Path)
    requires GoodPath(p) && p != []
    ensures GoodName(p[0]) && GoodPath(p[1..])
  {
    assert forall n | n in p[1..] :: n in p;
  }

  lemma GoodSnoc(p: Path, n: Name)
    ensures GoodPath(p + [n]) <==> GoodPath(p) && GoodName(n)
  {
    assert forall m :: m in p + [n] <==> m in p || m == n;
  }

  /** What is below an extended path is below the path, or is the extension itself. */
  lemma PrefixSnoc(t: Path, q: Path, m: Name)
    ensures t <= q + [m] <==> t <= q || t == q + [m]
  {
    assert |t| <= |q| ==> (q + [m])[..|t|] == q[..|t|];
  }

  lemma SnocEq(p: Path, n: Name, q: Path, m: Name)
    ensures p + [n] == q + [m] <==> p == q && n == m
  {
    assert (p + [n])[..|p|] == p && (q + [m])[..|q|] == q;
    assert (p + [n])[|p|] == n && (q + [m])[|q|] == m;
  }

  /** `components.join("/")` */
  function Join(p: Path): bytes {
    if p == [] then []
    else if |p| == 1 then p[0]
    else p[0] + [SLASH] + Join(p[1..])
  }

  /** `s.split('/')`: one more part than there are slashes. */
  function Split(s: bytes): (parts: seq<bytes>)
    ensures |parts| > 0
    decreases |s|
  {
    var i := IndexOf(s, SLASH);
    if i == |s| then [s] else [s[..i]] + Split(s[i + 1..])
  }

  function TrimStart(s: bytes): bytes {
    if s != [] && s[0] == SLASH then TrimStart(s[1..]) else s
  }

  function TrimEnd(s: bytes): bytes {
    if s != [] && s[|s| - 1] == SLASH then TrimEnd(s[..|s| - 1]) else s
  }

  /** `s.trim_matches('/')` */
  function Trim(s: bytes): bytes { TrimEnd(TrimStart(s)) }

  function NonEmpty(parts: seq<bytes>): seq<bytes> {
    if parts == [] then []
    else (if parts[0] == [] then [] else [parts[0]]) + NonEmpty(parts[1..])
  }

  /** How every handler of the NFS layer builds the path it logs. */
  function Under(parent: bytes, name: Name): bytes {
    if parent == [] then name else parent + [SLASH] + name
  }

  lemma {:induction false} JoinEnds(p: Path)
    requires GoodPath(p) && p != []
    ensures Join(p) != [] && Join(p)[0] != SLASH && Join(p)[|Join(p)| - 1] != SLASH
  {
    GoodTail(p);
    assert p[0][0] in p[0] && p[0][|p[0]| - 1] in p[0];
    if |p| > 1 {
      JoinEnds(p[1..]);
    }
  }

  /** Splitting what was printed gives the names back: nothing is trimmed or dropped. */
  lemma {:induction false} SplitJoin(p: Path)
    requires GoodPath(p) && p != []
    ensures Split(Join(p)) == p
  {
    GoodTail(p);
    if |p| == 1 {
      assert IndexOf(p[0], SLASH) == |p[0]|;
    } else {
      var rest := Join(p[1..]);
      IndexOfPrefix(p[0], SLASH, rest);
      assert Join(p)[..|p[0]|] == p[0];
      assert Join(p)[|p[0]| + 1..] == rest;
      SplitJoin(p[1..]);
    }
  }

  lemma {:induction false} NonEmptyGood(p: Path)
    requires GoodPath(p)
    ensures NonEmpty(p) == p
  {
    if p != [] {
      GoodTail(p);
      NonEmptyGood(p[1..]);
    }
  }

  lemma ParseJoin(p: Path)
    requires GoodPath(p) && p != []
    ensures Trim(Join(p)) == Join(p) != []
    ensures Split(Trim(Join(p))) == p
    ensures NonEmpty(Split(Trim(Join(p)))) == p
  {
    JoinEnds(p);
    SplitJoin(p);
    NonEmptyGood(p);
  }

  lemma {:induction false} JoinUnder(p: Path, n: Name)
    requires GoodPath(p)
    ensures Join(p + [n]) == Under(Join(p), n)
  {
    if p == [] {
    } else {
      JoinEnds(p);
      if |p| == 1 {
        assert (p + [n])[1..] == [n];
      } else {
        GoodTail(p);
        JoinUnder(p[1..], n);
        JoinEnds(p[1..]);
        assert (p + [n])[1..] == p[1..] + [n];
      }
    }
  }

  /** Different good paths print differently. */
  lemma JoinInjective(p: Path, q: Path)
    requires GoodPath(p) && GoodPath(q)
    ensures Join(p) == Join(q) <==> p == q
  {
    if p != [] { SplitJoin(p); JoinEnds(p); }
    if q != [] { SplitJoin(q); JoinEnds(q); }
  }
}
