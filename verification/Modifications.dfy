/** What a replayed log leaves to commit (src/staging/mod.rs, `has_modifications` and
    `record_changed_path`; src/wal/recovery.rs). */
module Modifications {
  import opened Basics
  import opened Paths
  import opened GitData
  import opened Inodes
  import opened TreeView
  import opened Staging
  import opened Wal
  import opened Recovery
  import opened StoreChanges
  import opened ReplayProofs

  // ---- recorded paths

  /** A path with no space at either end, and no slash there, is recorded as it is. */
  lemma TrimSpaceKeeps(s: bytes)
    requires s != [] && !IsSpace(s[0]) && !IsSpace(s[|s| - 1])
    ensures TrimSpace(s) == s
  {
  }

  /** Spaces around a path go, and nothing else does. */
  lemma {:induction false} TrimSpaceIs(a: bytes, s: bytes, b: bytes)
    requires (forall x | x in a :: IsSpace(x)) && forall x | x in b :: IsSpace(x)
    requires s != [] && !IsSpace(s[0]) && !IsSpace(s[|s| - 1])
    ensures TrimSpace(a + s + b) == s
    decreases |a| + |b|
  {
    var all := a + s + b;
    if a != [] {
      assert a[0] in a && all[1..] == a[1..] + s + b;
      TrimSpaceIs(a[1..], s, b);
    } else if b != [] {
      assert b[|b| - 1] in b && all[..|all| - 1] == a + s + b[..|b| - 1];
      TrimSpaceIs(a, s, b[..|b| - 1]);
    } else {
      assert all == s;
    }
  }

  /** Only spaces: nothing is left. */
  lemma {:induction false} TrimSpaceOnly(s: bytes)
    requires forall x | x in s :: IsSpace(x)
    ensures TrimSpace(s) == []
  {
    if s != [] {
      assert s[0] in s;
      forall x | x in s[1..] ensures IsSpace(x) { assert x in s; }
      TrimSpaceOnly(s[1..]);
    }
  }

  /** Between the spaces at its ends there are only slashes. */
  ghost predicate Blank(path: bytes) {
    forall b | b in TrimSpace(path) :: b == 47
  }

  lemma {:induction false} TrimStartIs(s: bytes)
    ensures TrimStart(s) == [] <==> forall b | b in s :: b == 47
    ensures forall b | b in TrimStart(s) :: b in s
    ensures TrimStart(s) != [] ==> TrimStart(s)[0] != 47
  {
    if s != [] && s[0] == 47 {
      TrimStartIs(s[1..]);
      assert forall b :: b in s <==> b == s[0] || b in s[1..];
    } else if s != [] {
      assert s[0] in s;
    }
  }

  lemma {:induction false} TrimEndIs(s: bytes)
    ensures TrimEnd(s) == [] <==> forall b | b in s :: b == 47
  {
    if s != [] {
      var front, last := s[..|s| - 1], s[|s| - 1];
      assert last in s && forall b | b in front :: b in s;
      if last == 47 {
        TrimEndIs(front);
        if TrimEnd(front) == [] {
          forall b | b in s ensures b == 47 { assert b == last || b in front; }
        }
      }
    }
  }

  lemma TrimIsBlank(path: bytes)
    ensures Trim(TrimSpace(path)) == [] <==> Blank(path)
  {
    TrimStartIs(TrimSpace(path));
    TrimEndIs(TrimStart(TrimSpace(path)));
    var t := TrimStart(TrimSpace(path));
    if t != [] { assert t[0] in t; }
  }

  // ---- one entry

  /** Nothing noted is forgotten. */
  ghost predicate Keeps(st: Staging, st2: Staging) {
    st.sizes.Keys <= st2.sizes.Keys && st.deleted <= st2.deleted && st.changed <= st2.changed
  }

  /** Something is staged, deleted or recorded. */
  ghost predicate SomeNoted(st: Staging) {
    (exists id :: id in st.sizes || id in st.deleted) || exists path :: path in st.changed
  }

  lemma NotedIsModified(st: Staging)
    ensures HasModifications(st) <==> SomeNoted(st)
  {
    if st.sizes != map[] {
      assert st.sizes.Keys != {};
      var id :| id in st.sizes.Keys;
      assert id in st.sizes;
    }
    if st.deleted != {} { var id :| id in st.deleted; }
    if st.changed != {} { var path :| path in st.changed; }
  }

  /** The change leaves something to commit. */
  ghost predicate Leaves(c: Change) {
    match c
    case MakeDir(p) => !Blank(Join(p))
    case Move(p, to) => !Blank(Join(p)) || !Blank(Join(to))
    case _ => true
  }

  /** What an entry's arm does to the staging store: files stay noted, and `c` does its part. */
  ghost predicate Notes(st: Staging, st2: Staging, c: Change) {
    && Keeps(st, st2) && st2.changed == st.changed
    && (if c.MakeDir? || c.Move? then st2 == st
        else if c.Delete? then st2.deleted != {}
        else st2.sizes.Keys != {})
  }

  lemma CreateNotes(repo: Repo, x: Stores, p: Path)
    requires StoresOk(x) && GoodRepo(repo) && Applicable(Shows(repo, x), Create(p))
    ensures Notes(x.staging, ReplayCreate(repo, x, Join(p), RegularFile).0.staging, Create(p))
  {
    ReplayCreateShows(repo, x, p);
    var (x2, id) := ReplayCreate(repo, x, Join(p), RegularFile);
    assert id.value in x2.staging.sizes.Keys;
  }

  lemma WriteNotes(repo: Repo, x: Stores, p: Path, offset: nat, data: bytes)
    requires StoresOk(x) && GoodRepo(repo) && Applicable(Shows(repo, x), Write(p, offset, data))
    ensures Notes(x.staging, ReplayWrite(repo, x, Join(p), offset, data).0.staging, Write(p, offset, data))
  {
    ReplayWriteShows(repo, x, p, offset, data);
    FindPath(repo, x, p);
    var id := LookupPath(repo, x.vfs, Join(p)).1.value;
    assert id in ReplayWrite(repo, x, Join(p), offset, data).0.staging.sizes.Keys;
  }

  lemma TruncateNotes(repo: Repo, x: Stores, p: Path, size: nat)
    requires StoresOk(x) && GoodRepo(repo) && Applicable(Shows(repo, x), Resize(p, size))
    ensures Notes(x.staging, ReplayTruncate(repo, x, Join(p), size).0.staging, Resize(p, size))
  {
    ReplayTruncateShows(repo, x, p, size);
    FindPath(repo, x, p);
    var id := LookupPath(repo, x.vfs, Join(p)).1.value;
    assert id in ReplayTruncate(repo, x, Join(p), size).0.staging.sizes.Keys;
  }

  lemma RemoveNotes(repo: Repo, x: Stores, p: Path)
    requires StoresOk(x) && GoodRepo(repo) && Applicable(Shows(repo, x), Delete(p))
    ensures Notes(x.staging, ReplayRemove(repo, x, Join(p)).staging, Delete(p))
  {
    FindPath(repo, x, p);
    var id := LookupPath(repo, x.vfs, Join(p)).1.value;
    assert id in ReplayRemove(repo, x, Join(p)).staging.deleted;
  }

  lemma ChangeNotes(repo: Repo, x: Stores, c: Change)
    requires StoresOk(x) && GoodRepo(repo) && Applicable(Shows(repo, x), c)
    ensures Notes(x.staging, ReplayChange(repo, x, c).0.staging, c)
  {
    match c
    case Create(p) => CreateNotes(repo, x, p);
    case MakeDir(p) =>
    case Write(p, offset, data) => WriteNotes(repo, x, p, offset, data);
    case Resize(p, size) => TruncateNotes(repo, x, p, size);
    case Delete(p) => RemoveNotes(repo, x, p);
    case Move(p, to) =>
  }

  lemma RecordNotes(st: Staging, path: bytes)
    ensures Keeps(st, Record(st, path)) && (SomeNoted(Record(st, path)) <==> SomeNoted(st) || !Blank(path))
  {
    TrimIsBlank(path);
    var clean := Trim(TrimSpace(path));
    if clean != [] { assert clean in Record(st, path).changed; }
  }

  lemma KeptNoted(st: Staging, st2: Staging)
    requires Keeps(st, st2) && SomeNoted(st)
    ensures SomeNoted(st2)
  {
    if path :| path in st.changed {
      assert path in st2.changed;
    } else {
      var id :| id in st.sizes || id in st.deleted;
      assert id in st2.sizes.Keys || id in st2.deleted;
    }
  }

  lemma ArmNotes(st: Staging, st2: Staging, c: Change)
    requires Notes(st, st2, c)
    ensures SomeNoted(st2) <==> SomeNoted(st) || !(c.MakeDir? || c.Move?)
  {
    if SomeNoted(st) { KeptNoted(st, st2); }
    if c.Delete? {
      var id :| id in st2.deleted;
    } else if !(c.MakeDir? || c.Move?) {
      var id :| id in st2.sizes.Keys;
      assert id in st2.sizes;
    }
  }

  /** An entry leaves something modified exactly when something was, or its change does. */
  lemma EntryNotes(repo: Repo, x: Stores, number: nat, c: Change)
    requires StoresOk(x) && GoodRepo(repo) && Applicable(Shows(repo, x), c)
    ensures
      var x2 := ReplayEntry(repo, x, WalEntry(number, Some(Printed(c)))).0;
      SomeNoted(x2.staging) <==> SomeNoted(x.staging) || Leaves(c)
  {
    EntryIsChange(repo, x, number, c);
    RecordedShows(repo, x, c);
    var y := RecordedStores(x, c);
    RecordNotes(x.staging, Join(c.path));
    if c.Move? { RecordNotes(Record(x.staging, Join(c.path)), Join(c.to)); }
    ChangeNotes(repo, y, c);
    ArmNotes(y.staging, ReplayChange(repo, y, c).0.staging, c);
  }

  // ---- whole logs

  ghost predicate AnyLeaves(cs: seq<Change>) {
    exists c :: c in cs && Leaves(c)
  }

  lemma AnyLeavesSnoc(cs: seq<Change>, c: Change)
    ensures AnyLeaves(cs + [c]) <==> AnyLeaves(cs) || Leaves(c)
  {
    assert c in cs + [c];
    if d :| d in cs && Leaves(d) { assert d in cs + [c]; }
  }

  lemma {:induction false} LogNotes(repo: Repo, x: Stores, log: seq<WalEntry>, cs: seq<Change>)
    requires StoresOk(x) && GoodRepo(repo) && Records(log, cs) && AllApplicable(Shows(repo, x), cs)
    ensures SomeNoted(Replay(repo, x, log).0.staging) <==> SomeNoted(x.staging) || AnyLeaves(cs)
    decreases |log|
  {
    if log == [] {
      assert !AnyLeaves([]);
    } else {
      var front, last := log[..|log| - 1], log[|log| - 1];
      if last.payload.None? || last.payload.value.Header? {
        LogNotes(repo, x, front, cs);
        ReplayShows(repo, x, front, cs);
      } else {
        var cs0, c := cs[..|cs| - 1], cs[|cs| - 1];
        SplitLast(cs);
        ApplicableSplit(Shows(repo, x), cs0, c);
        LogNotes(repo, x, front, cs0);
        ReplayShows(repo, x, front, cs0);
        EntryNotes(repo, Replay(repo, x, front).0, last.number, c);
        AnyLeavesSnoc(cs0, c);
      }
    }
  }

  /** Replaying a log of any applicable changes into fresh stores leaves something to commit
      exactly when it records a create, write, resize or delete, or a directory or rename with a
      path that is not blank. */
  lemma ReplayModifies(repo: Repo, root: Oid, log: seq<WalEntry>, cs: seq<Change>)
    requires GoodRepo(repo) && Records(log, cs) && AllApplicable(Shows(repo, FreshStores(root)), cs)
    ensures HasModifications(Replay(repo, FreshStores(root), log).0.staging) <==>
      exists c :: c in cs && match c
                             case MakeDir(p) => !Blank(Join(p))
                             case Move(p, to) => !Blank(Join(p)) || !Blank(Join(to))
                             case _ => true
  {
    FreshShows(repo, root);
    LogNotes(repo, FreshStores(root), log, cs);
    NotedIsModified(Replay(repo, FreshStores(root), log).0.staging);
    assert !SomeNoted(EMPTY);
    if c :| c in cs && Leaves(c) { assert Leaves(c); }
  }
}
