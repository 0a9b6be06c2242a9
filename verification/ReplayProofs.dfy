/** Replaying the entry of an applicable change makes exactly that change. */
module ReplayProofs {
  import opened Basics
  import opened Paths
  import opened GitData
  import opened Inodes
  import opened TreeView
  import opened VfsInvariant
  import opened Population
  import opened VfsOperations
  import opened Staging
  import opened Wal
  import opened Recovery
  import opened StoreChanges

  /** `lookup_path` of a printed path that is seen. */
  lemma FindPath(repo: Repo, x: Stores, p: Path)
    requires StoresOk(x) && GoodRepo(repo) && GoodPath(p) && p in Shows(repo, x)
    ensures var (s1, id) := LookupPath(repo, x.vfs, Join(p)); var x1 := x.(vfs := s1);
      && StoresOk(x1) && Shows(repo, x1) == Shows(repo, x) && id.Some? && Walk(repo, s1, p) == At(id.value)
      && Grown(repo, x.vfs, s1)
  {
    GoneUnseen(repo, x, p);
    LookupPathFinds(repo, x.vfs, p);
    GrownStores(repo, x, LookupPath(repo, x.vfs, Join(p)).0);
  }

  /** `ensure_parent_dirs` of a printed path whose parent is seen. */
  lemma FindParent(repo: Repo, x: Stores, p: Path)
    requires StoresOk(x) && GoodRepo(repo) && p != [] && GoodPath(p) && p[..|p| - 1] in Shows(repo, x)
    ensures var (s1, place) := EnsureParentDirs(repo, x.vfs, Join(p)); var x1 := x.(vfs := s1);
      && StoresOk(x1) && Shows(repo, x1) == Shows(repo, x)
      && place.Some? && place.value.1 == p[|p| - 1] && GoodName(p[|p| - 1])
      && Walk(repo, s1, p[..|p| - 1]) == At(place.value.0)
      && Grown(repo, x.vfs, s1)
  {
    var p0, n := p[..|p| - 1], p[|p| - 1];
    SplitLast(p);
    GoodSnoc(p0, n);
    GoneUnseen(repo, x, p0);
    EnsureParentDirsFinds(repo, x.vfs, p0, n);
    GrownStores(repo, x, EnsureParentDirs(repo, x.vfs, Join(p)).0);
  }

  lemma ParentIsSeen(repo: Repo, x: Stores, p: Path)
    requires StoresOk(x) && p != [] && p in Shows(repo, x)
    ensures p[..|p| - 1] in Shows(repo, x)
  {
    GoneUnseen(repo, x, p);
    GoneUnseen(repo, x, p[..|p| - 1]);
  }

  /** What the entry that logs `c` does, arm by arm, once the path is recorded in `x`. */
  function ReplayChange(repo: Repo, x: Stores, c: Change): (Stores, bool) {
    match c
    case Create(p) =>
      var (x2, id) := ReplayCreate(repo, x, Join(p), RegularFile);
      (x2, id.Some?)
    case MakeDir(p) => ReplayMkdir(repo, x, Join(p))
    case Write(p, offset, data) => ReplayWrite(repo, x, Join(p), offset, data)
    case Resize(p, size) => ReplayTruncate(repo, x, Join(p), size)
    case Delete(p) => (ReplayRemove(repo, x, Join(p)), true)
    case Move(p, to) => (x.(vfs := ReplayRename(repo, x.vfs, Join(p), Join(to))), true)
  }

  function RecordedStores(x: Stores, c: Change): Stores {
    var st := Record(x.staging, Join(c.path));
    x.(staging := if c.Move? then Record(st, Join(c.to)) else st)
  }

  lemma EntryIsChange(repo: Repo, x: Stores, number: nat, c: Change)
    ensures ReplayEntry(repo, x, WalEntry(number, Some(Printed(c)))) == ReplayChange(repo, RecordedStores(x, c), c)
  {
  }

  /** `c`'s arm makes exactly the change `c`. */
  ghost predicate Makes(repo: Repo, x: Stores, c: Change, r: (Stores, bool))
    requires Applicable(Shows(repo, x), c)
  {
    r.1 && StoresOk(r.0) && Shows(repo, r.0) == Apply(Shows(repo, x), c)
  }

  lemma ReplayCreateShows(repo: Repo, x: Stores, p: Path)
    requires StoresOk(x) && GoodRepo(repo) && Applicable(Shows(repo, x), Create(p))
    ensures var (x2, id) := ReplayCreate(repo, x, Join(p), RegularFile);
      id.Some? && StoresOk(x2) && Shows(repo, x2) == Created(Shows(repo, x), p)
  {
    var p0, n := p[..|p| - 1], p[|p| - 1];
    SplitLast(p);
    FindParent(repo, x, p);
    var (s1, place) := EnsureParentDirs(repo, x.vfs, Join(p));
    var x1 := x.(vfs := s1);
    assert IsDir(Shows(repo, x1), p0);
    CreateShows(repo, x1, p0, n);
  }

  /** A create entry of any kind makes, on a free path, a file of that kind: executable, symbolic
      link, or plain for the other two. */
  lemma KindReplayed(repo: Repo, x: Stores, p: Path, number: nat, kind: InodeType)
    requires StoresOk(x) && GoodRepo(repo) && HasPlace(Shows(repo, x), p) && p !in Shows(repo, x)
    ensures
      var (x2, ok) := ReplayEntry(repo, x, WalEntry(number, Some(CreateEntry(Join(p), kind))));
      && ok && Walk(repo, x2.vfs, p).At?
      && var id := Walk(repo, x2.vfs, p).id;
      && id in x2.vfs.nodes && !x2.vfs.nodes[id].isDir
      && x2.vfs.nodes[id].mode == (match kind
                                   case ExecutableInode => ExecutableFile
                                   case SymlinkInode => Symlink
                                   case FileInode => RegularFile
                                   case DirectoryInode => RegularFile)
      && id in x2.staging.files && x2.staging.files[id] == []
  {
    var p0, n := p[..|p| - 1], p[|p| - 1];
    SplitLast(p);
    RecordShows(repo, x, Join(p));
    var y := x.(staging := Record(x.staging, Join(p)));
    FindParent(repo, y, p);
    var (s1, place) := EnsureParentDirs(repo, y.vfs, Join(p));
    KindCreated(repo, y.(vfs := s1), p0, n, ModeOf(kind));
  }

  /** `create_file` in a directory that is seen, on a free name. */
  lemma KindCreated(repo: Repo, x: Stores, p: Path, n: Name, mode: TreeEntryMode)
    requires StoresOk(x) && GoodRepo(repo) && Walk(repo, x.vfs, p).At? && GoodName(n) && !mode.Directory?
    requires IsDir(Shows(repo, x), p) && p + [n] !in Shows(repo, x)
    ensures
      var (s2, r) := CreateFile(repo, x.vfs, Walk(repo, x.vfs, p).id, n, mode);
      && r.Some? && Walk(repo, s2, p + [n]) == At(r.value) && r.value in s2.nodes
      && s2.nodes[r.value].mode == mode && !s2.nodes[r.value].isDir
  {
    var d := Walk(repo, x.vfs, p).id;
    var s1 := Populate(repo, x.vfs, d);
    PopulateAt(repo, x.vfs, x.staging.files, p);
    GoneUnseen(repo, x, p + [n]);
    GrownAt(repo, x.vfs, s1, p + [n]);
    WalkSnoc(repo, s1, p, n);
    CreateLeads(repo, x, p, n, mode);
  }

  lemma ReplayMkdirShows(repo: Repo, x: Stores, p: Path)
    requires StoresOk(x) && GoodRepo(repo) && Applicable(Shows(repo, x), MakeDir(p))
    ensures var (x2, ok) := ReplayMkdir(repo, x, Join(p));
      ok && StoresOk(x2) && Shows(repo, x2) == Shows(repo, x)[p := Dir]
  {
    var p0, n := p[..|p| - 1], p[|p| - 1];
    SplitLast(p);
    FindParent(repo, x, p);
    var x1 := x.(vfs := EnsureParentDirs(repo, x.vfs, Join(p)).0);
    assert IsDir(Shows(repo, x1), p0);
    MkdirShows(repo, x1, p0, n);
  }

  lemma ReplayWriteShows(repo: Repo, x: Stores, p: Path, offset: nat, data: bytes)
    requires StoresOk(x) && GoodRepo(repo) && Applicable(Shows(repo, x), Write(p, offset, data))
    ensures var (x2, ok) := ReplayWrite(repo, x, Join(p), offset, data); var v := Shows(repo, x);
      ok && StoresOk(x2) && Shows(repo, x2) == Put(v, p, Overwrite(v[p].content.GetOr([]), offset, data))
  {
    FindPath(repo, x, p);
    var s1 := LookupPath(repo, x.vfs, Join(p)).0;
    WalkAt(repo, s1, p);
    WriteShows(repo, x.(vfs := s1), p, offset, data);
  }

  lemma ReplayTruncateShows(repo: Repo, x: Stores, p: Path, size: nat)
    requires StoresOk(x) && GoodRepo(repo) && Applicable(Shows(repo, x), Resize(p, size))
    ensures var (x2, ok) := ReplayTruncate(repo, x, Join(p), size); var v := Shows(repo, x);
      ok && StoresOk(x2) && Shows(repo, x2) == Put(v, p, Resized(v[p].content.GetOr([]), size))
  {
    FindPath(repo, x, p);
    var s1 := LookupPath(repo, x.vfs, Join(p)).0;
    WalkAt(repo, s1, p);
    TruncateShows(repo, x.(vfs := s1), p, size);
  }

  lemma ReplayRemoveShows(repo: Repo, x: Stores, p: Path)
    requires StoresOk(x) && GoodRepo(repo) && Applicable(Shows(repo, x), Delete(p))
    ensures StoresOk(ReplayRemove(repo, x, Join(p)))
    ensures Shows(repo, ReplayRemove(repo, x, Join(p))) == Deleted(Shows(repo, x), p)
  {
    var p0, n := p[..|p| - 1], p[|p| - 1];
    SplitLast(p);
    FindPath(repo, x, p);
    var (s1, id) := LookupPath(repo, x.vfs, Join(p));
    var x1 := x.(vfs := s1);
    ParentIsSeen(repo, x1, p);
    FindParent(repo, x1, p);
    var s2 := EnsureParentDirs(repo, s1, Join(p)).0;
    RemoveShows(repo, x.(vfs := s2), p0, n);
    RemovedIsFound(repo, s1, s2, p0, n);
  }

  /** The inode removed is the one the path led to. */
  lemma RemovedIsFound(repo: Repo, s: Vfs, s2: Vfs, p: Path, n: Name)
    requires Inv(s) && Inv(s2) && GoodRepo(repo) && Grown(repo, s, s2) && Walk(repo, s, p + [n]).At?
    requires Walk(repo, s2, p).At?
    ensures Remove(repo, s2, Walk(repo, s2, p).id, n).1 == Some(Walk(repo, s, p + [n]).id)
  {
    var d := Walk(repo, s2, p).id;
    GrownAt(repo, s, s2, p + [n]);
    WalkSnoc(repo, s2, p, n);
    assert (d, n) in s2.childMap;
    assert IsChild(s2, s2.childMap[(d, n)], d, n);
  }

  /** The two parents of a rename are found one after the other. */
  lemma FindBoth(repo: Repo, x: Stores, p: Path, to: Path)
    requires StoresOk(x) && GoodRepo(repo) && Applicable(Shows(repo, x), Move(p, to))
    ensures var (s1, from) := EnsureParentDirs(repo, x.vfs, Join(p));
      var (s2, place) := EnsureParentDirs(repo, s1, Join(to)); var x2 := x.(vfs := s2);
      && from.Some? && from.value.1 == p[|p| - 1] && Walk(repo, s2, p[..|p| - 1]) == At(from.value.0)
      && place.Some? && place.value.1 == to[|to| - 1] && Walk(repo, s2, to[..|to| - 1]) == At(place.value.0)
      && StoresOk(x2) && Shows(repo, x2) == Shows(repo, x)
  {
    ParentIsSeen(repo, x, p);
    FindParent(repo, x, p);
    var s1 := EnsureParentDirs(repo, x.vfs, Join(p)).0;
    FindParent(repo, x.(vfs := s1), to);
    GrownAt(repo, s1, EnsureParentDirs(repo, s1, Join(to)).0, p[..|p| - 1]);
  }

  lemma ReplayRenameShows(repo: Repo, x: Stores, p: Path, to: Path)
    requires StoresOk(x) && GoodRepo(repo) && Applicable(Shows(repo, x), Move(p, to))
    ensures var x2 := x.(vfs := ReplayRename(repo, x.vfs, Join(p), Join(to)));
      StoresOk(x2) && Shows(repo, x2) == Moved(Shows(repo, x), p, to)
  {
    var p0, n, t0, m := p[..|p| - 1], p[|p| - 1], to[..|to| - 1], to[|to| - 1];
    SplitLast(p);
    SplitLast(to);
    GoodSnoc(t0, m);
    FindBoth(repo, x, p, to);
    var s2 := EnsureParentDirs(repo, EnsureParentDirs(repo, x.vfs, Join(p)).0, Join(to)).0;
    RenameShows(repo, x.(vfs := s2), p0, n, t0, m);
  }

  lemma ChangeMakes(repo: Repo, x: Stores, c: Change)
    requires StoresOk(x) && GoodRepo(repo) && Applicable(Shows(repo, x), c)
    ensures Makes(repo, x, c, ReplayChange(repo, x, c))
  {
    match c
    case Create(p) => ReplayCreateShows(repo, x, p);
    case MakeDir(p) => ReplayMkdirShows(repo, x, p);
    case Write(p, offset, data) => ReplayWriteShows(repo, x, p, offset, data);
    case Resize(p, size) => ReplayTruncateShows(repo, x, p, size);
    case Delete(p) => ReplayRemoveShows(repo, x, p);
    case Move(p, to) => ReplayRenameShows(repo, x, p, to);
  }

  lemma RecordedShows(repo: Repo, x: Stores, c: Change)
    requires StoresOk(x)
    ensures StoresOk(RecordedStores(x, c)) && Shows(repo, RecordedStores(x, c)) == Shows(repo, x)
  {
    RecordShows(repo, x, Join(c.path));
    if c.Move? { RecordShows(repo, x.(staging := Record(x.staging, Join(c.path))), Join(c.to)); }
  }

  /** The entry that logs an applicable change makes exactly that change. */
  lemma ReplayEntryMakes(repo: Repo, x: Stores, number: nat, c: Change)
    requires StoresOk(x) && GoodRepo(repo) && Applicable(Shows(repo, x), c)
    ensures Makes(repo, x, c, ReplayEntry(repo, x, WalEntry(number, Some(Printed(c)))))
  {
    EntryIsChange(repo, x, number, c);
    RecordedShows(repo, x, c);
    ChangeMakes(repo, RecordedStores(x, c), c);
  }

  /** Replaying a log of applicable changes applies them in order, whatever has already been
      populated in the stores it starts from. */
  lemma {:induction false} ReplayShows(repo: Repo, x: Stores, log: seq<WalEntry>, cs: seq<Change>)
    requires StoresOk(x) && GoodRepo(repo) && Records(log, cs) && AllApplicable(Shows(repo, x), cs)
    ensures var (x2, ok) := Replay(repo, x, log);
      ok && StoresOk(x2) && Shows(repo, x2) == ApplyAll(Shows(repo, x), cs)
    decreases |log|
  {
    if log != [] {
      var front, last := log[..|log| - 1], log[|log| - 1];
      if last.payload.None? || last.payload.value.Header? {
        ReplayShows(repo, x, front, cs);
      } else {
        var cs0, c := cs[..|cs| - 1], cs[|cs| - 1];
        SplitLast(cs);
        ApplicableSplit(Shows(repo, x), cs0, c);
        ReplayShows(repo, x, front, cs0);
        ReplayEntryMakes(repo, Replay(repo, x, front).0, last.number, c);
        ApplyAllSnoc(Shows(repo, x), cs0, c);
      }
    }
  }

  lemma {:induction false} ApplicableSplit(v: View, cs: seq<Change>, c: Change)
    requires AllApplicable(v, cs + [c])
    ensures AllApplicable(v, cs) && Applicable(ApplyAll(v, cs), c)
    decreases |cs|
  {
    if cs == [] {
      assert (cs + [c])[0] == c;
    } else {
      assert (cs + [c])[1..] == cs[1..] + [c];
      ApplicableSplit(Apply(v, cs[0]), cs[1..], c);
    }
  }
}
