/** Which inode a call answers with, which error, and what it logs (src/nfs/fs.rs), said without
    the functions that the handlers are made of. */
module Handles {
  import opened Basics
  import opened Paths
  import opened GitData
  import opened Inodes
  import opened TreeView
  import opened VfsInvariant
  import opened Population
  import opened Staging
  import opened Wal
  import opened StoreChanges
  import opened NfsServer
  import opened LiveRuns
  import opened Listings

  // ---- the inode that is returned

  /** CREATE answers with the live inode of that parent and name, whether or not a path leads to
      the directory; its content is staged, and empty. */
  lemma CreateReturns(repo: Repo, f: Server, d: nat, n: Name)
    requires StoresOk(StoresOf(f)) && GoodRepo(repo)
    ensures
      var (f2, r) := NfsCreate(repo, f, d, n);
      && (r.Ok? <==> CanPopulate(f.vfs, d)) && (r.Err? ==> r == Err(IoError))
      && (r.Ok? ==>
            && IsChild(f2.vfs, r.value, d, n)
            && r.value in f2.staging.files && f2.staging.files[r.value] == []
            && (forall id | id in f.staging.files && id != r.value ::
                  id in f2.staging.files && f2.staging.files[id] == f.staging.files[id]))
  {
    PopulateGrows(repo, f.vfs, d);
    var s1 := Populate(repo, f.vfs, d);
    if (d, n) in s1.childMap { assert IsChild(s1, s1.childMap[(d, n)], d, n); }
  }

  /** MKDIR answers with a new inode of that parent and name: an empty directory. */
  lemma MkdirReturns(repo: Repo, f: Server, d: nat, n: Name)
    requires StoresOk(StoresOf(f)) && GoodRepo(repo)
    ensures
      var (f2, r) := NfsMkdir(repo, f, d, n);
      && (r.Ok? <==> CanPopulate(f.vfs, d)) && (r.Err? ==> r == Err(IoError))
      && (r.Ok? ==>
            && IsChild(f2.vfs, r.value, d, n) && f2.vfs.nodes[r.value].isDir && r.value !in f.vfs.nodes
            && r.value in f2.vfs.dirChildren && f2.vfs.dirChildren[r.value] == []
            && f2.staging.files == f.staging.files)
  {
    PopulateGrows(repo, f.vfs, d);
    assert f.vfs.next <= Populate(repo, f.vfs, d).next;
  }

  // ---- inodes that are gone

  /** WRITE, SETATTR with a size and READ answer that there is no such file exactly for an inode
      that is unknown, that the graph holds as deleted, or that was removed in this session; they
      refuse directories, and what they refuse changes nothing. */
  lemma GoneAnswers(repo: Repo, f: Server, id: nat, offset: nat, data: bytes)
    ensures
      var gone := id !in f.vfs.nodes || f.vfs.nodes[id].deleted || id in f.staging.deleted;
      && (NfsWrite(repo, f, id, offset, data).1 == Some(NoEnt) <==> gone)
      && (NfsSetSize(repo, f, id, offset).1 == Some(NoEnt) <==> gone)
      && (NfsRead(repo, f, id, offset, |data|) == Err(NoEnt) <==> gone)
      && (!gone && f.vfs.nodes[id].isDir ==>
            && NfsWrite(repo, f, id, offset, data) == (f, Some(IsADir))
            && NfsSetSize(repo, f, id, offset) == (f, Some(IsADir))
            && NfsRead(repo, f, id, offset, |data|) == Err(IsADir))
      && (gone ==> NfsWrite(repo, f, id, offset, data).0 == f && NfsSetSize(repo, f, id, offset).0 == f)
  {
  }

  /** What LOOKUP finds is what REMOVE takes. */
  lemma RemoveTakes(repo: Repo, s: Vfs, p: Path, n: Name)
    requires Inv(s) && GoodRepo(repo) && Walk(repo, s, p).At? && GoodName(n) && !Walk(repo, s, p + [n]).Gone?
    ensures
      var d := Walk(repo, s, p).id;
      Lookup(repo, s, d, n).1.Some? && Remove(repo, s, d, n).1 == Lookup(repo, s, d, n).1
  {
    var d := Walk(repo, s, p).id;
    var s1, s2 := Populate(repo, s, d), Lookup(repo, s, d, n).0;
    LookupFinds(repo, s, p, n);
    PopulateGrows(repo, s, d);
    GrownAt(repo, s, s1, p);
    GrownAt(repo, s, s1, p + [n]);
    WalkSnoc(repo, s1, p, n);
    WalkAt(repo, s, p);
  }

  /** The inode is marked in both places, and no staged content has changed. */
  ghost predicate MarksGone(f: Server, f2: Server, id: nat) {
    && f2.staging.deleted == f.staging.deleted + {id} && f2.staging.files == f.staging.files
    && id in f2.vfs.nodes && f2.vfs.nodes[id].deleted
  }

  lemma RemovedIsMarked(repo: Repo, f: Server, d: nat, n: Name)
    requires Inv(f.vfs) && Remove(repo, f.vfs, d, n).1.Some?
    ensures MarksGone(f, NfsRemove(repo, f, d, n).0, Remove(repo, f.vfs, d, n).1.value)
  {
  }

  /** REMOVE of a name that is shown marks the one inode that LOOKUP gives for it; from then on
      that inode is gone. */
  lemma RemoveMarks(repo: Repo, f: Server, p: Path, n: Name, offset: nat, data: bytes)
    requires StoresOk(StoresOf(f)) && GoodRepo(repo) && Walk(repo, f.vfs, p).At? && GoodName(n)
    requires p + [n] in ServerShows(repo, f)
    ensures
      var d := Walk(repo, f.vfs, p).id;
      var found, f2 := NfsLookup(repo, f, d, n).1, NfsRemove(repo, f, d, n).0;
      && found.Ok? && MarksGone(f, f2, found.value)
      && NfsWrite(repo, f2, found.value, offset, data) == (f2, Some(NoEnt))
      && NfsSetSize(repo, f2, found.value, offset) == (f2, Some(NoEnt))
      && NfsRead(repo, f2, found.value, offset, |data|) == Err(NoEnt)
  {
    var d := Walk(repo, f.vfs, p).id;
    GoneUnseen(repo, StoresOf(f), p + [n]);
    RemoveTakes(repo, f.vfs, p, n);
    LookupGives(repo, f, p, n);
    RemovedIsMarked(repo, f, d, n);
    GoneAnswers(repo, NfsRemove(repo, f, d, n).0, NfsLookup(repo, f, d, n).1.value, offset, data);
  }

  // ---- LOOKUP of the two special names

  /** In every run, "." is the directory itself, and ".." the one above it, at the root the root;
      neither changes anything. */
  lemma LookupDots(repo: Repo, root: Oid, header: Payload, ops: seq<Op>, p: Path)
    requires GoodRepo(repo) && header.Header? && AllAllowed(repo, NewSession(root, header), ops)
    requires Walk(repo, RunAll(repo, NewSession(root, header), ops).vfs, p).At?
    ensures
      var f := RunAll(repo, NewSession(root, header), ops);
      var d := Walk(repo, f.vfs, p).id;
      && NfsLookup(repo, f, d, [46]) == (f, Ok(d))
      && NfsLookup(repo, f, d, [46, 46]).0 == f && NfsLookup(repo, f, d, [46, 46]).1.Ok?
      && Walk(repo, f.vfs, if p == [] then [] else p[..|p| - 1]) == At(NfsLookup(repo, f, d, [46, 46]).1.value)
  {
    var f := RunAll(repo, NewSession(root, header), ops);
    RunExplained(repo, root, header, ops);
    RunKeepsRoot(repo, root, header, ops);
    WalkAt(repo, f.vfs, p);
    if p != [] {
      var p0 := p[..|p| - 1];
      SplitLast(p);
      WalkSnoc(repo, f.vfs, p0, p[|p| - 1]);
      WalkAt(repo, f.vfs, p0);
    }
  }

  // ---- what is logged

  /** The entry that a change is logged as, path by path. */
  lemma LoggedAs(f: Server, f2: Server, repo: Repo, c: Change)
    requires Made(repo, f, f2, c)
    ensures |f2.log| == |f.log| + 1 && f2.log[|f.log|].payload.Some? && f2.log[|f.log|].number == f.nextEntry
    ensures
      var e := f2.log[|f.log|].payload.value;
      && (c.Create? ==> e == CreateEntry(Join(c.path), FileInode))
      && (c.MakeDir? ==> e == MkdirEntry(Join(c.path)))
      && (c.Write? ==> e == WriteEntry(Join(c.path), c.offset, c.data))
      && (c.Resize? ==> e == TruncateEntry(Join(c.path), c.size))
      && (c.Delete? ==> e == RemoveEntry(Join(c.path)))
      && (c.Move? ==> e == RenameEntry(Join(c.path), Join(c.to)))
  {
  }

  /** The path of a call is also noted among the changed paths, both paths of a rename. */
  lemma PathsNoted(repo: Repo, f: Server, d: nat, n: Name, d2: nat, n2: Name)
    ensures
      var (f2, r) := NfsCreate(repo, f, d, n);
      r.Ok? ==> f2.staging.changed == Record(f.staging, ChildPath(f2.vfs, d, n)).changed
    ensures
      var (f2, r) := NfsMkdir(repo, f, d, n);
      r.Ok? ==> f2.staging.changed == Record(f.staging, ChildPath(f2.vfs, d, n)).changed
    ensures
      var (f2, r) := NfsRemove(repo, f, d, n);
      r.None? ==> f2.staging.changed == Record(f.staging, ChildPath(f2.vfs, d, n)).changed
    ensures
      var (f2, r) := NfsRename(repo, f, d, n, d2, n2);
      var st := Record(Record(f.staging, ChildPath(f.vfs, d, n)), ChildPath(f.vfs, d2, n2));
      r.None? ==> f2.staging.changed == st.changed
  {
  }

  /** A printed path: the names with a '/' between each two. */
  lemma PrintedPath(p: Path, n: Name)
    requires GoodPath(p) && GoodName(n)
    ensures Join([n]) == n && Join([]) == []
    ensures p != [] ==> Join(p + [n]) == Join(p) + [47] + n
  {
    JoinUnder(p, n);
    if p != [] { JoinEnds(p); }
  }

  /** Entries are numbered from 1 on, without a gap. */
  ghost predicate Numbered(f: Server) {
    f.nextEntry == |f.log| + 1 && forall i | 0 <= i < |f.log| :: f.log[i].number == i + 1
  }

  /** Nothing is logged, or one entry with the next number. */
  ghost predicate LogsOne(f: Server, f2: Server) {
    || (f2.log == f.log && f2.nextEntry == f.nextEntry)
    || (exists e :: f2.log == f.log + [e] && e.number == f.nextEntry && f2.nextEntry == f.nextEntry + 1)
  }

  lemma StepLogsOne(repo: Repo, f: Server, op: Op)
    ensures LogsOne(f, Step(repo, f, op))
  {
    var f2 := Step(repo, f, op);
    if |f2.log| > |f.log| {
      assert f2.log == f.log + [f2.log[|f.log|]];
    }
  }

  lemma StepNumbers(repo: Repo, f: Server, op: Op)
    requires Numbered(f)
    ensures Numbered(Step(repo, f, op))
  {
    StepLogsOne(repo, f, op);
  }

  lemma {:induction false} RunNumbers(repo: Repo, root: Oid, header: Payload, ops: seq<Op>)
    ensures Numbered(RunAll(repo, NewSession(root, header), ops))
    decreases |ops|
  {
    if ops != [] {
      RunNumbers(repo, root, header, ops[..|ops| - 1]);
      StepNumbers(repo, RunAll(repo, NewSession(root, header), ops[..|ops| - 1]), ops[|ops| - 1]);
    }
  }
}
