/** What lookups and directory listings say of the tree that the server shows (src/nfs/fs.rs,
    `lookup` and `readdir`), and what a client gathers that follows the pages of a listing. */
module Listings {
  import opened Basics
  import opened Paths
  import opened GitData
  import opened Inodes
  import opened TreeView
  import opened VfsInvariant
  import opened Population
  import opened VfsOperations
  import opened StoreChanges
  import opened Wal
  import opened NfsServer
  import opened LiveRuns

  /** LOOKUP finds a name exactly when the server shows it, and gives the inode that its path
      then leads to. */
  lemma LookupGives(repo: Repo, f: Server, p: Path, n: Name)
    requires StoresOk(StoresOf(f)) && GoodRepo(repo) && Walk(repo, f.vfs, p).At? && GoodName(n)
    ensures
      var (f2, r) := NfsLookup(repo, f, Walk(repo, f.vfs, p).id, n);
      && (r.Ok? <==> p + [n] in ServerShows(repo, f))
      && (if r.Ok? then Walk(repo, f2.vfs, p + [n]) == At(r.value) else r == Err(NoEnt))
  {
    var (s2, id) := Lookup(repo, f.vfs, Walk(repo, f.vfs, p).id, n);
    LookupFinds(repo, f.vfs, p, n);
    GoneUnseen(repo, StoresOf(f), p + [n]);
    if id.Some? {
      GrownStores(repo, StoresOf(f), s2);
      WalkAt(repo, s2, p + [n]);
    }
  }

  // ---- listings

  /** Every live child is listed, and nothing else. */
  lemma {:induction false} ChildrenListed(f: Server, d: nat, ids: seq<nat>)
    requires StoresOk(StoresOf(f)) && forall c | c in ids :: Live(f.vfs, c)
    ensures LiveIds(f.vfs, ids) == ids
    ensures
      var es := ChildEntries(f, ids);
      && |es| == |ids|
      && forall i | 0 <= i < |ids| :: ids[i] in f.vfs.nodes && es[i] == DirEntry(ids[i], f.vfs.nodes[ids[i]].name)
    decreases |ids|
  {
    if ids != [] {
      ChildrenListed(f, d, ids[..|ids| - 1]);
      assert Live(f.vfs, ids[|ids| - 1]);
    }
  }

  /** The children of the directory at `p`: each shown name once, with the inode it leads to. */
  ghost predicate ListsChildren(repo: Repo, f: Server, p: Path, es: seq<DirEntry>) {
    && (forall i, j | 0 <= i < j < |es| :: es[i].name != es[j].name)
    && (forall i | 0 <= i < |es| :: Walk(repo, f.vfs, p + [es[i].name]) == At(es[i].id))
    && (forall n | p + [n] in ServerShows(repo, f) :: exists i :: 0 <= i < |es| && es[i].name == n)
  }

  lemma PopulatedLists(repo: Repo, f: Server, p: Path)
    requires StoresOk(StoresOf(f)) && GoodRepo(repo) && Walk(repo, f.vfs, p).At?
    requires Walk(repo, f.vfs, p).id in f.vfs.dirChildren
    ensures
      var ids := f.vfs.dirChildren[Walk(repo, f.vfs, p).id];
      LiveIds(f.vfs, ids) == ids && ListsChildren(repo, f, p, ChildEntries(f, ids))
  {
    var s, d := f.vfs, Walk(repo, f.vfs, p).id;
    var ids := s.dirChildren[d];
    forall c | c in ids ensures IsChild(s, c, d, s.nodes[c].name) && Live(s, c) {}
    ChildrenListed(f, d, ids);
    var es := ChildEntries(f, ids);
    forall i | 0 <= i < |es| ensures Walk(repo, s, p + [es[i].name]) == At(es[i].id) {
      assert ids[i] in ids && Live(s, ids[i]);
      WalkSnoc(repo, s, p, es[i].name);
    }
    forall i, j | 0 <= i < j < |es| ensures es[i].name != es[j].name {
      assert Walk(repo, s, p + [es[i].name]) == At(ids[i]) && Walk(repo, s, p + [es[j].name]) == At(ids[j]);
    }
    forall n | p + [n] in ServerShows(repo, f) ensures exists i :: 0 <= i < |es| && es[i].name == n {
      GoneUnseen(repo, StoresOf(f), p + [n]);
      WalkSnoc(repo, s, p, n);
      var c := s.childMap[(d, n)];
      assert IsChild(s, c, d, n) && c in ids;
      var i :| 0 <= i < |ids| && ids[i] == c;
      assert es[i].name == n;
    }
  }

  /** The children are listed in the order of the child list. */
  lemma ListedInOrder(f: Server, d: nat)
    requires StoresOk(StoresOf(f)) && d in f.vfs.dirChildren
    ensures
      var ids := f.vfs.dirChildren[d];
      |ChildEntries(f, ids)| == |ids| && forall i | 0 <= i < |ids| :: ChildEntries(f, ids)[i].id == ids[i]
  {
    forall c | c in f.vfs.dirChildren[d] ensures Live(f.vfs, c) {
      assert IsChild(f.vfs, c, d, f.vfs.nodes[c].name);
    }
    ChildrenListed(f, d, f.vfs.dirChildren[d]);
  }

  /** The whole listing of a directory: itself, its parent, and each name that the server shows
      in it, once, in the order of the child list. Files are refused. */
  lemma ListingGives(repo: Repo, f: Server, p: Path)
    requires StoresOk(StoresOf(f)) && GoodRepo(repo) && Walk(repo, f.vfs, p).At?
    ensures
      var d := Walk(repo, f.vfs, p).id;
      var (f2, r) := NfsListing(repo, f, d);
      && ServerShows(repo, f2) == ServerShows(repo, f)
      && (r.Ok? <==> IsDir(ServerShows(repo, f), p)) && (r.Err? ==> r == Err(NotADir))
      && (r.Ok? ==>
            && |r.value| >= 2 && ListsChildren(repo, f2, p, r.value[2..])
            && r.value[0] == DirEntry(d, DOT) && r.value[1] == DirEntry(f.vfs.nodes[d].parent, DOT_DOT)
            && d in f2.vfs.dirChildren && |r.value| == |f2.vfs.dirChildren[d]| + 2
            && forall i | 2 <= i < |r.value| :: r.value[i].id == f2.vfs.dirChildren[d][i - 2])
  {
    var d := Walk(repo, f.vfs, p).id;
    ListingQuiet(repo, f, d);
    WalkAt(repo, f.vfs, p);
    DirSeen(repo, f.vfs, f.staging.files, p);
    if f.vfs.nodes[d].isDir {
      var f2 := f.(vfs := Populate(repo, f.vfs, d));
      PopulateGrows(repo, f.vfs, d);
      GrownAt(repo, f.vfs, f2.vfs, p);
      GrownStores(repo, StoresOf(f), f2.vfs);
      PopulatedLists(repo, f2, p);
      ListedInOrder(f2, d);
      var es := ChildEntries(f2, f2.vfs.dirChildren[d]);
      assert ([DirEntry(d, DOT), DirEntry(f.vfs.nodes[d].parent, DOT_DOT)] + es)[2..] == es;
    }
  }

  // ---- pages

  /** Where the page after an inode number starts. */
  type Starts = nat -> nat

  function StartsIn(all: seq<DirEntry>): Starts {
    after => PageStart(all, after)
  }

  /** What a client gathers that asks for the page after the last entry it has, until a page is
      the last; None when `calls` pages do not suffice. */
  function Gather(all: seq<DirEntry>, starts: Starts, after: nat, max: nat, calls: nat): Option<seq<DirEntry>>
    decreases calls
  {
    if calls == 0 then None
    else
      var (page, last) := Page(all, Min(starts(after), |all|), max);
      if last then Some(page)
      else if page == [] then None
      else
        match Gather(all, starts, page[|page| - 1].id, max, calls - 1)
        case None => None
        case Some(rest) => Some(page + rest)
  }

  lemma GatherLast(all: seq<DirEntry>, starts: Starts, after: nat, k: nat, max: nat, calls: nat)
    requires calls > 0 && starts(after) == k <= |all| && k + max >= |all|
    ensures Gather(all, starts, after, max, calls) == Some(all[k..])
  {
    assert all[k..|all|] == all[k..];
  }

  lemma GatherNext(all: seq<DirEntry>, starts: Starts, after: nat, k: nat, max: nat, calls: nat)
    requires calls > 0 && max > 0 && starts(after) == k && k + max < |all|
    ensures
      var rest := Gather(all, starts, all[k + max - 1].id, max, calls - 1);
      Gather(all, starts, after, max, calls) == if rest.None? then None else Some(all[k..k + max] + rest.value)
  {
    var page := all[k..k + max];
    assert page[|page| - 1] == all[k + max - 1];
  }

  lemma Slices<T>(all: seq<T>, i: nat, j: nat)
    requires i <= j <= |all|
    ensures all[i..j] + all[j..] == all[i..]
  {
  }

  lemma GatherOn(all: seq<DirEntry>, starts: Starts, after: nat, k: nat, max: nat, calls: nat)
    requires calls > 0 && max > 0 && starts(after) == k && k + max < |all|
    requires Gather(all, starts, all[k + max - 1].id, max, calls - 1) == Some(all[k + max..])
    ensures Gather(all, starts, after, max, calls) == Some(all[k..])
  {
    GatherNext(all, starts, after, k, max, calls);
    Slices(all, k, k + max);
  }

  /** From entry `k` on, an inode number tells where the next page starts. */
  ghost predicate Marks(all: seq<DirEntry>, starts: Starts, k: nat) {
    forall j | k <= j < |all| :: starts(all[j].id) == j + 1
  }

  lemma {:induction false} GatherFrom(all: seq<DirEntry>, starts: Starts, after: nat, k: nat, max: nat, calls: nat)
    requires max > 0 && k <= |all| && starts(after) == k && Marks(all, starts, k) && calls > |all| - k
    ensures Gather(all, starts, after, max, calls) == Some(all[k..])
    decreases calls
  {
    if k + max < |all| {
      assert starts(all[k + max - 1].id) == k + max;
      GatherFrom(all, starts, all[k + max - 1].id, k + max, max, calls - 1);
      GatherOn(all, starts, after, k, max, calls);
    } else {
      GatherLast(all, starts, after, k, max, calls);
    }
  }

  /** More pages change nothing once the last has come. */
  lemma {:induction false} MorePages(all: seq<DirEntry>, starts: Starts, after: nat, max: nat, calls: nat, more: nat)
    requires Gather(all, starts, after, max, calls).Some? && calls <= more
    ensures Gather(all, starts, after, max, more) == Gather(all, starts, after, max, calls)
    decreases calls
  {
    var (page, last) := Page(all, Min(starts(after), |all|), max);
    if !last { MorePages(all, starts, page[|page| - 1].id, max, calls - 1, more - 1); }
  }

  ghost predicate DistinctIds(all: seq<DirEntry>) {
    forall i, j | 0 <= i < j < |all| :: all[i].id != all[j].id
  }

  ghost predicate Numbered(all: seq<DirEntry>) {
    forall e | e in all :: e.id > 0
  }

  /** The pages of any size are together the listing, when no inode is listed twice. */
  lemma PagesCover(all: seq<DirEntry>, max: nat)
    requires max > 0 && DistinctIds(all) && Numbered(all)
    ensures Gather(all, StartsIn(all), 0, max, |all| + 1) == Some(all)
  {
    forall j | 0 <= j < |all| ensures PageStart(all, all[j].id) == j + 1 { assert all[j] in all; }
    GatherFrom(all, StartsIn(all), 0, 0, max, |all| + 1);
  }

  /** The root is its own parent, and is listed twice. */
  ghost predicate RootListed(all: seq<DirEntry>) {
    |all| >= 2 && all[0].id == all[1].id && DistinctIds(all[1..]) && Numbered(all)
  }

  /** Its number then leads back to the second entry. */
  ghost predicate RootMarks(all: seq<DirEntry>, starts: Starts) {
    |all| >= 2 && starts(0) == 0 && starts(all[0].id) == 1 && starts(all[1].id) == 1 && Marks(all, starts, 2)
  }

  lemma RootStarts(all: seq<DirEntry>)
    requires RootListed(all)
    ensures RootMarks(all, StartsIn(all))
  {
    assert all[0] in all;
    forall j | 2 <= j < |all| ensures PageStart(all, all[j].id) == j + 1 {
      assert all[j] in all;
      assert all[1..][j - 1] == all[j] && all[1..][0] == all[1];
      forall i | 0 <= i < j ensures all[i].id != all[j].id {
        if i > 0 { assert all[1..][i - 1] == all[i]; }
      }
    }
  }

  /** In pages of one entry the client gets the second entry for ever. */
  lemma {:induction false} OneByOne(all: seq<DirEntry>, starts: Starts, calls: nat)
    requires RootMarks(all, starts) && |all| > 2
    ensures Gather(all, starts, all[0].id, 1, calls) == None && Gather(all, starts, all[1].id, 1, calls) == None
    decreases calls
  {
    if calls > 0 {
      OneByOne(all, starts, calls - 1);
      GatherNext(all, starts, all[0].id, 1, 1, calls);
      GatherNext(all, starts, all[1].id, 1, 1, calls);
    }
  }

  lemma RootInFull(all: seq<DirEntry>, starts: Starts, max: nat, calls: nat)
    requires RootMarks(all, starts) && max > 0 && calls > |all| && (|all| == 2 || max >= 3)
    ensures Gather(all, starts, 0, max, calls) == Some(all)
  {
    if max >= |all| {
      GatherLast(all, starts, 0, 0, max, calls);
    } else {
      if max >= 3 {
        GatherFrom(all, starts, all[max - 1].id, max, max, calls - 1);
      } else {
        GatherLast(all, starts, all[0].id, 1, max, calls - 1);
      }
      GatherOn(all, starts, 0, 0, max, calls);
      assert all[0..] == all;
    }
  }

  lemma RootInTwos(all: seq<DirEntry>, starts: Starts, calls: nat)
    requires RootMarks(all, starts) && |all| > 2 && calls > |all|
    ensures Gather(all, starts, 0, 2, calls) == Some(all[0..2] + all[1..])
  {
    if |all| == 3 {
      GatherLast(all, starts, all[1].id, 1, 2, calls - 1);
    } else {
      GatherFrom(all, starts, all[2].id, 3, 2, calls - 2);
      GatherOn(all, starts, all[1].id, 1, 2, calls - 1);
    }
    GatherNext(all, starts, 0, 0, 2, calls);
  }

  lemma RootNotAll(all: seq<DirEntry>, starts: Starts, max: nat, calls: nat)
    requires RootMarks(all, starts) && |all| > 2 && 0 < max < 3
    ensures Gather(all, starts, 0, max, calls) != Some(all)
  {
    if calls == 0 {
    } else if max == 1 {
      OneByOne(all, starts, calls - 1);
      GatherNext(all, starts, 0, 0, 1, calls);
    } else if Gather(all, starts, 0, max, calls).Some? {
      MorePages(all, starts, 0, max, calls, calls + |all| + 1);
      RootInTwos(all, starts, calls + |all| + 1);
      assert |all[0..2] + all[1..]| == |all| + 1;
    }
  }

  /** At the root, the pages are together the listing exactly when they hold three entries, or the
      root has no children: in twos the parent comes twice, and one by one they never end. */
  lemma RootPages(all: seq<DirEntry>, max: nat)
    requires RootListed(all) && max > 0
    ensures (exists calls: nat :: Gather(all, StartsIn(all), 0, max, calls) == Some(all)) <==> |all| == 2 || max >= 3
  {
    RootStarts(all);
    if |all| == 2 || max >= 3 {
      RootInFull(all, StartsIn(all), max, |all| + 1);
    } else {
      forall calls: nat ensures Gather(all, StartsIn(all), 0, max, calls) != Some(all) {
        RootNotAll(all, StartsIn(all), max, calls);
      }
    }
  }

  lemma ChildIds(repo: Repo, f: Server, p: Path, es: seq<DirEntry>)
    requires Inv(f.vfs) && Walk(repo, f.vfs, p).At? && ListsChildren(repo, f, p, es)
    ensures DistinctIds(es) && forall e | e in es :: e.id > 0 && AtDepth(f.vfs, e.id, |p| + 1)
  {
    forall e | e in es ensures e.id > 0 && AtDepth(f.vfs, e.id, |p| + 1) {
      var i :| 0 <= i < |es| && es[i] == e;
      WalkAt(repo, f.vfs, p + [es[i].name]);
    }
    forall i, j | 0 <= i < j < |es| ensures es[i].id != es[j].id {
      SnocEq(p, es[i].name, p, es[j].name);
      if es[i].id == es[j].id { WalkUnique(repo, f.vfs, p + [es[i].name], p + [es[j].name]); }
    }
  }

  /** The directory and its parent are not among its children. */
  lemma DotIds(repo: Repo, f: Server, p: Path, e: DirEntry)
    requires Inv(f.vfs) && Walk(repo, f.vfs, p).At? && AtDepth(f.vfs, e.id, |p| + 1)
    ensures
      var d := Walk(repo, f.vfs, p).id;
      && d in f.vfs.nodes && d > 0 && e.id != d
      && (p != [] ==> f.vfs.nodes[d].parent > 0 && e.id != f.vfs.nodes[d].parent && d != f.vfs.nodes[d].parent)
  {
    ParentDepth(repo, f, p);
    DepthUnique(f.vfs, e.id, |p| + 1);
  }

  lemma ParentDepth(repo: Repo, f: Server, p: Path)
    requires Inv(f.vfs) && Walk(repo, f.vfs, p).At?
    ensures
      var d := Walk(repo, f.vfs, p).id;
      && d in f.vfs.nodes && d > 0 && AtDepth(f.vfs, d, |p|)
      && (p != [] ==>
            var u := f.vfs.nodes[d].parent;
            u in f.vfs.nodes && u > 0 && AtDepth(f.vfs, u, |p| - 1) && u != d)
  {
    WalkAt(repo, f.vfs, p);
    if p != [] {
      var above := p[..|p| - 1];
      assert (Walk(repo, f.vfs, above).id, p[|p| - 1]) in f.vfs.childMap;
      WalkAt(repo, f.vfs, above);
      DepthUnique(f.vfs, Walk(repo, f.vfs, p).id, |p|);
    }
  }

  /** A listing below the root lists no inode twice; the root's lists only the root so. */
  lemma ListingIds(repo: Repo, f: Server, p: Path)
    requires StoresOk(StoresOf(f)) && GoodRepo(repo) && Walk(repo, f.vfs, p).At?
    requires NfsListing(repo, f, Walk(repo, f.vfs, p).id).1.Ok?
    ensures
      var all := NfsListing(repo, f, Walk(repo, f.vfs, p).id).1.value;
      && (p != [] ==> DistinctIds(all) && Numbered(all))
      && (p == [] && f.vfs.nodes[ROOT].parent == ROOT ==> RootListed(all))
  {
    var d := Walk(repo, f.vfs, p).id;
    var (f2, r) := NfsListing(repo, f, d);
    ListingGives(repo, f, p);
    ListingQuiet(repo, f, d);
    WalkAt(repo, f.vfs, p);
    PopulateGrows(repo, f.vfs, d);
    GrownAt(repo, f.vfs, f2.vfs, p);
    ChildIds(repo, f2, p, r.value[2..]);
    ParentDepth(repo, f2, p);
    forall e | e in r.value[2..] ensures e.id != d && (p != [] ==> e.id != f2.vfs.nodes[d].parent) {
      DotIds(repo, f2, p, e);
    }
    DotsApart(r.value);
  }

  /** From the children's numbers to the whole listing's. */
  lemma DotsApart(all: seq<DirEntry>)
    requires |all| >= 2 && DistinctIds(all[2..]) && all[0].id > 0
    requires forall e | e in all[2..] :: e.id > 0 && e.id != all[0].id
    ensures all[0].id == all[1].id ==> RootListed(all)
    ensures all[0].id != all[1].id && all[1].id > 0 && (forall e | e in all[2..] :: e.id != all[1].id) ==>
      DistinctIds(all) && Numbered(all)
  {
    forall i | 2 <= i < |all| ensures all[i] in all[2..] { assert all[2..][i - 2] == all[i]; }
    forall i, j | 2 <= i < j < |all| ensures all[i].id != all[j].id {
      assert all[2..][i - 2] == all[i] && all[2..][j - 2] == all[j];
    }
  }

  // ---- in every run

  lemma RenameKeepsRoot(repo: Repo, s: Vfs, d: nat, n: Name, d2: nat, n2: Name)
    requires Inv(s) && GoodRepo(repo) && s.nodes[ROOT].parent == ROOT
    ensures
      var s2 := Rename(repo, s, d, n, d2, n2).0;
      ROOT in s2.nodes && s2.nodes[ROOT].parent == ROOT
  {
    var s1 := Populate(repo, s, d);
    PopulateGrows(repo, s, d);
    PopulateGrows(repo, s1, d2);
    var s2 := Populate(repo, s1, d2);
    RemoveKeepsNames(repo, s2, d2, n2);
    if (d, n) in s2.childMap { assert IsChild(s2, s2.childMap[(d, n)], d, n); }
  }

  lemma StepKeepsRoot(repo: Repo, f: Server, op: Op)
    requires StoresOk(StoresOf(f)) && GoodRepo(repo) && f.vfs.nodes[ROOT].parent == ROOT
    ensures
      var s2 := Step(repo, f, op).vfs;
      ROOT in s2.nodes && s2.nodes[ROOT].parent == ROOT
  {
    match op
    case OpLookup(dir, name) => LookupGrows(repo, f.vfs, dir, name);
    case OpReadDir(dir, _, _) => PopulateGrows(repo, f.vfs, dir);
    case OpCreate(dir, name) => CreateKeepsNames(repo, f.vfs, dir, name, RegularFile);
    case OpMkdir(dir, name) => MkdirKeepsNames(repo, f.vfs, dir, name);
    case OpWrite(_, _, _) =>
    case OpSetSize(_, _) =>
    case OpRemove(dir, name) => RemoveKeepsNames(repo, f.vfs, dir, name);
    case OpRename(dir, name, toDir, toName) => RenameKeepsRoot(repo, f.vfs, dir, name, toDir, toName);
  }

  lemma {:induction false} RunKeepsRoot(repo: Repo, root: Oid, header: Payload, ops: seq<Op>)
    requires GoodRepo(repo) && header.Header? && AllAllowed(repo, NewSession(root, header), ops)
    ensures
      var s := RunAll(repo, NewSession(root, header), ops).vfs;
      ROOT in s.nodes && s.nodes[ROOT].parent == ROOT
    decreases |ops|
  {
    if ops != [] {
      var front := ops[..|ops| - 1];
      RunKeepsRoot(repo, root, header, front);
      RunExplained(repo, root, header, front);
      StepKeepsRoot(repo, RunAll(repo, NewSession(root, header), front), ops[|ops| - 1]);
    }
  }

  /** In every run, a client that follows the pages of a directory gathers each name that is shown
      there exactly once, except at a root with children in pages of one or two entries. */
  lemma PagesOfRun(repo: Repo, root: Oid, header: Payload, ops: seq<Op>, p: Path, max: nat)
    requires GoodRepo(repo) && header.Header? && AllAllowed(repo, NewSession(root, header), ops) && max > 0
    requires
      var f := RunAll(repo, NewSession(root, header), ops);
      Walk(repo, f.vfs, p).At? && IsDir(ServerShows(repo, f), p)
    ensures
      var f := RunAll(repo, NewSession(root, header), ops);
      var (f2, r) := NfsListing(repo, f, Walk(repo, f.vfs, p).id);
      && r.Ok? && |r.value| >= 2 && ListsChildren(repo, f2, p, r.value[2..])
      && ((exists calls: nat :: Gather(r.value, StartsIn(r.value), 0, max, calls) == Some(r.value)) <==>
          p != [] || |r.value| == 2 || max >= 3)
  {
    var f := RunAll(repo, NewSession(root, header), ops);
    RunExplained(repo, root, header, ops);
    RunKeepsRoot(repo, root, header, ops);
    ListingGives(repo, f, p);
    ListingIds(repo, f, p);
    var all := NfsListing(repo, f, Walk(repo, f.vfs, p).id).1.value;
    if p != [] { PagesCover(all, max); } else { RootPages(all, max); }
  }
}
