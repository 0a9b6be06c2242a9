/** Runs that only create, write and truncate: what stays true of the graph, so that each inode
    is either an entry of a base tree, untouched in its id, or new. */
module Accretion {
  import opened Basics
  import opened Paths
  import opened GitData
  import opened Inodes
  import opened TreeView
  import opened VfsInvariant
  import opened Population
  import opened GitTree
  import opened TreeBuilder
  import opened Staging
  import opened Wal
  import opened Recovery
  import opened StoreChanges
  import opened ReplayProofs
  import VfsOperations

  /** A name that a tree object can hold and that is committed. */
  predicate PlainName(n: Name) {
    0 !in n && ValidUtf8(n) && !AppleMetadata(n)
  }

  /** Base trees in which every entry has an id and a plain name. */
  ghost predicate PlainBase(repo: Repo) {
    && GoodRepo(repo) && [] !in repo.trees
    && forall t | t in repo.trees :: forall e | e in repo.trees[t] :: e.oid != [] && PlainName(e.name)
  }

  /** Inode `c` is new, and staged unless a directory; or it is an entry of its parent's tree. */
  ghost predicate Origin(repo: Repo, s: Vfs, staged: set<nat>, c: nat) {
    && c in s.nodes
    && var n := s.nodes[c];
    && !n.deleted && PlainName(n.name)
    && if n.oid == [] then (n.isDir || c in staged) && (n.mode.Directory? || n.mode.RegularFile?)
       else
         && n.parent in s.nodes
         && FindEntry(EntriesOf(repo, s.nodes[n.parent].oid), n.name) == Some(TreeEntry(n.mode, n.name, n.oid))
  }

  /** The entries of a populated directory's tree are among its children. */
  ghost predicate Covered(repo: Repo, s: Vfs, d: nat) {
    && d in s.nodes
    && forall e | e in EntriesOf(repo, s.nodes[d].oid) :: HasChild(s, d, e)
  }

  ghost predicate HasChild(s: Vfs, d: nat, e: TreeEntry) {
    (d, e.name) in s.childMap && s.childMap[(d, e.name)] in s.nodes
    && s.nodes[s.childMap[(d, e.name)]].mode == e.mode && s.nodes[s.childMap[(d, e.name)]].oid == e.oid
  }

  ghost predicate Accrued(repo: Repo, s: Vfs, staged: set<nat>) {
    && ROOT in s.nodes && s.nodes[ROOT].parent == ROOT
    && (forall c {:trigger Origin(repo, s, staged, c)} | c in s.nodes && c != ROOT :: Origin(repo, s, staged, c))
    && (forall d {:trigger Covered(repo, s, d)} | d in s.dirChildren :: Covered(repo, s, d))
    && (forall id | id in staged :: id in s.nodes && id != ROOT && !s.nodes[id].isDir)
  }

  ghost predicate AccruedStores(repo: Repo, x: Stores) {
    StoresOk(x) && x.staging.deleted == {} && Accrued(repo, x.vfs, x.staging.sizes.Keys)
  }

  // ---- population

  lemma PopulatedOrigin(repo: Repo, s: Vfs, d: nat, staged: set<nat>, b: Batch, c: nat)
    requires Waiting(s, d) && GoodRepo(repo) && PlainBase(repo)
    requires PopulatedBy(s, Populate(repo, s, d), d, EntriesOf(repo, s.nodes[d].oid), b)
    requires c in b.nodes
    ensures Origin(repo, Populate(repo, s, d), staged, c)
  {
    var entries := EntriesOf(repo, s.nodes[d].oid);
    var e := FindEntry(entries, b.nodes[c].name).value;
    assert e in entries;
  }

  lemma OldOrigin(repo: Repo, s: Vfs, t: Vfs, staged: set<nat>, more: set<nat>, c: nat)
    requires Origin(repo, s, staged, c) && staged <= more && forall id | id in s.nodes ::
      id in t.nodes && t.nodes[id] == s.nodes[id]
    ensures Origin(repo, t, more, c)
  {
  }

  lemma OldCovered(repo: Repo, s: Vfs, t: Vfs, d: nat)
    requires Covered(repo, s, d) && forall id | id in s.nodes :: id in t.nodes && t.nodes[id] == s.nodes[id]
    requires forall k | k in s.childMap :: k in t.childMap && t.childMap[k] == s.childMap[k]
    ensures Covered(repo, t, d)
  {
    forall e | e in EntriesOf(repo, t.nodes[d].oid) ensures HasChild(t, d, e) { assert HasChild(s, d, e); }
  }

  lemma NewCovered(repo: Repo, s: Vfs, d: nat, b: Batch)
    requires Waiting(s, d) && GoodRepo(repo)
    requires PopulatedBy(s, Populate(repo, s, d), d, EntriesOf(repo, s.nodes[d].oid), b)
    ensures Covered(repo, Populate(repo, s, d), d)
  {
    var t, entries := Populate(repo, s, d), EntriesOf(repo, s.nodes[d].oid);
    forall e | e in entries ensures HasChild(t, d, e) {
      var i :| 0 <= i < |entries| && entries[i] == e;
      FindEntryAt(entries, i);
      assert (d, e.name) in b.children;
    }
  }

  lemma PopulateAccrues(repo: Repo, s: Vfs, d: nat, staged: set<nat>)
    requires Inv(s) && PlainBase(repo) && Accrued(repo, s, staged)
    ensures Accrued(repo, Populate(repo, s, d), staged)
  {
    if CanPopulate(s, d) && d !in s.dirChildren {
      var t, entries := Populate(repo, s, d), EntriesOf(repo, s.nodes[d].oid);
      var b := Collect(s, d, entries);
      CollectAll(s, d, entries);
      CollectNumbered(s, d, entries);
      CollectIds(s, d, entries);
      forall c | c in t.nodes && c != ROOT ensures Origin(repo, t, staged, c) {
        if c in b.nodes { PopulatedOrigin(repo, s, d, staged, b, c); }
        else { assert Origin(repo, s, staged, c); OldOrigin(repo, s, t, staged, staged, c); }
      }
      NewCovered(repo, s, d, b);
      forall e | e in t.dirChildren ensures Covered(repo, t, e) {
        if e != d { assert Covered(repo, s, e); OldCoveredElsewhere(repo, s, t, d, b, e); }
      }
    }
  }

  lemma OldCoveredElsewhere(repo: Repo, s: Vfs, t: Vfs, d: nat, b: Batch, e: nat)
    requires Waiting(s, d) && PopulatedBy(s, t, d, EntriesOf(repo, s.nodes[d].oid), b) && e != d && Covered(repo, s, e)
    ensures Covered(repo, t, e)
  {
    forall x | x in EntriesOf(repo, t.nodes[e].oid) ensures HasChild(t, e, x) {
      assert HasChild(s, e, x);
      assert (e, x.name) !in b.children;
    }
  }

  lemma LookupAccrues(repo: Repo, s: Vfs, d: nat, n: Name, staged: set<nat>)
    requires Inv(s) && PlainBase(repo) && Accrued(repo, s, staged)
    ensures Inv(Lookup(repo, s, d, n).0) && Accrued(repo, Lookup(repo, s, d, n).0, staged)
  {
    PopulateAccrues(repo, s, d, staged);
    PopulateGrows(repo, s, d);
  }

  lemma {:induction false} LookupPartsAccrues(repo: Repo, s: Vfs, from: nat, parts: seq<bytes>, staged: set<nat>)
    requires Inv(s) && PlainBase(repo) && Accrued(repo, s, staged)
    ensures Accrued(repo, LookupParts(repo, s, from, parts).0, staged)
    decreases |parts|
  {
    if parts != [] {
      if parts[0] == [] || parts[0] == DOT {
        LookupPartsAccrues(repo, s, from, parts[1..], staged);
      } else {
        LookupAccrues(repo, s, from, parts[0], staged);
        var (s1, child) := Lookup(repo, s, from, parts[0]);
        if child.Some? { LookupPartsAccrues(repo, s1, child.value, parts[1..], staged); }
      }
    }
  }

  lemma LookupPathAccrues(repo: Repo, s: Vfs, path: bytes, staged: set<nat>)
    requires Inv(s) && PlainBase(repo) && Accrued(repo, s, staged)
    ensures Accrued(repo, LookupPath(repo, s, path).0, staged)
  {
    if Trim(path) != [] { LookupPartsAccrues(repo, s, ROOT, Split(Trim(path)), staged); }
  }

  /** Finding the parent of a path whose parent exists only populates. */
  lemma ParentAccrues(repo: Repo, s: Vfs, p: Path, n: Name, staged: set<nat>)
    requires Inv(s) && PlainBase(repo) && Accrued(repo, s, staged) && GoodPath(p + [n]) && !Walk(repo, s, p).Gone?
    ensures Accrued(repo, EnsureParentDirs(repo, s, Join(p + [n])).0, staged)
  {
    ParseJoin(p + [n]);
    assert (p + [n])[..|p|] == p && [] + p == p;
    GoodSnoc(p, n);
    EnsureDirsFinds(repo, s, [], p);
    LookupPartsAccrues(repo, s, ROOT, p, staged);
  }

  // ---- creation

  /** `t` is `s` with a new child of a populated directory, under a name it did not have. */
  ghost predicate Added(s: Vfs, t: Vfs, node: Node) {
    && s.next !in s.nodes && s.next != ROOT && node.parent in s.dirChildren && (node.parent, node.name) !in s.childMap
    && node.oid == [] && PlainName(node.name) && !node.deleted && (node.mode.Directory? || node.mode.RegularFile?)
    && t.nodes == s.nodes[s.next := node] && t.childMap == s.childMap[(node.parent, node.name) := s.next]
    && t.dirChildren.Keys <= s.dirChildren.Keys + {s.next}
  }

  lemma AddedOrigins(repo: Repo, s: Vfs, t: Vfs, node: Node, staged: set<nat>, more: set<nat>)
    requires Accrued(repo, s, staged) && Added(s, t, node) && more == if node.isDir then staged else staged + {s.next}
    ensures forall c | c in t.nodes && c != ROOT :: Origin(repo, t, more, c)
  {
    forall c | c in t.nodes && c != ROOT ensures Origin(repo, t, more, c) {
      if c != s.next { assert Origin(repo, s, staged, c); OldOrigin(repo, s, t, staged, more, c); }
    }
  }

  lemma AddedCovers(repo: Repo, s: Vfs, t: Vfs, node: Node, staged: set<nat>)
    requires Accrued(repo, s, staged) && Added(s, t, node) && [] !in repo.trees
    ensures forall d | d in t.dirChildren :: Covered(repo, t, d)
  {
    forall d | d in t.dirChildren ensures Covered(repo, t, d) {
      if d != s.next { assert Covered(repo, s, d); OldCovered(repo, s, t, d); }
    }
  }

  lemma LinkAccrues(repo: Repo, s: Vfs, t: Vfs, node: Node, staged: set<nat>, more: set<nat>)
    requires Accrued(repo, s, staged) && Added(s, t, node) && [] !in repo.trees && s.next != ROOT
    requires more == if node.isDir then staged else staged + {s.next}
    ensures Accrued(repo, t, more)
  {
    AddedOrigins(repo, s, t, node, staged, more);
    AddedCovers(repo, s, t, node, staged);
  }

  lemma StageAccrues(repo: Repo, s: Vfs, staged: set<nat>, id: nat)
    requires Accrued(repo, s, staged) && id in s.nodes && id != ROOT && !s.nodes[id].isDir
    ensures Accrued(repo, s, staged + {id})
  {
    forall c | c in s.nodes && c != ROOT ensures Origin(repo, s, staged + {id}, c) {
      assert Origin(repo, s, staged, c);
      OldOrigin(repo, s, s, staged, staged + {id}, c);
    }
  }

  /** `create_file` and staging, in a directory, on a free name or over a file. */
  lemma CreateAccrues(repo: Repo, s: Vfs, d: nat, n: Name, staged: set<nat>)
    requires Inv(s) && PlainBase(repo) && Accrued(repo, s, staged) && CanPopulate(s, d) && PlainName(n)
    requires
      var s1 := Populate(repo, s, d);
      (d, n) in s1.childMap ==> s1.childMap[(d, n)] in s1.nodes && !s1.nodes[s1.childMap[(d, n)]].isDir
    ensures
      var (s2, id) := CreateFile(repo, s, d, n, RegularFile);
      id.Some? && Accrued(repo, s2, staged + {id.value})
  {
    PopulateAccrues(repo, s, d, staged);
    PopulateGrows(repo, s, d);
    var s1 := Populate(repo, s, d);
    if (d, n) in s1.childMap {
      ReviveAccrues(repo, s1, d, n, staged);
    } else {
      var node := Node(d, n, [], RegularFile, false, false);
      LinkAccrues(repo, s1, Link(s1, node), node, staged, staged + {s1.next});
    }
  }

  lemma ReviveAccrues(repo: Repo, s: Vfs, d: nat, n: Name, staged: set<nat>)
    requires Inv(s) && Accrued(repo, s, staged) && (d, n) in s.childMap
    requires s.childMap[(d, n)] in s.nodes && !s.nodes[s.childMap[(d, n)]].isDir
    ensures
      var id := s.childMap[(d, n)];
      s.(nodes := s.nodes[id := s.nodes[id].(deleted := false)]) == s && Accrued(repo, s, staged + {id})
  {
    var id := s.childMap[(d, n)];
    assert IsChild(s, id, d, n);
    assert s.nodes[id := s.nodes[id].(deleted := false)] == s.nodes;
    StageAccrues(repo, s, staged, id);
  }

  lemma MkdirAccrues(repo: Repo, s: Vfs, d: nat, n: Name, staged: set<nat>)
    requires Inv(s) && PlainBase(repo) && Accrued(repo, s, staged) && CanPopulate(s, d) && PlainName(n)
    requires (d, n) !in Populate(repo, s, d).childMap
    ensures Accrued(repo, Mkdir(repo, s, d, n).0, staged)
  {
    PopulateAccrues(repo, s, d, staged);
    PopulateGrows(repo, s, d);
    var s1 := Populate(repo, s, d);
    LinkAccrues(repo, s1, Mkdir(repo, s, d, n).0, Node(d, n, [], Directory, true, false), staged, staged);
  }

  // ---- replayed entries

  /** Changes that only add: a file on a free name or over a file, a directory on a free name,
      contents of files; and no name that is not committed. */
  ghost predicate Adds(v: View, c: Change) {
    Applicable(v, c) &&
    match c
    case Create(p) => !IsDir(v, p) && PlainName(p[|p| - 1])
    case MakeDir(p) => PlainName(p[|p| - 1])
    case Write(_, _, _) => true
    case Resize(_, _) => true
    case _ => false
  }

  ghost predicate AllAdd(v: View, cs: seq<Change>)
    decreases |cs|
  {
    cs == [] || (Adds(v, cs[0]) && AllAdd(Apply(v, cs[0]), cs[1..]))
  }

  lemma {:induction false} AllAddApplicable(v: View, cs: seq<Change>)
    requires AllAdd(v, cs)
    ensures AllApplicable(v, cs)
    decreases |cs|
  {
    if cs != [] { AllAddApplicable(Apply(v, cs[0]), cs[1..]); }
  }

  lemma {:induction false} AllAddSplit(v: View, cs: seq<Change>, c: Change)
    requires AllAdd(v, cs + [c])
    ensures AllAdd(v, cs) && AllApplicable(v, cs) && Adds(ApplyAll(v, cs), c)
    decreases |cs|
  {
    if cs == [] {
      assert (cs + [c])[0] == c;
    } else {
      assert (cs + [c])[1..] == cs[1..] + [c];
      AllAddSplit(Apply(v, cs[0]), cs[1..], c);
    }
  }

  /** After the populating lookups of a handler: the place is where the view says. */
  lemma PlaceIs(repo: Repo, x: Stores, s1: Vfs, p: Path, n: Name, d: nat)
    requires StoresOk(x) && GoodRepo(repo) && StoresOk(x.(vfs := s1)) && Shows(repo, x.(vfs := s1)) == Shows(repo, x)
    requires Walk(repo, s1, p) == At(d) && IsDir(Shows(repo, x), p)
    ensures CanPopulate(s1, d)
    ensures
      var s2 := Populate(repo, s1, d);
      && (p + [n] !in Shows(repo, x) ==> (d, n) !in s2.childMap)
      && (!IsDir(Shows(repo, x), p + [n]) && (d, n) in s2.childMap ==>
            s2.childMap[(d, n)] in s2.nodes && !s2.nodes[s2.childMap[(d, n)]].isDir)
  {
    VfsOperations.PopulateAt(repo, s1, x.staging.files, p);
    var s2 := Populate(repo, s1, d);
    WalkSnoc(repo, s2, p, n);
    if (d, n) in s2.childMap {
      assert Walk(repo, s2, p + [n]) == At(s2.childMap[(d, n)]);
      VfsOperations.DirSeen(repo, s2, x.staging.files, p + [n]);
      assert IsChild(s2, s2.childMap[(d, n)], d, n);
    }
  }

  /** Where a new path goes: its parent is found, and is a directory without that name, or
      with a file there. */
  lemma PlaceFound(repo: Repo, x: Stores, p: Path)
    requires AccruedStores(repo, x) && PlainBase(repo) && HasPlace(Shows(repo, x), p) && !IsDir(Shows(repo, x), p)
    ensures
      var (s1, place) := EnsureParentDirs(repo, x.vfs, Join(p));
      && place.Some? && place.value.1 == p[|p| - 1] && Inv(s1) && Accrued(repo, s1, x.staging.sizes.Keys)
      && CanPopulate(s1, place.value.0)
      && var s2 := Populate(repo, s1, place.value.0);
      && (p !in Shows(repo, x) ==> place.value !in s2.childMap)
      && (place.value in s2.childMap ==>
        s2.childMap[place.value] in s2.nodes && !s2.nodes[s2.childMap[place.value]].isDir)
  {
    var p0, n := p[..|p| - 1], p[|p| - 1];
    SplitLast(p);
    GoneUnseen(repo, x, p0);
    FindParent(repo, x, p);
    ParentAccrues(repo, x.vfs, p0, n, x.staging.sizes.Keys);
    var (s1, place) := EnsureParentDirs(repo, x.vfs, Join(p));
    PlaceIs(repo, x, s1, p0, n, place.value.0);
  }

  /** What creating and staging at the place found leaves. */
  lemma CreatedAccrues(repo: Repo, s1: Vfs, place: (nat, Name), st: Staging)
    requires Inv(s1) && PlainBase(repo) && Accrued(repo, s1, st.sizes.Keys) && CanPopulate(s1, place.0)
    requires PlainName(place.1)
    requires
      var s2 := Populate(repo, s1, place.0);
      place in s2.childMap ==> s2.childMap[place] in s2.nodes && !s2.nodes[s2.childMap[place]].isDir
    ensures
      var (s2, id) := CreateFile(repo, s1, place.0, place.1, RegularFile);
      id.Some? && Accrued(repo, s2, StageNew(st, id.value).sizes.Keys) && StageNew(st, id.value).deleted == st.deleted
  {
    CreateAccrues(repo, s1, place.0, place.1, st.sizes.Keys);
    StageNewKeys(st, CreateFile(repo, s1, place.0, place.1, RegularFile).1.value);
  }

  lemma ReplayCreateAccrues(repo: Repo, x: Stores, p: Path)
    requires AccruedStores(repo, x) && PlainBase(repo) && Adds(Shows(repo, x), Create(p))
    ensures AccruedStores(repo, ReplayCreate(repo, x, Join(p), RegularFile).0)
  {
    PlaceFound(repo, x, p);
    ReplayCreateShows(repo, x, p);
    var (s1, place) := EnsureParentDirs(repo, x.vfs, Join(p));
    CreatedAccrues(repo, s1, place.value, x.staging);
  }

  lemma StageNewKeys(st: Staging, id: nat)
    ensures StageNew(st, id).sizes.Keys == st.sizes.Keys + {id} && StageNew(st, id).deleted == st.deleted
  {
  }

  lemma ReplayMkdirAccrues(repo: Repo, x: Stores, p: Path)
    requires AccruedStores(repo, x) && PlainBase(repo) && Adds(Shows(repo, x), MakeDir(p))
    ensures AccruedStores(repo, ReplayMkdir(repo, x, Join(p)).0)
  {
    PlaceFound(repo, x, p);
    ReplayMkdirShows(repo, x, p);
    var (s1, place) := EnsureParentDirs(repo, x.vfs, Join(p));
    MkdirAccrues(repo, s1, place.value.0, place.value.1, x.staging.sizes.Keys);
  }

  /** The inode of a file that is seen can be staged. */
  lemma FoundFile(repo: Repo, x: Stores, p: Path)
    requires AccruedStores(repo, x) && PlainBase(repo) && GoodPath(p) && IsFile(Shows(repo, x), p)
    ensures
      var (s1, id) := LookupPath(repo, x.vfs, Join(p));
      id.Some? && Accrued(repo, s1, x.staging.sizes.Keys + {id.value}) && GetNode(s1, id.value).Some?
  {
    FindPath(repo, x, p);
    LookupPathAccrues(repo, x.vfs, Join(p), x.staging.sizes.Keys);
    var (s1, id) := LookupPath(repo, x.vfs, Join(p));
    WalkAt(repo, s1, p);
    VfsOperations.DirSeen(repo, s1, x.staging.files, p);
    StageAccrues(repo, s1, x.staging.sizes.Keys, id.value);
  }

  lemma ReplayWriteAccrues(repo: Repo, x: Stores, p: Path, offset: nat, data: bytes)
    requires AccruedStores(repo, x) && PlainBase(repo) && Adds(Shows(repo, x), Write(p, offset, data))
    ensures AccruedStores(repo, ReplayWrite(repo, x, Join(p), offset, data).0)
  {
    FoundFile(repo, x, p);
    ReplayWriteShows(repo, x, p, offset, data);
    var (s1, id) := LookupPath(repo, x.vfs, Join(p));
    var base := BaseData(repo, x.staging, id.value, s1.nodes[id.value].oid);
    assert WriteAt(x.staging, id.value, offset, data, base).sizes.Keys == x.staging.sizes.Keys + {id.value};
  }

  lemma ReplayTruncateAccrues(repo: Repo, x: Stores, p: Path, size: nat)
    requires AccruedStores(repo, x) && PlainBase(repo) && Adds(Shows(repo, x), Resize(p, size))
    ensures AccruedStores(repo, ReplayTruncate(repo, x, Join(p), size).0)
  {
    FoundFile(repo, x, p);
    ReplayTruncateShows(repo, x, p, size);
    var (s1, id) := LookupPath(repo, x.vfs, Join(p));
    var base := BaseData(repo, x.staging, id.value, s1.nodes[id.value].oid);
    assert Truncate(x.staging, id.value, size, base).sizes.Keys == x.staging.sizes.Keys + {id.value};
  }

  lemma ReplayEntryAccrues(repo: Repo, x: Stores, number: nat, c: Change)
    requires AccruedStores(repo, x) && PlainBase(repo) && Adds(Shows(repo, x), c)
    ensures AccruedStores(repo, ReplayEntry(repo, x, WalEntry(number, Some(Printed(c)))).0)
  {
    EntryIsChange(repo, x, number, c);
    RecordedShows(repo, x, c);
    var y := RecordedStores(x, c);
    assert AccruedStores(repo, y);
    match c
    case Create(p) => ReplayCreateAccrues(repo, y, p);
    case MakeDir(p) => ReplayMkdirAccrues(repo, y, p);
    case Write(p, offset, data) => ReplayWriteAccrues(repo, y, p, offset, data);
    case Resize(p, size) => ReplayTruncateAccrues(repo, y, p, size);
    case _ => assert false;
  }

  lemma ReplayStepAccrues(repo: Repo, x: Stores, log: seq<WalEntry>, cs: seq<Change>, last: WalEntry, c: Change)
    requires StoresOk(x) && PlainBase(repo) && Records(log, cs) && AllApplicable(Shows(repo, x), cs)
    requires Adds(ApplyAll(Shows(repo, x), cs), c) && last.payload == Some(Printed(c))
    requires AccruedStores(repo, Replay(repo, x, log).0)
    ensures AccruedStores(repo, ReplayEntry(repo, Replay(repo, x, log).0, last).0)
  {
    ReplayShows(repo, x, log, cs);
    ReplayEntryAccrues(repo, Replay(repo, x, log).0, last.number, c);
  }

  /** After replaying a log of changes that only add, every inode has its origin. */
  lemma {:induction false} ReplayAccrues(repo: Repo, x: Stores, log: seq<WalEntry>, cs: seq<Change>)
    requires AccruedStores(repo, x) && PlainBase(repo) && Records(log, cs) && AllAdd(Shows(repo, x), cs)
    ensures Replay(repo, x, log).1 && AccruedStores(repo, Replay(repo, x, log).0)
    decreases |log|
  {
    AllAddApplicable(Shows(repo, x), cs);
    ReplayShows(repo, x, log, cs);
    if log != [] {
      var front, last := log[..|log| - 1], log[|log| - 1];
      if last.payload.None? || last.payload.value.Header? {
        ReplayAccrues(repo, x, front, cs);
      } else {
        var cs0, c := cs[..|cs| - 1], cs[|cs| - 1];
        SplitLast(cs);
        AllAddSplit(Shows(repo, x), cs0, c);
        ReplayAccrues(repo, x, front, cs0);
        ReplayStepAccrues(repo, x, front, cs0, last, c);
      }
    }
  }

  lemma FreshAccrued(repo: Repo, root: Oid)
    ensures AccruedStores(repo, FreshStores(root))
  {
    FreshShows(repo, root);
  }
}
