/** What a step that strays can lead to: a tip whose parents do not reach a commit that the
    branch has named (the other half of `PublishingHistory.TipReachesAll`). */
module PublishingStrays {
  import opened Basics
  import opened Wal
  import opened Publishing
  import opened PublishingProofs
  import opened PublishingRuns
  import opened PublishingTip
  import opened PublishingParents
  import opened PublishingHistory

  // ---- a commit beside the branch

  function Depth(c: Commit): nat {
    match c case Initial => 0 case Commit(_, parent, _, _) => 1 + Depth(parent)
  }

  lemma {:induction false} ReachedDepth(tip: Commit, c: Commit)
    requires Reaches(tip, c)
    ensures Depth(c) <= Depth(tip)
    decreases tip
  {
    if c != tip { ReachedDepth(tip.parent, c); }
  }

  /** A commit whose parent lies below `b` does not reach `b`. */
  lemma Beside(b: Commit, c: Commit)
    requires c.Commit? && c != b && c.parent != b && Reaches(b, c.parent)
    ensures !Reaches(c, b)
  {
    ReachedDepth(b.parent, c.parent);
    if Reaches(c.parent, b) { ReachedDepth(c.parent, b); }
  }

  /** Logs, published commits and branch as far as headers go. */
  lemma LineSame(s: Store, t: Store)
    requires LineRight(s) && SameBases(s.logs, t.logs) && t.branch == s.branch && t.published == s.published
    ensures LineRight(t)
  {
    HeadersSame(s.logs, t.logs);
  }

  /** The parent that reading comes to has been named by the branch. */
  lemma ParentPublished(st: Store, ns: seq<nat>, start: Commit)
    requires LineRight(st) && start in st.published
    ensures LastBase(st.logs, ns, start) in st.published
  {
    LastBaseNames(st.logs, ns, start);
  }

  /** A commit with another parent than the branch leaves the branch's commit out. */
  lemma CommitDrops(changes: Changes, steps: seq<Step>, s: State, v: Server, pending: seq<nat>, above: Commit,
                    replayed: Replayed)
    returns (more: seq<Step>)
    requires Leads(changes, steps, s) && LineRight(s.store) && Is(s, v, Building(pending, above, replayed))
    requires changes(v.root, replayed) && above in s.store.published && above != s.store.branch
    ensures steps <= more && !AllReached(Run(changes, FRESH, more).store)
  {
    var t: State;
    var c := Commit(v.root, above, replayed, |s.store.published|);
    more, t := Then(changes, steps, s, Go);
    more, t := Publish(changes, more, t, v, pending, c);
    assert c != s.store.branch;
    Beside(s.store.branch, c);
    assert s.store.branch in t.store.published;
  }

  // ---- logs that weigh

  /** If need be an append arrives, and an entry leaves something to commit. */
  lemma Weighed(changes: Changes, leaving: Leaving, steps: seq<Step>, s: State, ns: seq<nat>)
    returns (more: seq<Step>, t: State, n: nat, e: Payload)
    requires Leads(changes, steps, s) && leaving(SOME_ENTRY) && AnyWeighs(leaving, s.store.logs, ns)
    ensures steps <= more && Leads(changes, more, t) && t.server == s.server
    ensures t.store == s.store.(logs := t.store.logs) && SameBases(s.store.logs, t.store.logs)
    ensures n in ns && n in t.store.logs && e in t.store.logs[n].entries && leaving(e)
  {
    n :| n in ns && n in s.store.logs && Weighs(leaving, s.store.logs[n]);
    more, t := steps, s;
    if !s.store.logs[n].sealed {
      e := SOME_ENTRY;
      more, t := Then(changes, steps, s, Append(n, e));
      assert t.store.logs[n].entries == s.store.logs[n].entries + [e];
    } else {
      e :| e in s.store.logs[n].entries && leaving(e);
    }
  }

  lemma ReadsLeave(changes: Changes, leaving: Leaving, root: Commit, logs: map<nat, Log>, pending: seq<nat>, n: nat,
                   e: Payload)
    requires ByEntry(changes, leaving) && forall m | m in pending :: m in logs
    requires n in pending && e in logs[n].entries && leaving(e)
    ensures changes(root, Reads(logs, pending))
  {
    var i :| 0 <= i < |pending| && pending[i] == n;
    var p := Reads(logs, pending)[i];
    assert p in Reads(logs, pending) && e in p.1;
  }

  /** What was found to be pending is committed beside the branch. */
  lemma FoundDrops(changes: Changes, leaving: Leaving, steps: seq<Step>, st: Store, s: State, v: Server,
                   pending: seq<nat>, above: Commit, n: nat, e: Payload)
    returns (more: seq<Step>)
    requires Leads(changes, steps, s) && ByEntry(changes, leaving) && LineRight(s.store)
    requires FoundPending(st, s, v, pending, above)
    requires n in pending && e in st.logs[n].entries && leaving(e)
    requires above in s.store.published && above != s.store.branch
    ensures steps <= more && !AllReached(Run(changes, FRESH, more).store)
  {
    ReadsLeave(changes, leaving, v.root, st.logs, pending, n, e);
    more := CommitDrops(changes, steps, s, v, pending, above, Reads(st.logs, pending));
  }

  // ---- a server that ends

  /** The next server looks for logs. */
  lemma Restarted(changes: Changes, steps: seq<Step>, s: State) returns (more: seq<Step>, t: State, v: Server)
    requires Leads(changes, steps, s) && s.server.None?
    ensures steps <= more && Leads(changes, more, t) && t.store == s.store && Is(t, v, Listing)
    ensures v.root == s.store.branch && v.base == s.store.branch
  {
    more, t := Then(changes, steps, s, Start);
    more, t := Then(changes, more, t, Go);
    v := t.server.value;
  }

  lemma EndLoses(changes: Changes, leaving: Leaving, steps: seq<Step>, s: State) returns (more: seq<Step>)
    requires Leads(changes, steps, s) && ByEntry(changes, leaving) && LineRight(s.store) && s.server.None?
    requires Strands(leaving, s.store, PendingIn(s.store), s.store.branch)
    ensures steps <= more && !AllReached(Run(changes, FRESH, more).store)
  {
    var left := PendingIn(s.store);
    var t: State, v: Server, n: nat, e: Payload, above: Commit;
    more, t, n, e := Weighed(changes, leaving, steps, s, left);
    LastBaseSame(s.store.logs, t.store.logs, left, s.store.branch);
    LineSame(s.store, t.store);
    ParentPublished(t.store, left, t.store.branch);
    assert LogNumbers(t.store.logs) == LogNumbers(s.store.logs);
    more, t, v := Restarted(changes, more, t);
    var st := t.store;
    more, t, above := FromListing(changes, more, t, v);
    LineSame(st, t.store);
    more := FoundDrops(changes, leaving, more, st, t, v, left, above, n, e);
  }

  // ---- a marker that is missed

  lemma MissLoses(changes: Changes, leaving: Leaving, steps: seq<Step>, s: State, v: Server, logs: seq<nat>, k: nat,
                  found: seq<nat>)
    returns (more: seq<Step>)
    requires Leads(changes, steps, s) && ByEntry(changes, leaving) && LineRight(s.store)
    requires Is(s, v, Checking(logs, k, found)) && k < |logs| && v.base in s.store.published
    requires (forall n | n in found :: n in s.store.logs) && forall n | n in logs :: n in s.store.logs
    requires Strands(leaving, s.store, FoundMissing(s.store, logs, k, found), v.base)
    ensures steps + [Miss] <= more && !AllReached(Run(changes, FRESH, more).store)
  {
    var pending := FoundMissing(s.store, logs, k, found);
    var t: State, n: nat, e: Payload, above: Commit;
    more, t := Then(changes, steps, s, Miss);
    assert Is(t, v, Checking(logs, k + 1, found + [logs[k]]));
    more, t, n, e := Weighed(changes, leaving, more, t, pending);
    LastBaseSame(s.store.logs, t.store.logs, pending, v.base);
    LineSame(s.store, t.store);
    ParentPublished(t.store, pending, v.base);
    more, t, above := FromChecking(changes, more, t, v, logs, k + 1, found + [logs[k]]);
    more := FoundDrops(changes, leaving, more, t.store, t, v, pending, above, n, e);
  }

  // ---- a server that goes on

  /** The branch has left the server's base, and no header names its commit. */
  ghost predicate Behind(st: Store, v: Server) {
    && LineRight(st) && v.base in st.published && v.base != st.branch
    && forall n :: !HeaderNames(st.logs, n, st.branch)
  }

  lemma BehindSame(s: Store, t: Store, v: Server, w: Server)
    requires Behind(s, v) && SameLogs(s, t) && w.base == v.base
    ensures Behind(t, w)
  {
    LineSame(s, t);
    HeadersSame(s.logs, t.logs);
  }

  lemma BehindParent(st: Store, v: Server, ns: seq<nat>)
    requires Behind(st, v)
    ensures LastBase(st.logs, ns, v.base) in st.published && LastBase(st.logs, ns, v.base) != st.branch
  {
    LastBaseNames(st.logs, ns, v.base);
  }

  /** It opens its next log over the old base, writes, and commits. */
  lemma OpeningDrops(changes: Changes, leaving: Leaving, steps: seq<Step>, s: State, v: Server)
    returns (more: seq<Step>)
    requires Leads(changes, steps, s) && ByEntry(changes, leaving) && Is(s, v, Opening) && Behind(s.store, v)
    ensures steps <= more && !AllReached(Run(changes, FRESH, more).store)
  {
    var t: State, w: Server, pending: seq<nat>, above: Commit;
    more, t := OpenAndWrite(changes, steps, s, v);
    forall n, b | HeaderNames(t.store.logs, n, b) ensures b in t.store.published && b != t.store.branch {
      assert HeaderNames(s.store.logs, n, b) || b == v.base;
    }
    var st := t.store;
    more, t, w, pending, above := Asked(changes, more, t, v.(writer := true));
    BehindSame(st, t.store, v, w);
    BehindParent(t.store, w, pending);
    assert v.active in pending;
    more := FoundDrops(changes, leaving, more, t.store, t, w, pending, above, v.active, SOME_ENTRY);
  }

  /** What is pending leaves nothing to commit, and the next log is opened. */
  lemma NothingDrops(changes: Changes, leaving: Leaving, steps: seq<Step>, s: State, v: Server, pending: seq<nat>,
                     above: Commit, replayed: Replayed)
    returns (more: seq<Step>)
    requires Leads(changes, steps, s) && ByEntry(changes, leaving) && Is(s, v, Building(pending, above, replayed))
    requires v.mode == Committing(false) && Behind(s.store, v) && !changes(v.root, replayed)
    ensures steps <= more && !AllReached(Run(changes, FRESH, more).store)
  {
    var t: State, mark: Mark;
    more, t, mark := FromBuilding(changes, steps, s, v, pending, above, replayed);
    more, t := Then(changes, more, t, Go);
    LineSame(s.store, t.store);
    more := OpeningDrops(changes, leaving, more, t, t.server.value);
  }

  lemma RunningDrops(changes: Changes, leaving: Leaving, steps: seq<Step>, s: State, v: Server)
    returns (more: seq<Step>)
    requires Leads(changes, steps, s) && ByEntry(changes, leaving) && Is(s, v, Running) && Behind(s.store, v)
    ensures steps <= more && !AllReached(Run(changes, FRESH, more).store)
  {
    var t: State, w: Server, pending: seq<nat>, above: Commit;
    more, t, w, pending, above := Asked(changes, steps, s, v);
    BehindSame(s.store, t.store, v, w);
    BehindParent(t.store, w, pending);
    if pending == [] {
      more := OpeningDrops(changes, leaving, more, t, t.server.value);
    } else if changes(w.root, Reads(t.store.logs, pending)) {
      more := CommitDrops(changes, more, t, w, pending, above, Reads(t.store.logs, pending));
    } else {
      more := NothingDrops(changes, leaving, more, t, w, pending, above, Reads(t.store.logs, pending));
    }
  }

  // ---- the exact condition

  lemma FailLoses(changes: Changes, leaving: Leaving, steps: seq<Step>, s: State, v: Server) returns (more: seq<Step>)
    requires Leads(changes, steps, s) && ByEntry(changes, leaving) && Sound(leaving, s) && s.server == Some(v)
    requires BuildRight(s.store, v) && Strays(leaving, s, Fail)
    ensures steps + [Fail] <= more && !AllReached(Run(changes, FRESH, more).store)
  {
    var t: State;
    more, t := Then(changes, steps, s, Fail);
    if Failed(v).None? {
      more := EndLoses(changes, leaving, more, t);
    } else {
      more := RunningDrops(changes, leaving, more, t, t.server.value);
    }
  }

  /** The exact condition: the first step that strays can lead to a tip whose parents do not reach
      a commit that the branch has named. */
  lemma StrayLoses(changes: Changes, leaving: Leaving, steps: seq<Step>, step: Step) returns (more: seq<Step>)
    requires ByEntry(changes, leaving) && NeverStrays(changes, leaving, steps)
    requires Strays(leaving, Run(changes, FRESH, steps), step)
    ensures steps + [step] <= more && !AllReached(Run(changes, FRESH, more).store)
  {
    var s := Run(changes, FRESH, steps);
    var v := s.server.value;
    SoundRun(changes, leaving, steps);
    RunKeeps(changes, false, steps);
    BuildKept(changes, steps);
    assert Leads(changes, steps, s);
    match step
    case Crash =>
      var t: State;
      more, t := Then(changes, steps, s, Crash);
      more := EndLoses(changes, leaving, more, t);
    case Fail => more := FailLoses(changes, leaving, steps, s, v);
    case Miss =>
      more := MissLoses(changes, leaving, steps, s, v, v.phase.logs, v.phase.k, v.phase.pending);
  }

  // ---- a crash that loses a commit

  /** One log over the first commit, one commit from it, and no marker. */
  ghost predicate OnceMoved(st: Store, c: Commit) {
    && c.Commit? && c.parent == Initial && c.time < 2
    && st.branch == c && st.published == {Initial, c} && st.done == map[]
    && st.logs.Keys == {0} && st.logs[0].base == Some(Initial) && st.logs[0].entries == [SOME_ENTRY]
  }

  /** The first session has written and commits: the branch names what it made, and no marker is
      written. */
  lemma FirstMoved() returns (steps: seq<Step>, s: State, c: Commit)
    ensures Leads(AnyEntry, steps, s) && OnceMoved(s.store, c)
  {
    var w: Server, pending: seq<nat>, above: Commit;
    steps, s := FirstOpened(AnyEntry);
    var v := s.server.value;
    steps, s := Then(AnyEntry, steps, s, Append(0, SOME_ENTRY));
    assert s.store.logs[0].entries == [SOME_ENTRY];
    steps, s, w, pending, above := Asked(AnyEntry, steps, s, v);
    LastBaseNames(s.store.logs, pending, Initial);
    assert 0 in pending;
    EntryChanges(AnyEntry, w.root, s.store, pending, 0);
    c := Commit(w.root, above, Reads(s.store.logs, pending), |s.store.published|);
    steps, s := Then(AnyEntry, steps, s, Go);
    steps, s := Publish(AnyEntry, steps, s, w, pending, c);
  }

  predicate AnyPayload(e: Payload) { true }

  lemma AnyByEntry()
    ensures ByEntry(AnyEntry, AnyPayload)
  {
    forall root, replayed: Replayed
      ensures AnyEntry(root, replayed) <==> exists p, e | p in replayed && e in p.1 :: AnyPayload(e)
    {
      if p :| p in replayed && p.1 != [] { assert p.1[0] in p.1 && AnyPayload(p.1[0]); }
    }
  }

  lemma MovedLine(st: Store, c: Commit)
    requires OnceMoved(st, c)
    ensures LineRight(st)
  {
    assert Reaches(c, c.parent);
  }

  lemma MovedStrands(st: Store, c: Commit)
    requires OnceMoved(st, c)
    ensures Strands(AnyPayload, st, PendingIn(st), st.branch)
  {
    var left := PendingIn(st);
    LastBaseNames(st.logs, left, c);
    assert 0 in left;
    var i :| 0 <= i < |left| && left[i] == 0;
    assert HeaderNames(st.logs, left[i], Initial);
    assert AnyPayload(SOME_ENTRY) && SOME_ENTRY in st.logs[0].entries;
    assert Weighs(AnyPayload, st.logs[0]);
  }

  /** A crash between the branch and the first marker is enough: the next server replays the same
      log, whose header names the commit before. */
  lemma CrashDrops() returns (steps: seq<Step>)
    ensures !AllReached(Run(AnyEntry, FRESH, steps).store)
  {
    var s: State, c: Commit;
    steps, s, c := FirstMoved();
    steps, s := Then(AnyEntry, steps, s, Crash);
    AnyByEntry();
    MovedLine(s.store, c);
    MovedStrands(s.store, c);
    steps := EndLoses(AnyEntry, AnyPayload, steps, s);
  }
}
