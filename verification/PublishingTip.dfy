/** Whether the branch's tip still holds what the done markers say was committed: in every run,
    but for one failure in one place. A server that goes on after a failure between its first
    done marker and the end of recovery works on over the tree from before its commit. */
module PublishingTip {
  import opened Basics
  import opened Wal
  import opened Publishing
  import opened PublishingProofs
  import opened PublishingRuns

  /** `c` is `tip` or lies under it: `tip` was built over a tree that holds what `c` made. */
  ghost predicate Under(tip: Commit, c: Commit)
    decreases tip
  {
    c == tip || (tip.Commit? && Under(tip.over, c))
  }

  ghost predicate MarksUnder(st: Store) {
    forall n | n in st.done && st.done[n].Made? :: Under(st.branch, st.done[n].commit)
  }

  /** A committing server goes on after a failure while it writes markers, the first being down.
      One that starts or shuts down ends instead. */
  predicate Lapses(s: State, step: Step) {
    step.Fail? && s.server.Some? && s.server.value.mode == Committing(false)
    && match s.server.value.phase
       case Marking(_, Made(_), k) => k > 0
       case _ => false
  }

  ghost predicate NeverLapses(changes: Changes, steps: seq<Step>)
    decreases |steps|
  {
    steps != [] ==>
      var front := steps[..|steps| - 1];
      NeverLapses(changes, front) && !Lapses(Run(changes, FRESH, front), steps[|steps| - 1])
  }

  // ---- what a commit is made from

  ghost predicate Names(replayed: Replayed, pending: seq<nat>) {
    |replayed| == |pending| && forall i | 0 <= i < |pending| :: replayed[i].0 == pending[i]
  }

  /** The commit is built over the server's root, from the pending logs. */
  ghost predicate BuiltFrom(v: Server, pending: seq<nat>, c: Commit) {
    c.Commit? && c.over == v.root && Names(c.replayed, pending)
  }

  ghost predicate Marked(st: Store, pending: seq<nat>, mark: Mark, k: nat) {
    k <= |pending| && forall i | 0 <= i < k :: pending[i] in st.done && st.done[pending[i]] == mark
  }

  ghost predicate BuildRight(st: Store, v: Server) {
    match v.phase
    case Starting => v.mode.Booting?
    case Reading(pending, _, replayed) => |replayed| <= |pending| && Names(replayed, pending[..|replayed|])
    case Building(pending, _, replayed) => Names(replayed, pending)
    case PutPack(pending, c) => BuiltFrom(v, pending, c)
    case PutIdx(pending, c) => BuiltFrom(v, pending, c)
    case PutHead(pending, c) => BuiltFrom(v, pending, c)
    case PutRef(pending, c) => BuiltFrom(v, pending, c)
    case PutInfo(pending, c) => BuiltFrom(v, pending, c) && c == st.branch
    case Marking(pending, mark, k) =>
      Marked(st, pending, mark, k) && (mark.Made? ==> BuiltFrom(v, pending, mark.commit) && mark.commit == st.branch)
    case _ => true
  }

  lemma ReadingBuild(changes: Changes, st: Store, v: Server)
    requires v.phase.Reading? && BuildRight(st, v)
    ensures var t := Advance(changes, st, v); t.server.Some? ==> BuildRight(t.store, t.server.value)
  {
    var pending, replayed := v.phase.pending, v.phase.replayed;
    if |replayed| < |pending| && pending[|replayed|] in st.logs {
      var n := pending[|replayed|];
      assert Names(replayed + [(n, st.logs[n].entries)], pending[..|replayed| + 1]);
    } else {
      assert pending[..|pending|] == pending;
    }
  }

  lemma MarkingBuild(changes: Changes, st: Store, v: Server)
    requires v.phase.Marking? && BuildRight(st, v)
    ensures var t := Advance(changes, st, v); t.server.Some? ==> BuildRight(t.store, t.server.value)
  {
  }

  lemma AdvanceBuild(changes: Changes, st: Store, v: Server)
    requires BuildRight(st, v)
    ensures var t := Advance(changes, st, v); t.server.Some? ==> BuildRight(t.store, t.server.value)
  {
    if v.phase.Reading? { ReadingBuild(changes, st, v); }
    else if v.phase.Marking? { MarkingBuild(changes, st, v); }
  }

  ghost predicate RunBuilds(s: State) {
    s.server.Some? ==> BuildRight(s.store, s.server.value)
  }

  lemma {:induction false} BuildKept(changes: Changes, steps: seq<Step>)
    ensures RunBuilds(Run(changes, FRESH, steps))
    decreases |steps|
  {
    if steps != [] {
      var s, step := Run(changes, FRESH, steps[..|steps| - 1]), steps[|steps| - 1];
      BuildKept(changes, steps[..|steps| - 1]);
      if step.Go? && s.server.Some? { AdvanceBuild(changes, s.store, s.server.value); }
    }
  }

  // ---- the tip holds what is done

  /** Marks say what the server's root holds, but for the commit that it is marking. */
  ghost predicate RootHolds(st: Store, v: Server) {
    v.phase.Starting? ||
    forall n | n in st.done && st.done[n].Made? ::
      Under(v.root, st.done[n].commit) || BeingMarked(v.phase, st.done[n].commit)
  }

  predicate BeingMarked(p: Phase, c: Commit) {
    match p
    case Marking(_, Made(made), k) => k > 0 && c == made
    case _ => false
  }

  ghost predicate TipRight(s: State) {
    MarksUnder(s.store) && (s.server.Some? ==> RootHolds(s.store, s.server.value))
  }

  lemma AdvanceTip(changes: Changes, st: Store, v: Server)
    requires TipRight(State(st, Some(v))) && BuildRight(st, v)
    ensures TipRight(Advance(changes, st, v))
  {
    if v.phase.Marking? && v.phase.k < |v.phase.pending| {
      MarkTip(changes, st, v);
    } else {
      var t := Advance(changes, st, v);
      forall n | n in t.store.done && t.store.done[n].Made? ensures Under(t.store.branch, st.done[n].commit) {
        assert t.store.done == st.done;
      }
    }
  }

  lemma MarkTip(changes: Changes, st: Store, v: Server)
    requires TipRight(State(st, Some(v))) && BuildRight(st, v) && v.phase.Marking? && v.phase.k < |v.phase.pending|
    ensures TipRight(Advance(changes, st, v))
  {
    var t, mark := Advance(changes, st, v), v.phase.mark;
    forall n | n in t.store.done && t.store.done[n].Made?
      ensures Under(t.store.branch, t.store.done[n].commit)
      ensures Under(v.root, t.store.done[n].commit) || BeingMarked(t.server.value.phase, t.store.done[n].commit)
    {
      assert t.store.done[n] == mark || (n in st.done && t.store.done[n] == st.done[n]);
    }
  }

  lemma StepTip(changes: Changes, s: State, step: Step)
    requires TipRight(s) && RunBuilds(s) && !Lapses(s, step)
    ensures TipRight(Next(changes, s, step))
  {
    if step.Go? && s.server.Some? { AdvanceTip(changes, s.store, s.server.value); }
  }

  /** If no server lapses, the tip holds every commit that a done marker names: with (a),
      everything that was read of every log marked done. */
  lemma {:induction false} TipHoldsDone(changes: Changes, steps: seq<Step>)
    requires NeverLapses(changes, steps)
    ensures TipRight(Run(changes, FRESH, steps))
    decreases |steps|
  {
    if steps != [] {
      TipHoldsDone(changes, steps[..|steps| - 1]);
      BuildKept(changes, steps[..|steps| - 1]);
      StepTip(changes, Run(changes, FRESH, steps[..|steps| - 1]), steps[|steps| - 1]);
    }
  }

  // ---- and after a lapse it can stop to

  /** Making a directory: its replay records the path. */
  const SOME_ENTRY := MkdirEntry([97])

  /** A log with that entry leaves something to commit. */
  ghost predicate Keen(changes: Changes) {
    forall root, replayed: Replayed :: (exists p :: p in replayed && SOME_ENTRY in p.1) ==> changes(root, replayed)
  }

  function Height(c: Commit): nat {
    match c case Initial => 0 case Commit(over, _, _, _) => 1 + Height(over)
  }

  lemma {:induction false} UnderHeight(tip: Commit, c: Commit)
    requires Under(tip, c)
    ensures Height(c) <= Height(tip)
    decreases tip
  {
    if c != tip { UnderHeight(tip.over, c); }
  }

  /** Two commits over the same tree, from logs that differ in the first: neither holds the
      other. */
  lemma SideBySide(a: Commit, b: Commit)
    requires a.Commit? && b.Commit? && a.over == b.over
    requires a.replayed != [] && b.replayed != [] && a.replayed[0].0 != b.replayed[0].0
    ensures !Under(a, b)
  {
    if Under(a.over, b) { UnderHeight(a.over, b); }
  }

  /** Log `n` is marked with `c`, whose first log it is, and `root` is what `c` was built over. */
  ghost predicate Lost(st: Store, root: Commit, n: nat, c: Commit) {
    && n in st.done && n in st.logs && st.done[n] == Made(c)
    && c.Commit? && c.over == root && c.replayed != [] && c.replayed[0].0 == n
  }

  /** A commit from what is pending, over the root from before `c`, leaves `c` out. */
  lemma CommitLoses(changes: Changes, steps: seq<Step>, s: State, v: Server, pending: seq<nat>, above: Commit, n: nat,
                    c: Commit)
    returns (more: seq<Step>)
    requires Leads(changes, steps, s) && Lost(s.store, v.root, n, c)
    requires pending != [] && (forall m | m in pending :: m in s.store.logs && m !in s.store.done)
    requires Is(s, v, Building(pending, above, Reads(s.store.logs, pending)))
    requires changes(v.root, Reads(s.store.logs, pending))
    ensures steps <= more && !MarksUnder(Run(changes, FRESH, more).store)
  {
    var t: State;
    var replayed := Reads(s.store.logs, pending);
    more, t := Then(changes, steps, s, Go);
    more, t := Publish(changes, more, t, v, pending, Commit(v.root, above, replayed, |s.store.published|));
    assert replayed[0].0 == pending[0] != n;
    SideBySide(t.store.branch, c);
  }

  /** `pending` are the logs without a marker. */
  ghost predicate Waiting(st: Store, pending: seq<nat>) {
    forall n :: n in pending <==> n in st.logs && n !in st.done
  }

  lemma FoundSame(s: Store, t: State, v: Server, pending: seq<nat>, above: Commit)
    requires FoundPending(s, t, v, pending, above) && SameLogs(s, t.store)
    ensures FoundPending(t.store, t, v, pending, above)
  {
    SameReads(s.logs, t.store.logs, pending, v.base);
  }

  /** A running server begins a commit: its log is sealed. */
  lemma Began(changes: Changes, steps: seq<Step>, s: State, v: Server)
    returns (more: seq<Step>, t: State, w: Server)
    requires Leads(changes, steps, s) && Is(s, v, Running)
    ensures steps <= more && Leads(changes, more, t) && SameLogs(s.store, t.store) && Is(t, w, Listing)
    ensures w == v.(mode := Committing(false), writer := false)
  {
    more, t := Then(changes, steps, s, Ask(false));
    more, t := Then(changes, more, t, Go);
    w := v.(mode := Committing(false), writer := false);
  }

  lemma SameTwice(a: Store, b: Store, c: Store)
    requires SameLogs(a, b) && SameLogs(b, c)
    ensures SameLogs(a, c)
  {
  }

  /** It finds nothing pending, or reads what is. */
  lemma Asked(changes: Changes, steps: seq<Step>, s: State, v: Server)
    returns (more: seq<Step>, t: State, w: Server, pending: seq<nat>, above: Commit)
    requires Leads(changes, steps, s) && Is(s, v, Running)
    ensures steps <= more && Leads(changes, more, t) && SameLogs(s.store, t.store) && Waiting(t.store, pending)
    ensures w == v.(mode := Committing(false), writer := false)
    ensures FoundPending(t.store, t, w, pending, above)
  {
    more, t, w := Began(changes, steps, s, v);
    var st := t.store;
    pending := PendingIn(st);
    more, t, above := FromListing(changes, more, t, w);
    FoundSame(st, t, w, pending, above);
    SameTwice(s.store, st, t.store);
  }

  /** A pending log with the entry leaves something to commit. */
  lemma EntryChanges(changes: Changes, root: Commit, st: Store, pending: seq<nat>, a: nat)
    requires Keen(changes) && Waiting(st, pending) && a in pending && SOME_ENTRY in st.logs[a].entries
    ensures changes(root, Reads(st.logs, pending))
  {
    var i :| 0 <= i < |pending| && pending[i] == a;
    var p := Reads(st.logs, pending)[i];
    assert p in Reads(st.logs, pending) && SOME_ENTRY in p.1;
  }

  lemma DoneExist(changes: Changes, st: Store)
    requires MarksRight(changes, false, st)
    ensures forall n | n in st.done :: n in st.logs
  {
    forall n | n in st.done ensures n in st.logs { assert MarkRight(changes, false, st, n, st.done[n]); }
  }

  /** A server opens its next log and writes to it. */
  lemma OpenAndWrite(changes: Changes, steps: seq<Step>, s: State, v: Server) returns (more: seq<Step>, t: State)
    requires Leads(changes, steps, s) && Is(s, v, Opening)
    ensures steps <= more && Leads(changes, more, t) && Is(t, v.(writer := true), Running)
    ensures v.active !in s.store.logs && v.active !in s.store.done
    ensures t.store == s.store.(logs := s.store.logs[v.active := Log(Some(v.base), [SOME_ENTRY], false)])
  {
    RunKeeps(changes, false, steps);
    var a := v.active;
    DoneExist(changes, s.store);
    more, t := Then(changes, steps, s, Go);
    more, t := Then(changes, more, t, Go);
    more, t := Then(changes, more, t, Append(a, SOME_ENTRY));
    assert t.store.logs[a].entries == [SOME_ENTRY];
  }

  /** Then it commits over the old root. */
  lemma OpeningLoses(changes: Changes, steps: seq<Step>, s: State, v: Server, n: nat, c: Commit)
    returns (more: seq<Step>)
    requires Keen(changes) && Leads(changes, steps, s) && Is(s, v, Opening) && Lost(s.store, v.root, n, c)
    ensures steps <= more && !MarksUnder(Run(changes, FRESH, more).store)
  {
    var t: State, w: Server, pending: seq<nat>, above: Commit;
    more, t := OpenAndWrite(changes, steps, s, v);
    more, t, w, pending, above := Asked(changes, more, t, v.(writer := true));
    assert v.active in pending;
    EntryChanges(changes, w.root, t.store, pending, v.active);
    more := CommitLoses(changes, more, t, w, pending, above, n, c);
  }

  /** A running server over the old root. */
  lemma RunningLoses(changes: Changes, steps: seq<Step>, s: State, v: Server, n: nat, c: Commit)
    returns (more: seq<Step>)
    requires Keen(changes) && Leads(changes, steps, s) && Is(s, v, Running) && Lost(s.store, v.root, n, c)
    ensures steps <= more && !MarksUnder(Run(changes, FRESH, more).store)
  {
    var t: State, w: Server, pending: seq<nat>, above: Commit;
    more, t, w, pending, above := Asked(changes, steps, s, v);
    if pending == [] {
      more := OpeningLoses(changes, more, t, t.server.value, n, c);
    } else if changes(w.root, Reads(t.store.logs, pending)) {
      more := CommitLoses(changes, more, t, w, pending, above, n, c);
    } else {
      more := NothingLoses(changes, more, t, w, pending, above, Reads(t.store.logs, pending), n, c);
    }
  }

  /** What is pending leaves nothing to commit, and the next log is opened. */
  lemma NothingLoses(changes: Changes, steps: seq<Step>, s: State, v: Server, pending: seq<nat>, above: Commit,
                     replayed: Replayed, n: nat, c: Commit)
    returns (more: seq<Step>)
    requires Keen(changes) && Leads(changes, steps, s) && Is(s, v, Building(pending, above, replayed))
    requires v.mode == Committing(false)
    requires Lost(s.store, v.root, n, c) && n !in pending && !changes(v.root, replayed)
    ensures steps <= more && !MarksUnder(Run(changes, FRESH, more).store)
  {
    var t: State, mark: Mark;
    more, t, mark := FromBuilding(changes, steps, s, v, pending, above, replayed);
    more, t := Then(changes, more, t, Go);
    more := OpeningLoses(changes, more, t, t.server.value, n, c);
  }

  /** The exact condition: after any run, a lapse can lead to a tip without a commit that a done
      marker names. */
  lemma LapseLoses(changes: Changes, steps: seq<Step>) returns (more: seq<Step>)
    requires Keen(changes) && Lapses(Run(changes, FRESH, steps), Fail)
    ensures steps + [Fail] <= more && !MarksUnder(Run(changes, FRESH, more).store)
  {
    var s := Run(changes, FRESH, steps);
    var v := s.server.value;
    RunKeeps(changes, false, steps);
    BuildKept(changes, steps);
    var n, c := v.phase.pending[0], v.phase.mark.commit;
    assert n in s.store.done && s.store.done[n] == Made(c) && MarkRight(changes, false, s.store, n, s.store.done[n]);
    var t: State;
    more, t := Then(changes, steps, s, Fail);
    more := RunningLoses(changes, more, t, t.server.value, n, c);
  }

  /** Any entry leaves something to commit. */
  predicate AnyEntry(root: Commit, replayed: Replayed) {
    exists p | p in replayed :: p.1 != []
  }

  /** The commit is published, and the first marker written. */
  lemma FirstLapse(before: seq<Step>, at: State, v: Server, pending: seq<nat>, above: Commit, replayed: Replayed)
    returns (steps: seq<Step>)
    requires Leads(AnyEntry, before, at) && Is(at, v, Building(pending, above, replayed)) && pending != []
    requires AnyEntry(v.root, replayed) && v.mode == Committing(false)
    ensures Lapses(Run(AnyEntry, FRESH, steps), Fail)
  {
    var s: State;
    steps, s := Then(AnyEntry, before, at, Go);
    steps, s := Publish(AnyEntry, steps, s, v, pending, Commit(v.root, above, replayed, |s.store.published|));
    steps, s := Then(AnyEntry, steps, s, Go);
  }

  /** There is such a run: the first session writes, commits, and lapses. */
  lemma TipCanLose() returns (steps: seq<Step>)
    ensures !MarksUnder(Run(AnyEntry, FRESH, steps).store)
  {
    var s: State, w: Server, pending: seq<nat>, above: Commit;
    steps, s := FirstOpened(AnyEntry);
    var v := s.server.value;
    steps, s := Then(AnyEntry, steps, s, Append(0, SOME_ENTRY));
    assert s.store.logs[0].entries == [SOME_ENTRY];
    steps, s, w, pending, above := Asked(AnyEntry, steps, s, v);
    assert 0 in pending;
    EntryChanges(AnyEntry, w.root, s.store, pending, 0);
    steps := FirstLapse(steps, s, w, pending, above, Reads(s.store.logs, pending));
    steps := LapseLoses(AnyEntry, steps);
  }
}
