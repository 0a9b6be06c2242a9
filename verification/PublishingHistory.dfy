/** Whether the parents of the branch's tip reach every commit that the branch has named: in
    every run in which nothing strays. A step strays when it leaves logs to be read whose last
    header names another commit than the branch, and which can leave something to commit. */
module PublishingHistory {
  import opened Basics
  import opened Wal
  import opened Publishing
  import opened PublishingProofs
  import opened PublishingRuns
  import opened PublishingTip
  import opened PublishingParents

  /** Following parents from `tip` leads to `c`. */
  ghost predicate Reaches(tip: Commit, c: Commit)
    decreases tip
  {
    c == tip || (tip.Commit? && Reaches(tip.parent, c))
  }

  ghost predicate AllReached(st: Store) {
    forall c | c in st.published :: Reaches(st.branch, c)
  }

  /** Which entries, when replayed, leave something to commit (`Modifications.ReplayModifies`). */
  type Leaving = Payload -> bool

  ghost predicate ByEntry(changes: Changes, leaving: Leaving) {
    && leaving(SOME_ENTRY)
    && forall root, replayed: Replayed ::
         changes(root, replayed) <==> exists p, e | p in replayed && e in p.1 :: leaving(e)
  }

  /** Reading the log can leave something to commit, now or once an append arrives. */
  ghost predicate Weighs(leaving: Leaving, log: Log) {
    !log.sealed || exists e | e in log.entries :: leaving(e)
  }

  ghost predicate AnyWeighs(leaving: Leaving, logs: map<nat, Log>, ns: seq<nat>) {
    exists n | n in ns && n in logs :: Weighs(leaving, logs[n])
  }

  /** What is to be read names another parent than the branch, and may be committed. */
  ghost predicate Strands(leaving: Leaving, st: Store, ns: seq<nat>, base: Commit) {
    LastBase(st.logs, ns, base) != st.branch && AnyWeighs(leaving, st.logs, ns)
  }

  /** The step strays: the server ends and leaves such logs, or goes on after a failure with a
      base that the branch has left, or reads such logs as a marker is missed. */
  ghost predicate Strays(leaving: Leaving, s: State, step: Step) {
    s.server.Some? &&
    var v := s.server.value;
    match step
    case Crash => Strands(leaving, s.store, PendingIn(s.store), s.store.branch)
    case Fail =>
      if Failed(v).None? then Strands(leaving, s.store, PendingIn(s.store), s.store.branch) else Window(v.phase)
    case Miss =>
      (match v.phase
       case Checking(logs, k, pending) =>
         k < |logs| && Strands(leaving, s.store, FoundMissing(s.store, logs, k, pending), v.base)
       case _ => false)
    case _ => false
  }

  /** What will be pending when only the marker of `logs[k]` is missed. */
  function FoundMissing(st: Store, logs: seq<nat>, k: nat, pending: seq<nat>): seq<nat>
    requires k < |logs|
  {
    pending + [logs[k]] + NotDone(st.done.Keys, logs[k + 1..])
  }

  ghost predicate NeverStrays(changes: Changes, leaving: Leaving, steps: seq<Step>)
    decreases |steps|
  {
    steps != [] ==>
      var front := steps[..|steps| - 1];
      NeverStrays(changes, leaving, front) && !Strays(leaving, Run(changes, FRESH, front), steps[|steps| - 1])
  }

  // ---- what every step keeps

  /** Headers name commits that the branch has named, each made at another time. */
  ghost predicate LineRight(st: Store) {
    && st.branch in st.published && AllReached(st)
    && (forall c | c in st.published && c.Commit? :: c.time < |st.published|)
    && (forall n, b | HeaderNames(st.logs, n, b) :: b in st.published)
  }

  ghost predicate Undone(st: Store, n: nat) {
    n in st.logs && n !in st.done
  }

  ghost predicate Covered(st: Store, ns: seq<nat>) {
    forall n | Undone(st, n) :: n in ns
  }

  /** The logs without a marker name the branch's commit, or cannot leave anything to commit. */
  ghost predicate Even(leaving: Leaving, st: Store) {
    || (forall n, b | Undone(st, n) && HeaderNames(st.logs, n, b) :: b == st.branch)
    || (forall n | Undone(st, n) :: !Weighs(leaving, st.logs[n]))
  }

  /** Recovery has what it needs for the right parent. */
  ghost predicate PendingRight(leaving: Leaving, st: Store, v: Server, pending: seq<nat>) {
    Even(leaving, st) && Covered(st, pending) && !Strands(leaving, st, pending, v.base)
  }

  ghost predicate NextRight(leaving: Leaving, st: Store, pending: seq<nat>, c: Commit) {
    && Even(leaving, st) && Covered(st, pending)
    && c.Commit? && c.parent == st.branch && c.over == st.branch && c.time == |st.published|
  }

  /** The branch has left the server's base, and no log names what it has come to. */
  ghost predicate Left(st: Store, v: Server, ns: seq<nat>) {
    && Covered(st, ns) && v.base != st.branch && v.base in st.published
    && forall n :: !HeaderNames(st.logs, n, st.branch)
  }

  ghost predicate PhaseSound(leaving: Leaving, st: Store, v: Server) {
    match v.phase
    case Starting => Even(leaving, st)
    case Sealing => Even(leaving, st)
    case Listing => Even(leaving, st)
    case Running => Even(leaving, st)
    case Locking(logs, _) => Even(leaving, st) && Covered(st, logs)
    case Checking(logs, k, pending) =>
      k <= |logs| && PendingRight(leaving, st, v, pending + NotDone(st.done.Keys, logs[k..]))
    case Reading(pending, _, _) => PendingRight(leaving, st, v, pending)
    case Building(pending, _, _) => PendingRight(leaving, st, v, pending)
    case PutPack(pending, c) => NextRight(leaving, st, pending, c)
    case PutIdx(pending, c) => NextRight(leaving, st, pending, c)
    case PutHead(pending, c) => NextRight(leaving, st, pending, c)
    case PutRef(pending, c) => NextRight(leaving, st, pending, c)
    case PutInfo(pending, c) => Left(st, v, pending) && c == st.branch
    case Marking(pending, Made(c), k) => k <= |pending| && Left(st, v, pending[k..]) && c == st.branch
    case Marking(pending, Nothing(_, _), k) => k <= |pending| && Even(leaving, st) && Covered(st, pending[k..])
    case Allocating => Covered(st, [])
    case Opening => Covered(st, [])
    case Heading => Even(leaving, st) && Covered(st, [v.active])
  }

  ghost predicate ServerSound(leaving: Leaving, st: Store, v: Server) {
    && PhaseSound(leaving, st, v) && v.root == v.base
    && (!v.phase.Starting? && !Window(v.phase) ==> v.base == st.branch)
  }

  ghost predicate Sound(leaving: Leaving, s: State) {
    && LineRight(s.store)
    && (s.server.None? ==> Even(leaving, s.store))
    && (s.server.Some? ==> ServerSound(leaving, s.store, s.server.value))
  }

  // ---- logs

  /** Nothing comes to weigh that did not. */
  ghost predicate NoHeavier(leaving: Leaving, s: Store, t: Store) {
    && SameBases(s.logs, t.logs) && t.branch == s.branch && t.done == s.done && t.published == s.published
    && forall n | n in t.logs && Weighs(leaving, t.logs[n]) :: Weighs(leaving, s.logs[n])
  }

  lemma HeadersSame(a: map<nat, Log>, b: map<nat, Log>)
    requires SameBases(a, b)
    ensures forall n, c :: HeaderNames(b, n, c) <==> HeaderNames(a, n, c)
  {
  }

  lemma EvenKept(leaving: Leaving, s: Store, t: Store)
    requires NoHeavier(leaving, s, t)
    ensures Even(leaving, s) ==> Even(leaving, t)
    ensures LineRight(s) ==> LineRight(t)
    ensures forall ns | Covered(s, ns) :: Covered(t, ns)
  {
    HeadersSame(s.logs, t.logs);
    if Even(leaving, s) {
      if forall n, b | Undone(s, n) && HeaderNames(s.logs, n, b) :: b == s.branch {
        forall n, b | Undone(t, n) && HeaderNames(t.logs, n, b) ensures b == t.branch {
          assert Undone(s, n) && HeaderNames(s.logs, n, b);
        }
      } else {
        forall n | Undone(t, n) ensures !Weighs(leaving, t.logs[n]) { assert Undone(s, n); }
      }
    }
    forall ns | Covered(s, ns) ensures Covered(t, ns) {
      forall n | Undone(t, n) ensures n in ns { assert Undone(s, n); }
    }
  }

  lemma StrandsKept(leaving: Leaving, s: Store, t: Store, ns: seq<nat>, base: Commit)
    requires NoHeavier(leaving, s, t)
    ensures Strands(leaving, t, ns, base) ==> Strands(leaving, s, ns, base)
  {
    LastBaseSame(s.logs, t.logs, ns, base);
    if AnyWeighs(leaving, t.logs, ns) {
      var n :| n in ns && n in t.logs && Weighs(leaving, t.logs[n]);
      assert n in s.logs && Weighs(leaving, s.logs[n]);
    }
  }

  lemma SoundKept(leaving: Leaving, s: Store, t: Store, v: Server)
    requires NoHeavier(leaving, s, t) && ServerSound(leaving, s, v)
    ensures ServerSound(leaving, t, v)
  {
    EvenKept(leaving, s, t);
    HeadersSame(s.logs, t.logs);
    match v.phase
    case Checking(logs, k, pending) =>
      StrandsKept(leaving, s, t, pending + NotDone(s.done.Keys, logs[k..]), v.base);
    case Reading(pending, _, _) => StrandsKept(leaving, s, t, pending, v.base);
    case Building(pending, _, _) => StrandsKept(leaving, s, t, pending, v.base);
    case _ =>
  }

  lemma AppendLight(leaving: Leaving, changes: Changes, s: State, n: nat, entry: Payload)
    ensures NoHeavier(leaving, s.store, Next(changes, s, Append(n, entry)).store)
  {
  }

  lemma SealLight(leaving: Leaving, st: Store, n: nat)
    ensures NoHeavier(leaving, st, st.(logs := Seal(st.logs, n)))
  {
    if n in st.logs {
      var log := st.logs[n].(sealed := true);
      if Weighs(leaving, log) { assert Weighs(leaving, st.logs[n]); }
    }
  }

  /** What has no marker does not strand a server that starts from the branch. */
  lemma EvenStrandsNone(leaving: Leaving, st: Store, ns: seq<nat>)
    requires Even(leaving, st) && forall n | n in ns :: n !in st.done
    ensures !Strands(leaving, st, ns, st.branch)
  {
    var parent := LastBase(st.logs, ns, st.branch);
    LastBaseNames(st.logs, ns, st.branch);
    if parent != st.branch {
      var i :| 0 <= i < |ns| && HeaderNames(st.logs, ns[i], parent);
      assert Undone(st, ns[i]);
      if AnyWeighs(leaving, st.logs, ns) {
        var n :| n in ns && n in st.logs && Weighs(leaving, st.logs[n]);
        assert Undone(st, n);
      }
    }
  }

  // ---- the server's steps

  /** Recovery ends with every log marked. */
  lemma EndSound(leaving: Leaving, st: Store, v: Server)
    requires LineRight(st) && Covered(st, [])
    ensures Sound(leaving, State(st, AfterRecovery(v, st.branch, st.branch)))
  {
    assert forall n :: !Undone(st, n);
  }

  lemma ListingSound(leaving: Leaving, changes: Changes, st: Store, v: Server)
    requires LineRight(st) && ServerSound(leaving, st, v) && v.phase.Listing?
    ensures Sound(leaving, Advance(changes, st, v))
  {
    var logs := LogNumbers(st.logs);
    assert Covered(st, logs);
    if logs == [] { EndSound(leaving, st, v); }
  }

  lemma LockingSound(leaving: Leaving, changes: Changes, st: Store, v: Server)
    requires LineRight(st) && ServerSound(leaving, st, v) && v.phase.Locking?
    ensures Sound(leaving, Advance(changes, st, v))
  {
    var logs, k := v.phase.logs, v.phase.k;
    if k < |logs| {
      SealLight(leaving, st, logs[k]);
      EvenKept(leaving, st, st.(logs := Seal(st.logs, logs[k])));
    } else {
      var found := NotDone(st.done.Keys, logs);
      assert logs[0..] == logs && [] + found == found;
      assert Covered(st, found);
      EvenStrandsNone(leaving, st, found);
    }
  }

  /** The logs that will be pending, from one step to the next. */
  lemma FoundNext(done: set<nat>, logs: seq<nat>, k: nat, pending: seq<nat>)
    requires k < |logs|
    ensures
      var next := if logs[k] in done then pending else pending + [logs[k]];
      next + NotDone(done, logs[k + 1..]) == pending + NotDone(done, logs[k..])
  {
    var found := if logs[k] in done then [] else [logs[k]];
    assert logs[k..][1..] == logs[k + 1..];
    Associate(pending, found, NotDone(done, logs[k + 1..]));
    assert pending + [] == pending;
  }

  lemma CheckingSound(leaving: Leaving, changes: Changes, st: Store, v: Server)
    requires LineRight(st) && ServerSound(leaving, st, v) && v.phase.Checking?
    ensures Sound(leaving, Advance(changes, st, v))
  {
    var logs, k, pending := v.phase.logs, v.phase.k, v.phase.pending;
    if k < |logs| {
      FoundNext(st.done.Keys, logs, k, pending);
    } else {
      assert logs[k..] == [] && pending + [] == pending;
      if pending == [] { EndSound(leaving, st, v); }
    }
  }

  /** A missed marker adds its log. */
  lemma MissSound(leaving: Leaving, st: Store, v: Server)
    requires LineRight(st) && ServerSound(leaving, st, v) && !Strays(leaving, State(st, Some(v)), Miss)
    ensures Sound(leaving, Missed(st, v))
  {
    if v.phase.Checking? && v.phase.k < |v.phase.logs| {
      var logs, k, pending := v.phase.logs, v.phase.k, v.phase.pending;
      var before := pending + NotDone(st.done.Keys, logs[k..]);
      assert logs[k..] == [logs[k]] + logs[k + 1..];
      forall n | Undone(st, n) ensures n in FoundMissing(st, logs, k, pending) { assert n in before; }
    }
  }

  /** Something is left to commit only over the branch, with its commit as parent. */
  lemma BuildingSound(leaving: Leaving, changes: Changes, st: Store, v: Server)
    requires LineRight(st) && ServerSound(leaving, st, v) && v.phase.Building?
    requires ByEntry(changes, leaving) && ParentRight(st, v) && BuildRight(st, v)
    requires AllRead(false, st, v.phase.pending, v.phase.replayed)
    ensures Sound(leaving, Advance(changes, st, v))
  {
    var pending, parent, replayed := v.phase.pending, v.phase.parent, v.phase.replayed;
    if changes(v.root, replayed) {
      var p, e :| p in replayed && e in p.1 && leaving(e);
      var i :| 0 <= i < |replayed| && replayed[i] == p;
      assert pending[i] in pending && ReadFor(false, st, p.0, replayed);
      assert (p.0, p.1) in replayed;
      assert p.1 <= st.logs[p.0].entries && e in st.logs[p.0].entries;
      assert Weighs(leaving, st.logs[p.0]);
      assert AnyWeighs(leaving, st.logs, pending);
    } else {
      assert pending[0..] == pending;
    }
  }

  /** The branch moves to a commit that names the one before. */
  lemma RefSound(leaving: Leaving, changes: Changes, st: Store, v: Server)
    requires LineRight(st) && ServerSound(leaving, st, v) && v.phase.PutRef?
    ensures Sound(leaving, Advance(changes, st, v))
  {
    var c := v.phase.commit;
    var t := Advance(changes, st, v).store;
    assert c !in st.published;
    assert |t.published| == |st.published| + 1;
    forall d | d in t.published ensures Reaches(t.branch, d) {
      if d != c { assert Reaches(st.branch, d); }
    }
    forall n ensures !HeaderNames(t.logs, n, c) { assert !HeaderNames(st.logs, n, c); }
    assert forall n | Undone(t, n) :: Undone(st, n);
  }

  lemma MarkingSound(leaving: Leaving, changes: Changes, st: Store, v: Server)
    requires LineRight(st) && ServerSound(leaving, st, v) && v.phase.Marking?
    ensures Sound(leaving, Advance(changes, st, v))
  {
    var pending, mark, k := v.phase.pending, v.phase.mark, v.phase.k;
    if k < |pending| {
      var t := st.(done := st.done[pending[k] := mark]);
      assert pending[k..] == [pending[k]] + pending[k + 1..];
      forall n | Undone(t, n) ensures Undone(st, n) && n != pending[k] {}
      assert Covered(t, pending[k + 1..]);
    } else {
      assert pending[k..] == [];
      EndSound(leaving, st, v);
    }
  }

  lemma HeadingSound(leaving: Leaving, changes: Changes, st: Store, v: Server)
    requires LineRight(st) && ServerSound(leaving, st, v)
    requires v.phase.Allocating? || v.phase.Opening? || v.phase.Heading?
    requires NumberRight(st, v)
    ensures Sound(leaving, Advance(changes, st, v))
  {
    var t := Advance(changes, st, v).store;
    forall n, b | HeaderNames(t.logs, n, b) ensures b in t.published {
      assert HeaderNames(st.logs, n, b) || b == v.base;
    }
    forall n | Undone(t, n) ensures Undone(st, n) || n == v.active {}
  }

  lemma SealingSound(leaving: Leaving, changes: Changes, st: Store, v: Server)
    requires LineRight(st) && ServerSound(leaving, st, v) && v.phase.Sealing?
    ensures Sound(leaving, Advance(changes, st, v))
  {
    SealLight(leaving, st, v.active);
    EvenKept(leaving, st, st.(logs := Seal(st.logs, v.active)));
  }

  lemma PuttingSound(leaving: Leaving, changes: Changes, st: Store, v: Server)
    requires LineRight(st) && ServerSound(leaving, st, v)
    requires v.phase.Reading? || v.phase.PutPack? || v.phase.PutIdx? || v.phase.PutHead? || v.phase.PutInfo?
    ensures Sound(leaving, Advance(changes, st, v))
  {
    if v.phase.PutInfo? { assert v.phase.pending[0..] == v.phase.pending; }
  }

  lemma AdvanceSound(leaving: Leaving, changes: Changes, st: Store, v: Server)
    requires LineRight(st) && ServerSound(leaving, st, v) && ByEntry(changes, leaving)
    requires Inv(changes, false, State(st, Some(v))) && ParentRight(st, v) && BuildRight(st, v)
    ensures Sound(leaving, Advance(changes, st, v))
  {
    var p := v.phase;
    if p.Sealing? { SealingSound(leaving, changes, st, v); }
    else if p.Listing? { ListingSound(leaving, changes, st, v); }
    else if p.Locking? { LockingSound(leaving, changes, st, v); }
    else if p.Checking? { CheckingSound(leaving, changes, st, v); }
    else if p.Building? { BuildingSound(leaving, changes, st, v); }
    else if p.PutRef? { RefSound(leaving, changes, st, v); }
    else if p.Marking? { MarkingSound(leaving, changes, st, v); }
    else if p.Allocating? || p.Opening? || p.Heading? { HeadingSound(leaving, changes, st, v); }
    else if !p.Starting? && !p.Running? { PuttingSound(leaving, changes, st, v); }
  }

  // ---- the end of a server

  /** In the window, what is left names another commit than the branch: it cannot weigh. */
  lemma WindowEven(leaving: Leaving, st: Store, v: Server, ns: seq<nat>)
    requires Left(st, v, ns) && !Strands(leaving, st, PendingIn(st), st.branch)
    ensures Even(leaving, st)
  {
    var left := PendingIn(st);
    LastBaseNames(st.logs, left, st.branch);
    if LastBase(st.logs, left, st.branch) == st.branch {
      forall n, b | Undone(st, n) ensures !HeaderNames(st.logs, n, b) { assert n in left; }
    } else {
      forall n | Undone(st, n) ensures !Weighs(leaving, st.logs[n]) { assert n in left; }
    }
  }

  lemma BeforeEven(leaving: Leaving, st: Store, v: Server)
    requires ServerSound(leaving, st, v) && !Window(v.phase)
    ensures Even(leaving, st)
  {
    match v.phase
    case Allocating => assert forall n :: !Undone(st, n);
    case Opening => assert forall n :: !Undone(st, n);
    case _ =>
  }

  /** A server ends and leaves nothing that strands. */
  lemma EndsEven(leaving: Leaving, st: Store, v: Server)
    requires ServerSound(leaving, st, v) && !Strands(leaving, st, PendingIn(st), st.branch)
    ensures Even(leaving, st)
  {
    if !Window(v.phase) {
      BeforeEven(leaving, st, v);
    } else if v.phase.PutInfo? {
      WindowEven(leaving, st, v, v.phase.pending);
    } else {
      WindowEven(leaving, st, v, v.phase.pending[v.phase.k..]);
    }
  }

  lemma FailSound(leaving: Leaving, changes: Changes, st: Store, v: Server)
    requires LineRight(st) && ServerSound(leaving, st, v) && BuildRight(st, v)
    requires !Strays(leaving, State(st, Some(v)), Fail)
    ensures Sound(leaving, State(st, Failed(v)))
  {
    if Failed(v).None? {
      EndsEven(leaving, st, v);
    } else {
      BeforeEven(leaving, st, v);
    }
  }

  lemma AppendSound(leaving: Leaving, changes: Changes, s: State, n: nat, entry: Payload)
    requires Sound(leaving, s)
    ensures Sound(leaving, Next(changes, s, Append(n, entry)))
  {
    var t := Next(changes, s, Append(n, entry));
    AppendLight(leaving, changes, s, n, entry);
    EvenKept(leaving, s.store, t.store);
    if s.server.Some? { SoundKept(leaving, s.store, t.store, s.server.value); }
  }

  lemma StepSound(leaving: Leaving, changes: Changes, s: State, step: Step)
    requires Sound(leaving, s) && ByEntry(changes, leaving) && !Strays(leaving, s, step)
    requires Inv(changes, false, s) && ParentsRight(s) && RunBuilds(s)
    ensures Sound(leaving, Next(changes, s, step))
  {
    match step
    case Go => if s.server.Some? { AdvanceSound(leaving, changes, s.store, s.server.value); }
    case Append(n, entry) => AppendSound(leaving, changes, s, n, entry);
    case Miss => if s.server.Some? { MissSound(leaving, s.store, s.server.value); }
    case Fail => if s.server.Some? { FailSound(leaving, changes, s.store, s.server.value); }
    case Crash => if s.server.Some? { EndsEven(leaving, s.store, s.server.value); }
    case _ =>
  }

  lemma {:induction false} SoundRun(changes: Changes, leaving: Leaving, steps: seq<Step>)
    requires ByEntry(changes, leaving) && NeverStrays(changes, leaving, steps)
    ensures Sound(leaving, Run(changes, FRESH, steps))
    decreases |steps|
  {
    if steps != [] {
      var front, step := steps[..|steps| - 1], steps[|steps| - 1];
      SoundRun(changes, leaving, front);
      RunKeeps(changes, false, front);
      ParentsKept(changes, front);
      BuildKept(changes, front);
      StepSound(leaving, changes, Run(changes, FRESH, front), step);
    }
  }

  // ---- the history

  /** Nothing strays: each commit that the branch comes to name names the one before as parent,
      and is built over its tree. */
  lemma NextIsChild(changes: Changes, leaving: Leaving, steps: seq<Step>, step: Step)
    requires ByEntry(changes, leaving) && NeverStrays(changes, leaving, steps)
    ensures
      var s, t := Run(changes, FRESH, steps), Next(changes, Run(changes, FRESH, steps), step);
      t.store.branch != s.store.branch ==>
        t.store.branch.Commit? && t.store.branch.parent == s.store.branch && t.store.branch.over == s.store.branch
  {
    SoundRun(changes, leaving, steps);
  }

  /** Nothing strays: the parents of the branch's tip reach whatever the branch has named. */
  lemma TipReachesAll(changes: Changes, leaving: Leaving, steps: seq<Step>, c: Commit)
    requires ByEntry(changes, leaving) && NeverStrays(changes, leaving, steps)
    requires c in Run(changes, FRESH, steps).store.published
    ensures Reaches(Run(changes, FRESH, steps).store.branch, c)
  {
    SoundRun(changes, leaving, steps);
  }
}
