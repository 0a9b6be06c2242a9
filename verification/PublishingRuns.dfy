/** Runs that go on without failures: what a server that looks for logs comes to do. From
    them, a lockout that fails can lose entries (the other half of guarantee (a)). */
module PublishingRuns {
  import opened Basics
  import opened Wal
  import opened Publishing
  import opened PublishingProofs

  /** `steps` lead to `s`. */
  ghost predicate Leads(changes: Changes, steps: seq<Step>, s: State) {
    Run(changes, FRESH, steps) == s
  }

  lemma Then(changes: Changes, steps: seq<Step>, s: State, step: Step) returns (more: seq<Step>, t: State)
    requires Leads(changes, steps, s)
    ensures t == Next(changes, s, step) && Leads(changes, more, t) && more == steps + [step]
  {
    more, t := steps + [step], Next(changes, s, step);
    assert more[..|steps|] == steps;
  }

  // ---- locking, checking, reading, marking

  /** No entry, no header, no marker and no commit has changed. */
  ghost predicate SameLogs(s: Store, t: Store) {
    && t.done == s.done && t.branch == s.branch && t.published == s.published && t.logs.Keys == s.logs.Keys
    && forall n | n in s.logs :: t.logs[n].entries == s.logs[n].entries && t.logs[n].base == s.logs[n].base
  }

  /** The server `v`, a phase further. */
  predicate Is(s: State, v: Server, p: Phase) {
    s.server == Some(v.(phase := p))
  }

  /** The lockouts from number `k` on; what they do not reach stays as it is. */
  lemma {:induction false} LockRest(changes: Changes, steps: seq<Step>, s: State, v: Server, logs: seq<nat>, k: nat)
    returns (more: seq<Step>, t: State)
    requires Leads(changes, steps, s) && Is(s, v, Locking(logs, k)) && k <= |logs|
    ensures steps <= more && Leads(changes, more, t) && Is(t, v, Checking(logs, 0, [])) && SameLogs(s.store, t.store)
    ensures forall n | n in s.store.logs && n !in logs[k..] :: t.store.logs[n] == s.store.logs[n]
    decreases |logs| - k
  {
    more, t := Then(changes, steps, s, Go);
    if k < |logs| {
      assert logs[k] in logs[k..] && forall n | n in logs[k + 1..] :: n in logs[k..];
      more, t := LockRest(changes, more, t, v, logs, k + 1);
    }
  }

  /** The logs that have no done marker. */
  function NotDone(done: set<nat>, logs: seq<nat>): (r: seq<nat>)
    ensures forall n :: n in r <==> n in logs && n !in done
  {
    if logs == [] then [] else (if logs[0] in done then [] else [logs[0]]) + NotDone(done, logs[1..])
  }

  lemma {:induction false} CheckRest(changes: Changes, steps: seq<Step>, s: State, v: Server, logs: seq<nat>, k: nat,
                                     pending: seq<nat>)
    returns (more: seq<Step>, t: State)
    requires Leads(changes, steps, s) && Is(s, v, Checking(logs, k, pending)) && k <= |logs|
    ensures steps <= more && Leads(changes, more, t) && t.store == s.store
    ensures Is(t, v, Checking(logs, |logs|, pending + NotDone(s.store.done.Keys, logs[k..])))
    decreases |logs| - k
  {
    if k == |logs| {
      more, t := steps, s;
      assert pending + [] == pending;
    } else {
      more, t := Then(changes, steps, s, Go);
      var next := if logs[k] in s.store.done then pending else pending + [logs[k]];
      assert pending + [] == pending;
      more, t := CheckRest(changes, more, t, v, logs, k + 1, next);
      assert logs[k..][1..] == logs[k + 1..];
      Associate(pending, if logs[k] in s.store.done then [] else [logs[k]], NotDone(s.store.done.Keys, logs[k + 1..]));
    }
  }

  /** The logs with the entries that they hold. */
  function Reads(logs: map<nat, Log>, pending: seq<nat>): (r: Replayed)
    requires forall n | n in pending :: n in logs
    ensures |r| == |pending|
    ensures forall i | 0 <= i < |r| :: r[i] == (pending[i], logs[pending[i]].entries)
  {
    if pending == [] then [] else [(pending[0], logs[pending[0]].entries)] + Reads(logs, pending[1..])
  }

  lemma {:induction false} ReadRest(changes: Changes, steps: seq<Step>, s: State, v: Server, pending: seq<nat>,
                                    parent: Commit, replayed: Replayed)
    returns (more: seq<Step>, t: State, above: Commit)
    requires Leads(changes, steps, s) && Is(s, v, Reading(pending, parent, replayed)) && |replayed| <= |pending|
    requires forall n | n in pending :: n in s.store.logs
    ensures steps <= more && Leads(changes, more, t) && t.store == s.store
    ensures Is(t, v, Building(pending, above, replayed + Reads(s.store.logs, pending[|replayed|..])))
    ensures above == LastBase(s.store.logs, pending[|replayed|..], parent)
    decreases |pending| - |replayed|
  {
    more, t := Then(changes, steps, s, Go);
    if |replayed| == |pending| {
      above := parent;
      assert replayed + [] == replayed;
    } else {
      var n := pending[|replayed|];
      var read := [(n, s.store.logs[n].entries)];
      more, t, above := ReadRest(changes, more, t, v, pending, s.store.logs[n].base.GetOr(parent), replayed + read);
      assert pending[|replayed|..][1..] == pending[|replayed| + 1..];
      Associate(replayed, read, Reads(s.store.logs, pending[|replayed| + 1..]));
    }
  }

  function Members(ns: seq<nat>): set<nat> { set n | n in ns }

  lemma {:induction false} MarkRest(changes: Changes, steps: seq<Step>, s: State, v: Server, pending: seq<nat>,
                                    mark: Mark, k: nat)
    returns (more: seq<Step>, t: State)
    requires Leads(changes, steps, s) && Is(s, v, Marking(pending, mark, k)) && k <= |pending|
    ensures steps <= more && Leads(changes, more, t) && Is(t, v, Marking(pending, mark, |pending|))
    ensures t.store == s.store.(done := t.store.done) && t.store.done.Keys == s.store.done.Keys + Members(pending[k..])
    ensures forall n | n in t.store.done :: t.store.done[n] == if n in pending[k..] then mark else s.store.done[n]
    decreases |pending| - k
  {
    more, t := steps, s;
    if k < |pending| {
      more, t := Then(changes, steps, s, Go);
      var mid := t.store;
      assert pending[k..] == [pending[k]] + pending[k + 1..];
      more, t := MarkRest(changes, more, t, v, pending, mark, k + 1);
      assert t.store.done.Keys == mid.done.Keys + Members(pending[k + 1..]);
    }
  }

  // ---- a whole recovery

  /** What a server finds to commit: the logs without a marker. */
  function PendingIn(st: Store): (r: seq<nat>)
    ensures forall n :: n in r <==> n in st.logs && n !in st.done
  {
    NotDone(st.done.Keys, LogNumbers(st.logs))
  }

  /** Nothing is pending and recovery has ended, or what is pending has been read from `st`. */
  ghost predicate FoundPending(st: Store, t: State, v: Server, pending: seq<nat>, above: Commit) {
    && (forall n | n in pending :: n in st.logs) && above == LastBase(st.logs, pending, v.base)
    && if pending == [] then t.server == AfterRecovery(v, v.root, v.base)
       else Is(t, v, Building(pending, above, Reads(st.logs, pending)))
  }

  /** From a log to be looked at on: nothing is pending, or what is pending is read. */
  lemma FromChecking(changes: Changes, steps: seq<Step>, s: State, v: Server, logs: seq<nat>, k: nat, found: seq<nat>)
    returns (more: seq<Step>, t: State, above: Commit)
    requires Leads(changes, steps, s) && Is(s, v, Checking(logs, k, found)) && k <= |logs|
    requires (forall n | n in found :: n in s.store.logs) && forall n | n in logs :: n in s.store.logs
    ensures steps <= more && Leads(changes, more, t) && t.store == s.store
    ensures FoundPending(s.store, t, v, found + NotDone(s.store.done.Keys, logs[k..]), above)
  {
    more, t := CheckRest(changes, steps, s, v, logs, k, found);
    var pending := found + NotDone(s.store.done.Keys, logs[k..]);
    more, t := Then(changes, more, t, Go);
    above := v.base;
    if pending != [] {
      more, t, above := ReadRest(changes, more, t, v, pending, v.base, []);
      assert pending[0..] == pending && [] + Reads(s.store.logs, pending) == Reads(s.store.logs, pending);
    }
  }

  /** From the first log on. */
  lemma FromFirst(changes: Changes, steps: seq<Step>, s: State, v: Server, logs: seq<nat>)
    returns (more: seq<Step>, t: State, above: Commit)
    requires Leads(changes, steps, s) && Is(s, v, Checking(logs, 0, [])) && forall n | n in logs :: n in s.store.logs
    ensures steps <= more && Leads(changes, more, t) && t.store == s.store
    ensures FoundPending(s.store, t, v, NotDone(s.store.done.Keys, logs), above)
  {
    more, t, above := FromChecking(changes, steps, s, v, logs, 0, []);
    assert logs[0..] == logs;
    assert [] + NotDone(s.store.done.Keys, logs) == NotDone(s.store.done.Keys, logs);
  }

  lemma FromLocking(changes: Changes, steps: seq<Step>, s: State, v: Server, logs: seq<nat>)
    returns (more: seq<Step>, t: State, above: Commit)
    requires Leads(changes, steps, s) && Is(s, v, Locking(logs, 0)) && forall n | n in logs :: n in s.store.logs
    ensures steps <= more && Leads(changes, more, t) && SameLogs(s.store, t.store)
    ensures FoundPending(s.store, t, v, NotDone(s.store.done.Keys, logs), above)
  {
    more, t := LockRest(changes, steps, s, v, logs, 0);
    var locked := t.store;
    more, t, above := FromFirst(changes, more, t, v, logs);
    SameReads(locked.logs, s.store.logs, NotDone(s.store.done.Keys, logs), v.base);
  }

  /** One step on from listing, with `logs` found. */
  lemma Listed(changes: Changes, s: State, v: Server, logs: seq<nat>)
    requires Is(s, v, Listing) && logs == LogNumbers(s.store.logs)
    ensures logs == [] ==> Next(changes, s, Go) == State(s.store, AfterRecovery(v, v.root, v.base))
    ensures logs != [] ==> Next(changes, s, Go) == State(s.store, Some(v.(phase := Locking(logs, 0))))
    ensures PendingIn(s.store) == NotDone(s.store.done.Keys, logs)
    ensures forall n | n in logs :: n in s.store.logs
  {
  }

  lemma FromFound(changes: Changes, steps: seq<Step>, s: State, v: Server, logs: seq<nat>)
    returns (more: seq<Step>, t: State, above: Commit)
    requires Leads(changes, steps, s) && forall n | n in logs :: n in s.store.logs
    requires s.server == if logs == [] then AfterRecovery(v, v.root, v.base) else Some(v.(phase := Locking(logs, 0)))
    ensures steps <= more && Leads(changes, more, t) && SameLogs(s.store, t.store)
    ensures FoundPending(s.store, t, v, NotDone(s.store.done.Keys, logs), above)
  {
    more, t, above := steps, s, v.base;
    if logs != [] { more, t, above := FromLocking(changes, steps, s, v, logs); }
  }

  lemma FromListing(changes: Changes, steps: seq<Step>, s: State, v: Server)
    returns (more: seq<Step>, t: State, above: Commit)
    requires Leads(changes, steps, s) && Is(s, v, Listing)
    ensures steps <= more && Leads(changes, more, t) && SameLogs(s.store, t.store)
    ensures FoundPending(s.store, t, v, PendingIn(s.store), above)
  {
    var logs := LogNumbers(s.store.logs);
    Listed(changes, s, v, logs);
    more, t := Then(changes, steps, s, Go);
    more, t, above := FromFound(changes, more, t, v, logs);
  }

  lemma {:induction false} SameReads(a: map<nat, Log>, b: map<nat, Log>, pending: seq<nat>, parent: Commit)
    requires a.Keys == b.Keys && forall n | n in b :: a[n].entries == b[n].entries && a[n].base == b[n].base
    requires forall n | n in pending :: n in a
    ensures Reads(a, pending) == Reads(b, pending) && LastBase(a, pending, parent) == LastBase(b, pending, parent)
    decreases |pending|
  {
    if pending != [] { SameReads(a, b, pending[1..], a[pending[0]].base.GetOr(parent)); }
  }

  /** Pack, index, head, branch and server info. */
  lemma Publish(changes: Changes, steps: seq<Step>, s: State, v: Server, pending: seq<nat>, c: Commit)
    returns (more: seq<Step>, t: State)
    requires Leads(changes, steps, s) && Is(s, v, PutPack(pending, c))
    ensures steps <= more && Leads(changes, more, t) && Is(t, v, Marking(pending, Made(c), 0))
    ensures t.store.branch == c && t.store.done == s.store.done && t.store.logs == s.store.logs
    ensures t.store.published == s.store.published + {c}
  {
    more, t := Then(changes, steps, s, Go);
    assert Is(t, v, PutIdx(pending, c));
    more, t := Then(changes, more, t, Go);
    assert Is(t, v, PutHead(pending, c));
    more, t := Then(changes, more, t, Go);
    assert Is(t, v, PutRef(pending, c));
    more, t := Then(changes, more, t, Go);
    assert Is(t, v, PutInfo(pending, c));
    more, t := Then(changes, more, t, Go);
  }

  /** From built to marked: the pending logs have a marker for what was read of them. */
  lemma FromBuilding(changes: Changes, steps: seq<Step>, s: State, v: Server, pending: seq<nat>, above: Commit,
                     replayed: Replayed)
    returns (more: seq<Step>, t: State, mark: Mark)
    requires Leads(changes, steps, s) && Is(s, v, Building(pending, above, replayed))
    ensures steps <= more && Leads(changes, more, t) && Is(t, v, Marking(pending, mark, |pending|))
    ensures ReplayedOf(mark) == replayed && t.store.logs == s.store.logs
    ensures t.store.done.Keys == s.store.done.Keys + Members(pending)
    ensures forall n | n in t.store.done :: t.store.done[n] == if n in pending then mark else s.store.done[n]
    ensures !changes(v.root, replayed) ==>
      mark == Nothing(v.root, replayed) && t.store == s.store.(done := t.store.done)
  {
    more, t := Then(changes, steps, s, Go);
    assert pending[0..] == pending;
    if changes(v.root, replayed) {
      mark := Made(Commit(v.root, above, replayed, |s.store.published|));
      more, t := Publish(changes, more, t, v, pending, mark.commit);
    } else {
      mark := Nothing(v.root, replayed);
    }
    more, t := MarkRest(changes, more, t, v, pending, mark, 0);
  }

  // ---- (a), the other half

  /** A log that is marked done and not sealed can still be written to. */
  lemma OpenLoses(changes: Changes, steps: seq<Step>, s: State, n: nat) returns (more: seq<Step>)
    requires Leads(changes, steps, s) && n in s.store.done && n in s.store.logs && !s.store.logs[n].sealed
    requires forall es | (n, es) in ReplayedOf(s.store.done[n]) :: es <= s.store.logs[n].entries
    ensures steps <= more && var st := Run(changes, FRESH, more).store; n in st.done && !Whole(st, n)
  {
    var late := MkdirEntry([97]);
    var t: State;
    more, t := Then(changes, steps, s, Append(n, late));
    assert t.store.logs[n].entries == s.store.logs[n].entries + [late];
    assert !(t.store.logs[n].entries <= s.store.logs[n].entries);
  }

  /** A log that is pending and not sealed is read, and marked, and can still be written to. */
  lemma UnsealedLoses(changes: Changes, steps: seq<Step>, s: State, v: Server, logs: seq<nat>, n: nat)
    returns (more: seq<Step>)
    requires Leads(changes, steps, s) && Is(s, v, Checking(logs, 0, [])) && (forall m | m in logs :: m in s.store.logs)
    requires n in logs && n !in s.store.done && !s.store.logs[n].sealed
    ensures steps <= more && var st := Run(changes, FRESH, more).store; n in st.done && !Whole(st, n)
  {
    var t: State, above: Commit, mark: Mark;
    var pending := NotDone(s.store.done.Keys, logs);
    more, t, above := FromFirst(changes, steps, s, v, logs);
    more, t, mark := FromBuilding(changes, more, t, v, pending, above, Reads(s.store.logs, pending));
    forall es | (n, es) in ReplayedOf(t.store.done[n]) ensures es <= t.store.logs[n].entries {
      var i :| 0 <= i < |pending| && Reads(s.store.logs, pending)[i] == (n, es);
    }
    more := OpenLoses(changes, more, t, n);
  }

  /** (a), exactly: after any run, a lockout that fails on a log that is not sealed can lead to
      a done marker for a log with an entry that was never replayed. */
  lemma LockoutLoses(changes: Changes, steps: seq<Step>) returns (more: seq<Step>, n: nat)
    requires Slips(Run(changes, FRESH, steps), Miss)
    ensures steps + [Miss] <= more
    ensures var st := Run(changes, FRESH, more).store; n in st.done && !Whole(st, n)
  {
    var s := Run(changes, FRESH, steps);
    var v, logs, k := s.server.value, s.server.value.phase.logs, s.server.value.phase.k;
    RunKeeps(changes, false, steps);
    n := logs[k];
    var t: State;
    more, t := Then(changes, steps, s, Miss);
    if n in s.store.done {
      assert MarkRight(changes, false, s.store, n, s.store.done[n]);
      more := OpenLoses(changes, more, t, n);
    } else {
      assert forall i | k < i < |logs| :: n < logs[i];
      more, t := LockRest(changes, more, t, v, logs, k + 1);
      more := UnsealedLoses(changes, more, t, v, logs, n);
    }
  }

  /** A log that a crash has left open. */
  const OPEN := Log(Some(Initial), [], false)

  lemma OneLog(l: Log)
    ensures LogNumbers(map[0 := l]) == [0]
  {
    assert map[0 := l].Keys == {0};
    assert Top({0}) == 0 && {0} - {0} == {};
  }

  /** The first session finds nothing to recover. */
  lemma FirstRecovered(changes: Changes) returns (steps: seq<Step>, s: State)
    ensures Leads(changes, steps, s)
    ensures s == State(FRESH.store, Some(Server(Initial, Initial, 0, false, Booting, Allocating)))
  {
    steps, s := [], FRESH;
    steps, s := Then(changes, steps, s, Start);
    steps, s := Then(changes, steps, s, Go);
    steps, s := Then(changes, steps, s, Go);
  }

  /** It opens its log. */
  lemma FirstOpened(changes: Changes) returns (steps: seq<Step>, s: State)
    ensures Leads(changes, steps, s) && s.store == FRESH.store.(logs := map[0 := OPEN])
    ensures s.server == Some(Server(Initial, Initial, 0, true, Booting, Running))
  {
    steps, s := FirstRecovered(changes);
    steps, s := Then(changes, steps, s, Go);
    steps, s := Then(changes, steps, s, Go);
    steps, s := Then(changes, steps, s, Go);
  }

  /** The first session crashes, and the next looks for logs. */
  lemma SecondListing(changes: Changes) returns (steps: seq<Step>, s: State)
    ensures Leads(changes, steps, s) && s.store == FRESH.store.(logs := map[0 := OPEN])
    ensures s.server == Some(Server(Initial, Initial, 0, false, Booting, Listing))
  {
    steps, s := FirstOpened(changes);
    steps, s := Then(changes, steps, s, Crash);
    steps, s := Then(changes, steps, s, Start);
    steps, s := Then(changes, steps, s, Go);
  }

  /** There is such a run: that one cannot lock the log. */
  lemma LockoutSlips(changes: Changes) returns (steps: seq<Step>)
    ensures Slips(Run(changes, FRESH, steps), Miss)
  {
    var s: State;
    steps, s := SecondListing(changes);
    OneLog(OPEN);
    Listed(changes, s, s.server.value, [0]);
    steps, s := Then(changes, steps, s, Go);
  }
}
