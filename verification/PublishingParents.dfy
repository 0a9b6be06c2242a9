/** Which parent a published commit names: the base in the last header among the logs that it
    replays. While nothing strays, that is the commit the branch named just before, so the
    parents of the branch's tip reach whatever the branch has named. */
module PublishingParents {
  import opened Basics
  import opened Wal
  import opened Publishing
  import opened PublishingTip

  // ---- in every run

  ghost predicate HeaderNames(logs: map<nat, Log>, n: nat, base: Commit) {
    n in logs && logs[n].base == Some(base)
  }

  /** The last of the logs with a header names `parent`, or none has one and it is `start`. */
  ghost predicate LastNames(logs: map<nat, Log>, ns: seq<nat>, start: Commit, parent: Commit) {
    || (exists i | 0 <= i < |ns| ::
          HeaderNames(logs, ns[i], parent) && forall j, b | i < j < |ns| :: !HeaderNames(logs, ns[j], b))
    || (parent == start && forall j, b | 0 <= j < |ns| :: !HeaderNames(logs, ns[j], b))
  }

  lemma {:induction false} LastBaseNames(logs: map<nat, Log>, ns: seq<nat>, start: Commit)
    ensures LastNames(logs, ns, start, LastBase(logs, ns, start))
    decreases |ns|
  {
    if ns != [] {
      var next := if ns[0] in logs then logs[ns[0]].base.GetOr(start) else start;
      var parent := LastBase(logs, ns[1..], next);
      LastBaseNames(logs, ns[1..], next);
      if i :| 0 <= i < |ns[1..]| && HeaderNames(logs, ns[1..][i], parent)
              && forall j, b | i < j < |ns[1..]| :: !HeaderNames(logs, ns[1..][j], b) {
        assert HeaderNames(logs, ns[i + 1], parent);
        forall j, b | i + 1 < j < |ns| ensures !HeaderNames(logs, ns[j], b) { assert ns[j] == ns[1..][j - 1]; }
      } else {
        forall j, b | 0 < j < |ns| ensures !HeaderNames(logs, ns[j], b) { assert ns[j] == ns[1..][j - 1]; }
        if ns[0] in logs && logs[ns[0]].base.Some? { assert HeaderNames(logs, ns[0], parent); }
      }
    }
  }

  /** The headers are the same. */
  ghost predicate SameBases(a: map<nat, Log>, b: map<nat, Log>) {
    a.Keys == b.Keys && forall n | n in a :: b[n].base == a[n].base
  }

  lemma {:induction false} LastBaseSame(a: map<nat, Log>, b: map<nat, Log>, ns: seq<nat>, parent: Commit)
    requires SameBases(a, b)
    ensures LastBase(a, ns, parent) == LastBase(b, ns, parent)
    decreases |ns|
  {
    if ns != [] {
      LastBaseSame(a, b, ns[1..], if ns[0] in a then a[ns[0]].base.GetOr(parent) else parent);
    }
  }

  /** The branch has been moved, and the markers are not all there yet. */
  predicate Window(p: Phase) {
    p.PutInfo? || (p.Marking? && p.mark.Made?)
  }

  /** The parent is the one that reading the pending logs comes to; a starting server's base is
      what the branch names. */
  ghost predicate ParentRight(st: Store, v: Server) {
    && (v.mode.Booting? && !v.phase.Starting? && !Window(v.phase) ==> v.base == st.branch)
    && match v.phase
       case Reading(pending, parent, replayed) =>
         |replayed| <= |pending| && LastBase(st.logs, pending[|replayed|..], parent) ==
           LastBase(st.logs, pending, v.base)
       case Building(pending, parent, _) => parent == LastBase(st.logs, pending, v.base)
       case PutPack(pending, c) => c.Commit? && c.parent == LastBase(st.logs, pending, v.base)
       case PutIdx(pending, c) => c.Commit? && c.parent == LastBase(st.logs, pending, v.base)
       case PutHead(pending, c) => c.Commit? && c.parent == LastBase(st.logs, pending, v.base)
       case PutRef(pending, c) => c.Commit? && c.parent == LastBase(st.logs, pending, v.base)
       case _ => true
  }

  ghost predicate ParentsRight(s: State) {
    s.server.Some? ==> ParentRight(s.store, s.server.value)
  }

  lemma ReadingParent(changes: Changes, st: Store, v: Server)
    requires v.phase.Reading? && ParentRight(st, v)
    ensures ParentsRight(Advance(changes, st, v))
  {
    var pending, replayed := v.phase.pending, v.phase.replayed;
    if |replayed| < |pending| { assert pending[|replayed|..][1..] == pending[|replayed| + 1..]; }
  }

  lemma PuttingParent(changes: Changes, st: Store, v: Server)
    requires v.phase.PutPack? || v.phase.PutIdx? || v.phase.PutHead? || v.phase.PutRef?
    requires ParentRight(st, v)
    ensures ParentsRight(Advance(changes, st, v))
  {
  }

  lemma MarkingParent(changes: Changes, st: Store, v: Server)
    requires v.phase.Marking? && ParentRight(st, v) && BuildRight(st, v)
    ensures ParentsRight(Advance(changes, st, v))
  {
  }

  lemma AdvanceParent(changes: Changes, st: Store, v: Server)
    requires ParentRight(st, v) && BuildRight(st, v)
    ensures ParentsRight(Advance(changes, st, v))
  {
    var p := v.phase;
    if p.Reading? { ReadingParent(changes, st, v); }
    else if p.PutPack? || p.PutIdx? || p.PutHead? || p.PutRef? { PuttingParent(changes, st, v); }
    else if p.Marking? { MarkingParent(changes, st, v); }
    else if p.Checking? { assert p.pending[0..] == p.pending; }
  }

  lemma AppendParent(changes: Changes, s: State, n: nat, entry: Payload)
    requires ParentsRight(s)
    ensures ParentsRight(Next(changes, s, Append(n, entry)))
  {
    var t := Next(changes, s, Append(n, entry));
    if s.server.Some? {
      var v := s.server.value;
      match v.phase
      case Reading(pending, parent, replayed) =>
        LastBaseSame(s.store.logs, t.store.logs, pending, v.base);
        LastBaseSame(s.store.logs, t.store.logs, pending[|replayed|..], parent);
      case Building(pending, _, _) => LastBaseSame(s.store.logs, t.store.logs, pending, v.base);
      case PutPack(pending, _) => LastBaseSame(s.store.logs, t.store.logs, pending, v.base);
      case PutIdx(pending, _) => LastBaseSame(s.store.logs, t.store.logs, pending, v.base);
      case PutHead(pending, _) => LastBaseSame(s.store.logs, t.store.logs, pending, v.base);
      case PutRef(pending, _) => LastBaseSame(s.store.logs, t.store.logs, pending, v.base);
      case _ =>
    }
  }

  lemma {:induction false} ParentsKept(changes: Changes, steps: seq<Step>)
    ensures ParentsRight(Run(changes, FRESH, steps))
    decreases |steps|
  {
    if steps != [] {
      var front, step := steps[..|steps| - 1], steps[|steps| - 1];
      ParentsKept(changes, front);
      BuildKept(changes, front);
      var s := Run(changes, FRESH, front);
      match step
      case Go => if s.server.Some? { AdvanceParent(changes, s.store, s.server.value); }
      case Append(n, entry) => AppendParent(changes, s, n, entry);
      case _ =>
    }
  }

  /** The numbers of the logs that were replayed. */
  function Numbers(replayed: Replayed): seq<nat> {
    seq(|replayed|, i requires 0 <= i < |replayed| => replayed[i].0)
  }

  /** The server's next step moves the branch to `c`, whose parent is what the last header among
      the logs that `c` replays names; without one it is the server's base, which for a starting
      server is what the branch names. */
  ghost predicate PublishesNamed(s: State, c: Commit) {
    && s.server.Some? && c.Commit?
    && (exists pending :: s.server.value.phase == PutRef(pending, c))
    && LastNames(s.store.logs, Numbers(c.replayed), s.server.value.base, c.parent)
    && (s.server.value.mode.Booting? ==> s.server.value.base == s.store.branch)
  }

  /** Whatever fails, each commit that the branch has named names such a parent. */
  lemma {:induction false} ParentNamed(changes: Changes, steps: seq<Step>, c: Commit) returns (i: nat)
    requires c in Run(changes, FRESH, steps).store.published && c != Initial
    ensures i < |steps| && steps[i] == Go && PublishesNamed(Run(changes, FRESH, steps[..i]), c)
    decreases |steps|
  {
    var front, step := steps[..|steps| - 1], steps[|steps| - 1];
    var s := Run(changes, FRESH, front);
    if c in s.store.published {
      i := ParentNamed(changes, front, c);
      assert front[..i] == steps[..i];
    } else {
      i := |steps| - 1;
      ParentsKept(changes, front);
      BuildKept(changes, front);
      var v := s.server.value;
      assert v.phase == PutRef(v.phase.pending, c);
      assert Numbers(c.replayed) == v.phase.pending;
      LastBaseNames(s.store.logs, v.phase.pending, v.base);
    }
  }
}
