/** What holds in every run of the publishing protocol, whatever crashes and fails. */
module PublishingProofs {
  import opened Basics
  import opened Wal
  import opened Publishing

  // ---- storage only grows

  lemma SealGrows(logs: map<nat, Log>, n: nat)
    ensures forall m | m in logs :: m in Seal(logs, n) && LogGrown(logs[m], Seal(logs, n)[m])
    ensures Seal(logs, n).Keys == logs.Keys && (n in logs ==> Seal(logs, n)[n].sealed)
  {
  }

  /** A server's step loses nothing: in particular it opens no log that exists. */
  lemma AdvanceGrows(changes: Changes, st: Store, v: Server)
    requires NumberRight(st, v)
    ensures Grown(st, Advance(changes, st, v).store)
  {
    match v.phase
    case Sealing => SealGrows(st.logs, v.active);
    case Locking(logs, k) => if k < |logs| { SealGrows(st.logs, logs[k]); }
    case Opening => assert v.active !in st.logs;
    case _ =>
  }

  lemma NextGrows(changes: Changes, s: State, step: Step)
    requires s.server.Some? ==> NumberRight(s.store, s.server.value)
    ensures Grown(s.store, Next(changes, s, step).store)
  {
    if step.Go? && s.server.Some? { AdvanceGrows(changes, s.store, s.server.value); }
  }

  lemma ReadGrown(firm: bool, s: Store, t: Store, n: nat, replayed: Replayed)
    requires Grown(s, t) && ReadFor(firm, s, n, replayed)
    ensures ReadFor(firm, t, n, replayed)
  {
    forall es | (n, es) in replayed ensures es <= t.logs[n].entries {
      assert es <= s.logs[n].entries <= t.logs[n].entries;
    }
  }

  lemma MarkGrown(changes: Changes, firm: bool, s: Store, t: Store, n: nat, mark: Mark)
    requires Grown(s, t) && MarkRight(changes, firm, s, n, mark)
    ensures MarkRight(changes, firm, t, n, mark)
  {
    match mark
    case Made(c) => ReadGrown(firm, s, t, n, c.replayed);
    case Nothing(_, replayed) => ReadGrown(firm, s, t, n, replayed);
  }

  lemma AllReadGrown(firm: bool, s: Store, t: Store, pending: seq<nat>, replayed: Replayed)
    requires Grown(s, t) && AllRead(firm, s, pending, replayed)
    ensures AllRead(firm, t, pending, replayed)
  {
    forall n | n in pending ensures ReadFor(firm, t, n, replayed) { ReadGrown(firm, s, t, n, replayed); }
  }

  lemma NoneBeyondGrown(s: Store, t: Store, replayed: Replayed)
    requires Grown(s, t) && NoneBeyond(s, replayed)
    ensures NoneBeyond(t, replayed)
  {
    forall n, es | (n, es) in replayed ensures n in t.logs && es <= t.logs[n].entries {
      assert es <= s.logs[n].entries <= t.logs[n].entries;
    }
  }

  lemma PhaseGrown(changes: Changes, firm: bool, s: Store, t: Store, p: Phase)
    requires Grown(s, t) && PhaseRight(changes, firm, s, p)
    ensures PhaseRight(changes, firm, t, p)
  {
    match p
    case Reading(pending, _, replayed) =>
      AllReadGrown(firm, s, t, pending[..|replayed|], replayed);
      NoneBeyondGrown(s, t, replayed);
    case Building(pending, _, replayed) => AllReadGrown(firm, s, t, pending, replayed);
    case PutPack(pending, c) => AllReadGrown(firm, s, t, pending, c.replayed);
    case PutIdx(pending, c) => AllReadGrown(firm, s, t, pending, c.replayed);
    case PutHead(pending, c) => AllReadGrown(firm, s, t, pending, c.replayed);
    case PutRef(pending, c) => AllReadGrown(firm, s, t, pending, c.replayed);
    case PutInfo(pending, c) => AllReadGrown(firm, s, t, pending, c.replayed);
    case Marking(pending, mark, _) =>
      forall n | n in pending ensures MarkRight(changes, firm, t, n, mark) { MarkGrown(changes, firm, s, t, n, mark); }
    case _ =>
  }

  // ---- the phases hand over

  /** The phase that a step leads to is right, over the storage that the step leaves. */
  ghost predicate Lands(changes: Changes, firm: bool, s: State) {
    s.server.Some? ==> PhaseRight(changes, firm, s.store, s.server.value.phase)
  }

  lemma LockingLands(changes: Changes, firm: bool, st: Store, v: Server)
    requires v.phase.Locking? && PhaseRight(changes, firm, st, v.phase)
    ensures Lands(changes, firm, Advance(changes, st, v))
  {
    var logs, k := v.phase.logs, v.phase.k;
    if k < |logs| {
      SealGrows(st.logs, logs[k]);
      assert logs[k] in logs;
    }
  }

  /** One more log is pending: `logs[k]`. */
  lemma PendingMore(firm: bool, st: Store, logs: seq<nat>, k: nat, pending: seq<nat>)
    requires k < |logs| && Locked(firm, st, logs, |logs|) && Locked(firm, st, pending, |pending|)
    ensures Locked(firm, st, pending + [logs[k]], |pending| + 1)
  {
    assert logs[k] in logs;
    forall n | n in pending + [logs[k]] ensures n in st.logs { if n != logs[k] { assert n in pending; } }
  }

  lemma CheckingLands(changes: Changes, firm: bool, st: Store, v: Server)
    requires v.phase.Checking? && PhaseRight(changes, firm, st, v.phase)
    ensures Lands(changes, firm, Advance(changes, st, v))
    ensures Lands(changes, firm, Missed(st, v))
  {
    var logs, k, pending := v.phase.logs, v.phase.k, v.phase.pending;
    if k < |logs| { PendingMore(firm, st, logs, k, pending); }
  }

  lemma ReadMore(firm: bool, st: Store, n: nat, replayed: Replayed, m: nat)
    requires m in st.logs && (firm ==> st.logs[m].sealed) && (n == m || ReadFor(firm, st, n, replayed))
    requires forall es | (m, es) in replayed :: es <= st.logs[m].entries
    ensures ReadFor(firm, st, n, replayed + [(m, st.logs[m].entries)])
  {
    var more := replayed + [(m, st.logs[m].entries)];
    assert more[|replayed|] == (m, st.logs[m].entries);
    if n != m {
      var es :| (n, es) in replayed;
      assert (n, es) in more;
    }
  }

  lemma ReadingLands(changes: Changes, firm: bool, st: Store, v: Server)
    requires v.phase.Reading? && PhaseRight(changes, firm, st, v.phase)
    ensures Lands(changes, firm, Advance(changes, st, v))
  {
    var pending, replayed := v.phase.pending, v.phase.replayed;
    if |replayed| < |pending| {
      var m := pending[|replayed|];
      var more := replayed + [(m, st.logs[m].entries)];
      forall n | n in pending[..|more|] ensures ReadFor(firm, st, n, more) {
        if n != m { assert n in pending[..|replayed|]; }
        ReadMore(firm, st, n, replayed, m);
      }
    } else {
      assert pending[..|replayed|] == pending;
    }
  }

  lemma BuildingLands(changes: Changes, firm: bool, st: Store, v: Server)
    requires v.phase.Building? && PhaseRight(changes, firm, st, v.phase)
    ensures Lands(changes, firm, Advance(changes, st, v))
  {
    var pending, replayed := v.phase.pending, v.phase.replayed;
    if !changes(v.root, replayed) {
      forall n | n in pending ensures MarkRight(changes, firm, st, n, Nothing(v.root, replayed)) {
        assert ReadFor(firm, st, n, replayed);
      }
    }
  }

  lemma PuttingLands(changes: Changes, firm: bool, st: Store, v: Server)
    requires v.phase.PutPack? || v.phase.PutIdx? || v.phase.PutHead? || v.phase.PutRef?
    requires PhaseRight(changes, firm, st, v.phase)
    ensures Lands(changes, firm, Advance(changes, st, v))
  {
    var t := Advance(changes, st, v).store;
    AllReadGrown(firm, st, t, v.phase.pending, v.phase.commit.replayed);
  }

  lemma PutInfoLands(changes: Changes, firm: bool, st: Store, v: Server)
    requires v.phase.PutInfo? && PhaseRight(changes, firm, st, v.phase)
    ensures Lands(changes, firm, Advance(changes, st, v))
  {
    forall n | n in v.phase.pending ensures MarkRight(changes, firm, st, n, Made(v.phase.commit)) {
      assert ReadFor(firm, st, n, v.phase.commit.replayed);
    }
  }

  lemma MarkingLands(changes: Changes, firm: bool, st: Store, v: Server)
    requires v.phase.Marking? && PhaseRight(changes, firm, st, v.phase)
    ensures Lands(changes, firm, Advance(changes, st, v))
  {
    var t := Advance(changes, st, v).store;
    forall n | n in v.phase.pending ensures MarkRight(changes, firm, t, n, v.phase.mark) {
      MarkGrown(changes, firm, st, t, n, v.phase.mark);
    }
  }

  lemma AdvanceLands(changes: Changes, firm: bool, st: Store, v: Server)
    requires PhaseRight(changes, firm, st, v.phase)
    ensures Lands(changes, firm, Advance(changes, st, v))
  {
    match v.phase
    case Locking(_, _) => LockingLands(changes, firm, st, v);
    case Checking(_, _, _) => CheckingLands(changes, firm, st, v);
    case Reading(_, _, _) => ReadingLands(changes, firm, st, v);
    case Building(_, _, _) => BuildingLands(changes, firm, st, v);
    case PutPack(_, _) => PuttingLands(changes, firm, st, v);
    case PutIdx(_, _) => PuttingLands(changes, firm, st, v);
    case PutHead(_, _) => PuttingLands(changes, firm, st, v);
    case PutRef(_, _) => PuttingLands(changes, firm, st, v);
    case PutInfo(_, _) => PutInfoLands(changes, firm, st, v);
    case Marking(_, _, _) => MarkingLands(changes, firm, st, v);
    case _ =>
  }

  // ---- numbers

  lemma SealingNumbers(changes: Changes, st: Store, v: Server)
    requires NumberRight(st, v) && (v.phase.Sealing? || v.phase.Locking?)
    ensures var t := Advance(changes, st, v); t.server.Some? && NumberRight(t.store, t.server.value)
  {
    match v.phase
    case Sealing => SealGrows(st.logs, v.active);
    case Locking(logs, k) => if k < |logs| { SealGrows(st.logs, logs[k]); }
  }

  lemma OpeningNumbers(changes: Changes, st: Store, v: Server)
    requires NumberRight(st, v) && (v.phase.Allocating? || v.phase.Opening? || v.phase.Heading?)
    ensures var t := Advance(changes, st, v); t.server.Some? && NumberRight(t.store, t.server.value)
  {
  }

  lemma AdvanceNumbers(changes: Changes, st: Store, v: Server)
    requires NumberRight(st, v)
    ensures
      var t := Advance(changes, st, v);
      t.server.Some? ==> NumberRight(t.store, t.server.value)
  {
    match v.phase
    case Sealing => SealingNumbers(changes, st, v);
    case Locking(_, _) => SealingNumbers(changes, st, v);
    case Allocating => OpeningNumbers(changes, st, v);
    case Opening => OpeningNumbers(changes, st, v);
    case Heading => OpeningNumbers(changes, st, v);
    case _ => assert Advance(changes, st, v).store.logs == st.logs;
  }

  // ---- marks and the branch

  lemma AdvanceMarks(changes: Changes, firm: bool, st: Store, v: Server)
    requires MarksRight(changes, firm, st) && PhaseRight(changes, firm, st, v.phase) && NumberRight(st, v)
    ensures MarksRight(changes, firm, Advance(changes, st, v).store)
  {
    var t := Advance(changes, st, v).store;
    AdvanceGrows(changes, st, v);
    forall n | n in t.done ensures MarkRight(changes, firm, t, n, t.done[n]) {
      if n in st.done && t.done[n] == st.done[n] {
        MarkGrown(changes, firm, st, t, n, st.done[n]);
      } else {
        assert v.phase.Marking? && n in v.phase.pending;
        MarkGrown(changes, firm, st, t, n, v.phase.mark);
      }
    }
  }

  lemma AdvancePublished(changes: Changes, firm: bool, st: Store, v: Server)
    requires PublishedRight(st) && PhaseRight(changes, firm, st, v.phase)
    ensures PublishedRight(Advance(changes, st, v).store)
  {
  }

  lemma AdvanceKeeps(changes: Changes, firm: bool, st: Store, v: Server)
    requires Inv(changes, firm, State(st, Some(v)))
    ensures Inv(changes, firm, Advance(changes, st, v))
  {
    AdvanceMarks(changes, firm, st, v);
    AdvancePublished(changes, firm, st, v);
    AdvanceLands(changes, firm, st, v);
    AdvanceNumbers(changes, st, v);
  }

  lemma MissKeeps(changes: Changes, firm: bool, s: State)
    requires Inv(changes, firm, s) && (firm ==> !Slips(s, Miss))
    ensures Inv(changes, firm, Next(changes, s, Miss))
  {
    if s.server.Some? {
      var p := s.server.value.phase;
      if p.Checking? { CheckingLands(changes, firm, s.store, s.server.value); }
      if p.Locking? && p.k < |p.logs| { assert p.logs[p.k] in p.logs; }
    }
  }

  lemma AppendKeeps(changes: Changes, firm: bool, s: State, n: nat, entry: Payload)
    requires Inv(changes, firm, s)
    ensures Inv(changes, firm, Next(changes, s, Append(n, entry)))
  {
    var t := Next(changes, s, Append(n, entry));
    NextGrows(changes, s, Append(n, entry));
    forall m | m in t.store.done ensures MarkRight(changes, firm, t.store, m, t.store.done[m]) {
      MarkGrown(changes, firm, s.store, t.store, m, s.store.done[m]);
    }
    if s.server.Some? { PhaseGrown(changes, firm, s.store, t.store, s.server.value.phase); }
  }

  lemma StepKeeps(changes: Changes, firm: bool, s: State, step: Step)
    requires Inv(changes, firm, s) && (firm ==> !Slips(s, step))
    ensures Inv(changes, firm, Next(changes, s, step))
  {
    match step
    case Go => if s.server.Some? { AdvanceKeeps(changes, firm, s.store, s.server.value); }
    case Append(n, entry) => AppendKeeps(changes, firm, s, n, entry);
    case Miss => MissKeeps(changes, firm, s);
    case _ =>
  }

  lemma {:induction false} RunKeeps(changes: Changes, firm: bool, steps: seq<Step>)
    requires firm ==> NeverSlips(changes, steps)
    ensures Inv(changes, firm, Run(changes, FRESH, steps))
    decreases |steps|
  {
    if steps != [] {
      RunKeeps(changes, firm, steps[..|steps| - 1]);
      StepKeeps(changes, firm, Run(changes, FRESH, steps[..|steps| - 1]), steps[|steps| - 1]);
    }
  }

  // ---- the guarantees

  /** (a) Whatever fails, a done marker stands only for a log whose entries, as far as they went
      when it was read, were replayed into a commit that the branch has named, or into nothing
      to commit. */
  lemma DoneIsReplayed(changes: Changes, steps: seq<Step>, n: nat)
    requires n in Run(changes, FRESH, steps).store.done
    ensures
      var st := Run(changes, FRESH, steps).store;
      && n in st.logs && (exists es :: (n, es) in ReplayedOf(st.done[n]))
      && (forall es | (n, es) in ReplayedOf(st.done[n]) :: es <= st.logs[n].entries)
      && match st.done[n]
         case Made(c) => c in st.published && c.Commit?
         case Nothing(root, replayed) => !changes(root, replayed)
  {
    RunKeeps(changes, false, steps);
    assert MarkRight(changes, false, Run(changes, FRESH, steps).store, n, Run(changes, FRESH, steps).store.done[n]);
  }

  /** (a) When no lockout fails on a log that is not sealed, such a log is sealed and was
      replayed to its end. `LockoutLoses` is the other half. */
  lemma DoneIsWhole(changes: Changes, steps: seq<Step>, n: nat)
    requires NeverSlips(changes, steps) && n in Run(changes, FRESH, steps).store.done
    ensures var st := Run(changes, FRESH, steps).store; Whole(st, n) && st.logs[n].sealed
  {
    RunKeeps(changes, true, steps);
    assert MarkRight(changes, true, Run(changes, FRESH, steps).store, n, Run(changes, FRESH, steps).store.done[n]);
  }

  /** (b) The branch names no commit whose pack and index are not both uploaded. */
  lemma RefHasObjects(changes: Changes, steps: seq<Step>)
    ensures
      var st := Run(changes, FRESH, steps).store;
      st.branch in st.packs && st.branch in st.idxs && forall c | c in st.published :: c in st.packs && c in st.idxs
  {
    RunKeeps(changes, false, steps);
  }

  /** (c) A step that makes a log makes one with a number above every other; and whatever the
      step, no log is overwritten, shortened, or changed once sealed. */
  lemma NewLogIsNewest(changes: Changes, steps: seq<Step>, step: Step)
    ensures
      var s, t := Run(changes, FRESH, steps), Next(changes, Run(changes, FRESH, steps), step);
      && (forall n, m | n in t.store.logs && n !in s.store.logs && m in s.store.logs :: m < n)
      && (forall n | n in s.store.logs :: n in t.store.logs && LogGrown(s.store.logs[n], t.store.logs[n]))
  {
    RunKeeps(changes, false, steps);
    var s := Run(changes, FRESH, steps);
    NextGrows(changes, s, step);
    if step.Go? && s.server.Some? {
      var v := s.server.value;
      if v.phase.Sealing? { SealGrows(s.store.logs, v.active); }
      if v.phase.Locking? && v.phase.k < |v.phase.logs| { SealGrows(s.store.logs, v.phase.logs[v.phase.k]); }
    }
  }
}
