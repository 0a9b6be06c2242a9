/** Readers of the block cache that wait for ever (src/cache/block.rs, `get_or_fetch_block`): a
    reader cancelled while it fetches leaves its in-flight entry behind, and a notification sent
    before a reader waits for it is lost. */
module CacheWaits {
  import opened Basics
  import opened Blocks
  import opened CacheSteps

  lemma {:induction false} RunAppend(c: Config, s: State, a: seq<Step>, b: seq<Step>)
    requires c.size > 0
    ensures Run(c, s, a + b) == Run(c, Run(c, s, a), b)
    decreases |b|
  {
    if b == [] {
      assert a + b == a;
    } else {
      assert (a + b)[..|a + b| - 1] == a + b[..|b| - 1];
      RunAppend(c, s, a, b[..|b| - 1]);
    }
  }

  lemma RunOne(c: Config, s: State, step: Step)
    requires c.size > 0
    ensures Run(c, s, [step]) == Next(c, s, step)
  {
    assert [step][..0] == [] && Run(c, s, []) == s;
  }

  // ---- entries that nobody will remove

  /** Reader `id` was cancelled while it held the entry of `k`. */
  ghost predicate Orphans(s: State, id: nat, k: Key) {
    Holder(s, id, k) && s.readers[id].pc.Abandoned?
  }

  ghost predicate Orphan(s: State, k: Key) {
    exists id: nat :: Orphans(s, id, k)
  }

  /** The keys whose fetchers have been cancelled since the last restart. */
  function Cancelled(c: Config, steps: seq<Step>): set<Key>
    requires c.size > 0
    decreases |steps|
  {
    if steps == [] then {}
    else
      var front, last := steps[..|steps| - 1], steps[|steps| - 1];
      if last.Restart? then {} else Cancelled(c, front) + CancelledBy(Run(c, EMPTY, front), last)
  }

  /** The key of the reader that a step cancels while it fetches. */
  function CancelledBy(s: State, step: Step): set<Key> {
    if step.Cancel? && step.id in s.readers && s.readers[step.id].pc.Fetching? then {Wanted(s.readers[step.id])} else {}
  }

  lemma ActAbandons(c: Config, s: State, r: Reader, ok: bool)
    requires c.size > 0
    ensures Act(c, s, r, ok).1.pc.Abandoned? <==> r.pc.Abandoned?
    ensures r.pc.Abandoned? ==> Act(c, s, r, ok).1 == r
  {
  }

  lemma AdvanceOrphans(c: Config, s: State, id: nat, ok: bool, i: nat, k: Key)
    requires c.size > 0 && id in s.readers
    ensures Orphans(Move(c, s, id, s.readers[id], ok), i, k) <==> Orphans(s, i, k)
  {
    if i == id { ActAbandons(c, s, s.readers[id], ok); } else { ActOthers(c, s, id, ok, i); }
  }

  lemma StepOrphans(c: Config, s: State, step: Step, i: nat, k: Key)
    requires c.size > 0 && !step.Restart?
    ensures Orphans(Next(c, s, step), i, k) <==>
      Orphans(s, i, k) || (step == Cancel(i) && k in CancelledBy(s, step))
  {
    if step.Advance? && step.id in s.readers { AdvanceOrphans(c, s, step.id, step.ok, i, k); }
  }

  lemma StepOrphan(c: Config, s: State, step: Step, k: Key)
    requires c.size > 0 && !step.Restart?
    ensures Orphan(Next(c, s, step), k) <==> Orphan(s, k) || k in CancelledBy(s, step)
  {
    var t := Next(c, s, step);
    forall i: nat
      ensures Orphans(t, i, k) <==> Orphans(s, i, k) || (step == Cancel(i) && k in CancelledBy(s, step))
    {
      StepOrphans(c, s, step, i, k);
    }
    if k in CancelledBy(s, step) { assert Orphans(t, step.id, k); }
    if Orphan(s, k) {
      var i: nat :| Orphans(s, i, k);
      assert Orphans(t, i, k);
    }
  }

  /** In every run the orphans are the keys of the fetchers cancelled since the last restart. */
  lemma {:induction false} OrphansExactly(c: Config, steps: seq<Step>, k: Key)
    requires c.size > 0
    ensures Orphan(Run(c, EMPTY, steps), k) <==> k in Cancelled(c, steps)
    decreases |steps|
  {
    if steps != [] {
      var front, last := steps[..|steps| - 1], steps[|steps| - 1];
      OrphansExactly(c, front, k);
      if !last.Restart? { StepOrphan(c, Run(c, EMPTY, front), last, k); }
    }
  }

  /** A reader that may still remove the entry of `k`. */
  ghost predicate Fetcher(s: State, id: nat, k: Key) {
    Holder(s, id, k) && !s.readers[id].pc.Abandoned?
  }

  /** In every run, an entry in flight has a reader that will remove it exactly when no fetcher
      of its key has been cancelled since the last restart; a cancelled one's entry is in flight. */
  lemma EntryHasFetcher(c: Config, steps: seq<Step>, k: Key)
    requires c.size > 0
    ensures
      var s := Run(c, EMPTY, steps);
      && (k in s.inFlight ==> ((exists id: nat :: Fetcher(s, id, k)) <==> k !in Cancelled(c, steps)))
      && (k in Cancelled(c, steps) ==> k in s.inFlight)
  {
    var s := Run(c, EMPTY, steps);
    EmptyIsRight(c);
    RunKeeps(c, EMPTY, steps);
    OrphansExactly(c, steps, k);
    if k in s.inFlight {
      assert Held(s, k);
      var i: nat :| Holder(s, i, k);
      assert Fetcher(s, i, k) || Orphans(s, i, k);
    }
    if Orphan(s, k) {
      var i: nat :| Orphans(s, i, k);
      assert Holder(s, i, k) && Held(s, k);
      assert forall j: nat :: Holder(s, j, k) ==> j == i;
    }
  }

  lemma AbandonedKept(c: Config, s: State, id: nat, step: Step)
    requires c.size > 0 && id in s.readers && s.readers[id].pc.Abandoned? && !step.Restart?
    ensures id in Next(c, s, step).readers && Next(c, s, step).readers[id] == s.readers[id]
  {
    if step.Advance? && step.id in s.readers {
      ActAbandons(c, s, s.readers[step.id], step.ok);
      if step.id != id { ActOthers(c, s, step.id, step.ok, id); }
    }
  }

  /** A reader cancelled while it fetches never releases its entry: until the process starts
      again, nobody fetches that block. */
  lemma {:induction false} AbandonedStays(c: Config, s: State, id: nat, steps: seq<Step>)
    requires c.size > 0 && Inv(c, s) && id in s.readers && s.readers[id].pc.Abandoned? && Restart !in steps
    ensures
      var t := Run(c, s, steps);
      id in t.readers && t.readers[id] == s.readers[id] && Wanted(s.readers[id]) in t.inFlight &&
      forall i: nat | Holder(t, i, Wanted(s.readers[id])) :: i == id
    decreases |steps|
  {
    RunKeeps(c, s, steps);
    if steps != [] {
      var front, last := steps[..|steps| - 1], steps[|steps| - 1];
      AbandonedStays(c, s, id, front);
      assert last in steps;
      AbandonedKept(c, Run(c, s, front), id, last);
    }
    assert Holder(Run(c, s, steps), id, Wanted(s.readers[id]));
  }

  // ---- notifications that nobody will send

  /** The reader sends notification `n`, or will when it has removed its entry. */
  ghost predicate SendsAt(entries: map<Key, nat>, r: Reader, n: nat) {
    || (r.pc.Notify? && r.pc.n == n)
    || (Holding(r) && !r.pc.Abandoned? && Wanted(r) in entries && entries[Wanted(r)] == n)
  }

  ghost predicate Sends(s: State, id: nat, n: nat) {
    id in s.readers && SendsAt(s.inFlight, s.readers[id], n)
  }

  ghost predicate Silent(s: State, n: nat) {
    forall id: nat :: !Sends(s, id, n)
  }

  ghost predicate WaitsFor(s: State, id: nat, n: nat) {
    id in s.readers && s.readers[id].pc == Waiting(n)
  }

  /** Notifications are numbered as they are made. */
  function NumberOf(pc: Pc): Option<nat> {
    match pc
    case Noted(n) => Some(n)
    case Waiting(n) => Some(n)
    case Notify(n, _) => Some(n)
    case _ => None
  }

  ghost predicate Numbered(s: State) {
    && (forall k | k in s.inFlight :: s.inFlight[k] < s.next)
    && (forall i | i in s.readers :: NumberOf(s.readers[i].pc).Some? ==> NumberOf(s.readers[i].pc).value < s.next)
  }

  lemma ActNumbers(c: Config, s: State, r: Reader, ok: bool)
    requires c.size > 0 && (forall k | k in s.inFlight :: s.inFlight[k] < s.next)
    requires NumberOf(r.pc).Some? ==> NumberOf(r.pc).value < s.next
    ensures
      var (t, q) := Act(c, s, r, ok);
      && s.next <= t.next && (forall k | k in t.inFlight :: t.inFlight[k] < t.next)
      && (NumberOf(q.pc).Some? ==> NumberOf(q.pc).value < t.next)
  {
  }

  lemma MoveNumbers(c: Config, s: State, id: nat, ok: bool)
    requires c.size > 0 && id in s.readers && Numbered(s)
    ensures Numbered(Move(c, s, id, s.readers[id], ok)) && s.next <= Move(c, s, id, s.readers[id], ok).next
  {
    var t := Move(c, s, id, s.readers[id], ok);
    ActNumbers(c, s, s.readers[id], ok);
    forall i | i in t.readers && NumberOf(t.readers[i].pc).Some? ensures NumberOf(t.readers[i].pc).value < t.next {
      if i != id { ActOthers(c, s, id, ok, i); }
    }
  }

  lemma StepNumbers(c: Config, s: State, step: Step)
    requires c.size > 0 && Numbered(s)
    ensures Numbered(Next(c, s, step)) && s.next <= Next(c, s, step).next
  {
    if step.Advance? {
      if step.id in s.readers { MoveNumbers(c, s, step.id, step.ok); }
    }
  }

  lemma {:induction false} RunNumbers(c: Config, s: State, steps: seq<Step>)
    requires c.size > 0 && Numbered(s)
    ensures Numbered(Run(c, s, steps)) && s.next <= Run(c, s, steps).next
    decreases |steps|
  {
    if steps != [] {
      RunNumbers(c, s, steps[..|steps| - 1]);
      StepNumbers(c, Run(c, s, steps[..|steps| - 1]), steps[|steps| - 1]);
    }
  }

  lemma FetchSends(c: Config, s: State, r: Reader, ok: bool, n: nat)
    requires c.size > 0 && !SendsAt(s.inFlight, r, n)
    ensures !SendsAt(DoFetch(c, s, r, ok).0.inFlight, DoFetch(c, s, r, ok).1, n)
  {
  }

  /** A reader that will not send `n` does not come to send it: entries get new numbers. */
  lemma ActSends(c: Config, s: State, r: Reader, ok: bool, n: nat)
    requires c.size > 0 && n < s.next && !SendsAt(s.inFlight, r, n)
    ensures !SendsAt(Act(c, s, r, ok).0.inFlight, Act(c, s, r, ok).1, n)
  {
    FetchSends(c, s, r, ok, n);
  }

  /** What a step makes of the entries: it leaves each, removes it, or makes one with a new number. */
  lemma ActNumber(c: Config, s: State, r: Reader, ok: bool, k: Key)
    requires c.size > 0 && k in Act(c, s, r, ok).0.inFlight
    ensures
      var entries := Act(c, s, r, ok).0.inFlight;
      (k in s.inFlight && entries[k] == s.inFlight[k]) || entries[k] == s.next
  {
  }

  lemma MoveSilent(c: Config, s: State, id: nat, ok: bool, n: nat)
    requires c.size > 0 && id in s.readers && n < s.next && Silent(s, n)
    ensures Silent(Move(c, s, id, s.readers[id], ok), n)
  {
    var t := Move(c, s, id, s.readers[id], ok);
    assert !Sends(s, id, n);
    ActSends(c, s, s.readers[id], ok, n);
    forall i: nat ensures !Sends(t, i, n) {
      if i != id && i in t.readers {
        assert !Sends(s, i, n);
        ActOthers(c, s, id, ok, i);
        if Wanted(t.readers[i]) in t.inFlight { ActNumber(c, s, s.readers[id], ok, Wanted(t.readers[i])); }
      }
    }
  }

  lemma OtherSilent(c: Config, s: State, step: Step, n: nat)
    requires c.size > 0 && Silent(s, n) && !step.Advance?
    ensures Silent(Next(c, s, step), n)
  {
    forall i: nat ensures !Sends(Next(c, s, step), i, n) { assert !Sends(s, i, n); }
  }

  /** While nobody will send `n`, no step wakes those who wait for it. */
  lemma StillWaits(c: Config, s: State, step: Step, id: nat, n: nat)
    requires c.size > 0 && Silent(s, n) && WaitsFor(s, id, n) && step != Restart && step != Cancel(id)
    ensures WaitsFor(Next(c, s, step), id, n)
  {
    if step.Advance? && step.id in s.readers && step.id != id {
      assert !Sends(s, step.id, n);
      ActOthers(c, s, step.id, step.ok, id);
    }
  }

  /** A reader whose notification nobody will send waits until it is cancelled or the process
      starts again, whatever the others do. */
  lemma {:induction false} WaitsForEver(c: Config, s: State, id: nat, n: nat, steps: seq<Step>)
    requires c.size > 0 && n < s.next && Numbered(s) && Silent(s, n) && WaitsFor(s, id, n)
    requires Restart !in steps && Cancel(id) !in steps
    ensures WaitsFor(Run(c, s, steps), id, n) && Silent(Run(c, s, steps), n)
    decreases |steps|
  {
    if steps != [] {
      var front, last := steps[..|steps| - 1], steps[|steps| - 1];
      WaitsForEver(c, s, id, n, front);
      assert last in steps;
      var t := Run(c, s, front);
      RunNumbers(c, s, front);
      StillWaits(c, t, last, id, n);
      if last.Advance? {
        if last.id in t.readers { MoveSilent(c, t, last.id, last.ok, n); }
      } else {
        OtherSilent(c, t, last, n);
      }
    }
  }

  // ---- otherwise the reader can still wake

  /** How far a fetcher is from its notification. */
  function Ahead(pc: Pc): nat {
    match pc
    case Fetching => 4
    case Fetched(_) => 3
    case Written(_) => 2
    case Put(_) => 1
    case FetchFailed => 1
    case _ => 0
  }

  lemma ComesNearer(c: Config, s: State, h: nat, n: nat)
    requires c.size > 0 && Sends(s, h, n) && !s.readers[h].pc.Notify?
    ensures
      var t := Move(c, s, h, s.readers[h], true);
      Sends(t, h, n) && Ahead(t.readers[h].pc) < Ahead(s.readers[h].pc)
  {
  }

  /** The sender alone, going on, wakes it. */
  lemma {:induction false} SenderWakes(c: Config, s: State, id: nat, n: nat, h: nat) returns (steps: seq<Step>)
    requires c.size > 0 && WaitsFor(s, id, n) && Sends(s, h, n)
    ensures |steps| <= Ahead(s.readers[h].pc) + 1 && forall x | x in steps :: x == Advance(h, true)
    ensures id in Run(c, s, steps).readers && Run(c, s, steps).readers[id].pc.Woken?
    decreases Ahead(s.readers[h].pc)
  {
    var r, t := s.readers[h], Next(c, s, Advance(h, true));
    RunOne(c, s, Advance(h, true));
    ActOthers(c, s, h, true, id);
    if r.pc.Notify? {
      steps := [Advance(h, true)];
    } else {
      ComesNearer(c, s, h, n);
      var rest := SenderWakes(c, t, id, n, h);
      steps := [Advance(h, true)] + rest;
      RunAppend(c, s, [Advance(h, true)], rest);
    }
  }

  ghost predicate NeverWakes(c: Config, s: State, id: nat, n: nat)
    requires c.size > 0
  {
    forall steps: seq<Step> | Restart !in steps && Cancel(id) !in steps :: WaitsFor(Run(c, s, steps), id, n)
  }

  /** In every run, a waiting reader can never wake exactly when nobody will send its notification. */
  lemma NeverWakesExactly(c: Config, steps: seq<Step>, id: nat, n: nat)
    requires c.size > 0 && WaitsFor(Run(c, EMPTY, steps), id, n)
    ensures NeverWakes(c, Run(c, EMPTY, steps), id, n) <==> Silent(Run(c, EMPTY, steps), n)
  {
    var s := Run(c, EMPTY, steps);
    RunNumbers(c, EMPTY, steps);
    assert n < s.next by { assert NumberOf(s.readers[id].pc) == Some(n); }
    if Silent(s, n) {
      forall more: seq<Step> | Restart !in more && Cancel(id) !in more ensures WaitsFor(Run(c, s, more), id, n) {
        WaitsForEver(c, s, id, n, more);
      }
    } else {
      var h: nat :| Sends(s, h, n);
      var more := SenderWakes(c, s, id, n, h);
      assert !WaitsFor(Run(c, s, more), id, n);
    }
  }

  // ---- why nobody will send it

  /** Entries have numbers of their own, and a notification being sent belongs to none of them. */
  ghost predicate Unshared(s: State) {
    && (forall j, k | j in s.inFlight && k in s.inFlight && s.inFlight[j] == s.inFlight[k] :: j == k)
    && (forall i, k | i in s.readers && k in s.inFlight :: s.readers[i].pc.Notify? ==>
      s.readers[i].pc.n != s.inFlight[k])
  }

  lemma ActUnshared(c: Config, s: State, id: nat, ok: bool)
    requires c.size > 0 && id in s.readers && Unshared(s) && Numbered(s)
    ensures
      var (t, q) := Act(c, s, s.readers[id], ok);
      && (forall j, k | j in t.inFlight && k in t.inFlight && t.inFlight[j] == t.inFlight[k] :: j == k)
      && (q.pc.Notify? ==> forall k | k in t.inFlight :: q.pc.n != t.inFlight[k])
  {
    var r := s.readers[id];
    if r.pc.Put? || r.pc.FetchFailed? { assert Act(c, s, r, ok) == DoRemove(s, r, Carried(r.pc)); }
  }

  lemma MoveUnshared(c: Config, s: State, id: nat, ok: bool)
    requires c.size > 0 && id in s.readers && Unshared(s) && Numbered(s)
    ensures Unshared(Move(c, s, id, s.readers[id], ok))
  {
    var t := Move(c, s, id, s.readers[id], ok);
    ActUnshared(c, s, id, ok);
    forall i, k | i in t.readers && k in t.inFlight
      && t.readers[i].pc.Notify? ensures t.readers[i].pc.n != t.inFlight[k] {
      if i != id {
        ActOthers(c, s, id, ok, i);
        ActNumber(c, s, s.readers[id], ok, k);
      }
    }
  }

  lemma StepUnshared(c: Config, s: State, step: Step)
    requires c.size > 0 && Unshared(s) && Numbered(s)
    ensures Unshared(Next(c, s, step))
  {
    if step.Advance? {
      if step.id in s.readers { MoveUnshared(c, s, step.id, step.ok); }
    }
  }

  lemma {:induction false} RunUnshared(c: Config, steps: seq<Step>)
    requires c.size > 0
    ensures Unshared(Run(c, EMPTY, steps))
    decreases |steps|
  {
    if steps != [] {
      var front, last := steps[..|steps| - 1], steps[|steps| - 1];
      RunUnshared(c, front);
      RunNumbers(c, EMPTY, front);
      StepUnshared(c, Run(c, EMPTY, front), last);
    }
  }

  /** Notification `n` has been sent, or was never an entry's. */
  ghost predicate Gone(s: State, n: nat) {
    && (forall k | k in s.inFlight :: s.inFlight[k] != n)
    && (forall i | i in s.readers :: !(s.readers[i].pc.Notify? && s.readers[i].pc.n == n))
  }

  lemma OrphanSilent(s: State, id: nat, k: Key, n: nat)
    requires EntriesRight(s) && Unshared(s) && Orphans(s, id, k) && k in s.inFlight && s.inFlight[k] == n
    ensures Silent(s, n)
  {
    forall i: nat ensures !Sends(s, i, n) {
      if Sends(s, i, n) { assert Holder(s, i, Wanted(s.readers[i])); }
    }
  }

  /** In every run, nobody will send `n` exactly when it has been sent, or the fetcher that was to
      send it has been cancelled since the last restart. */
  lemma SilentExactly(c: Config, steps: seq<Step>, n: nat)
    requires c.size > 0
    ensures
      var s := Run(c, EMPTY, steps);
      Silent(s, n) <==> Gone(s, n) || exists k :: k in Cancelled(c, steps) && k in s.inFlight && s.inFlight[k] == n
  {
    var s := Run(c, EMPTY, steps);
    EmptyIsRight(c);
    RunKeeps(c, EMPTY, steps);
    RunUnshared(c, steps);
    if k :| k in Cancelled(c, steps) && k in s.inFlight && s.inFlight[k] == n {
      OrphansExactly(c, steps, k);
      var i: nat :| Orphans(s, i, k);
      OrphanSilent(s, i, k, n);
    }
    if Silent(s, n) && !Gone(s, n) {
      forall i | i in s.readers ensures !(s.readers[i].pc.Notify? && s.readers[i].pc.n == n) { assert !Sends(s, i, n); }
      var k :| k in s.inFlight && s.inFlight[k] == n;
      assert Held(s, k);
      var i: nat :| Holder(s, i, k);
      assert !Sends(s, i, n) && Orphans(s, i, k);
      OrphansExactly(c, steps, k);
    }
  }

  // ---- both happen

  /** A reader of one byte of one pack, and the block that it needs. */
  function OneByte(pc: Pc): Reader {
    Reader([], 0, 1, 0, [], pc)
  }

  const BLOCK := Key([], 0)

  /** The state of two such readers. */
  function Two(stored: map<Key, bytes>, files: map<Key, bytes>, entries: map<Key, nat>, r: Pc, q: Pc): State {
    State(stored, files, map[], entries, 1, map[0 := OneByte(r), 1 := OneByte(q)])
  }

  /** A reader starts and finds the block nowhere. */
  function Starts(id: nat): seq<Step> {
    [Start(id, [], 0, 1), Advance(id, true), Advance(id, true), Advance(id, true)]
  }

  lemma StartsRun(c: Config, s: State, id: nat)
    requires c.size > 0 && id !in s.readers && [] !in s.full && BLOCK !in s.memory && BLOCK !in s.disk
    ensures Run(c, s, Starts(id)) == s.(readers := s.readers[id := OneByte(Claim)])
  {
    var a := Next(c, s, Start(id, [], 0, 1));
    assert a == s.(readers := s.readers[id := OneByte(Begin)]);
    assert 0 / c.size == 0;
    var b := Next(c, a, Advance(id, true));
    assert b == s.(readers := s.readers[id := OneByte(Look)]);
    var d := Next(c, b, Advance(id, true));
    assert d == s.(readers := s.readers[id := OneByte(LookDisk)]);
    RunFour(c, s, Start(id, [], 0, 1), Advance(id, true), Advance(id, true), Advance(id, true));
  }

  lemma RunTwo(c: Config, s: State, a: Step, b: Step)
    requires c.size > 0
    ensures Run(c, s, [a, b]) == Next(c, Next(c, s, a), b)
  {
    assert [a, b] == [a] + [b];
    RunAppend(c, s, [a], [b]);
    RunOne(c, s, a);
    RunOne(c, Next(c, s, a), b);
  }

  lemma RunFour(c: Config, s: State, x: Step, y: Step, z: Step, w: Step)
    requires c.size > 0
    ensures Run(c, s, [x, y, z, w]) == Next(c, Next(c, Next(c, Next(c, s, x), y), z), w)
  {
    assert [x, y, z, w] == [x, y] + [z, w];
    RunAppend(c, s, [x, y], [z, w]);
    RunTwo(c, s, x, y);
    RunTwo(c, Run(c, s, [x, y]), z, w);
  }

  /** Reader 0 holds the entry, and reader 1 has found it taken. */
  const TWO_MEET: seq<Step> := Starts(0) + [Advance(0, true)] + (Starts(1) + [Advance(1, true)])

  lemma TwoMeet(c: Config)
    requires c.size > 0
    ensures Run(c, EMPTY, TWO_MEET) == Two(map[], map[], map[BLOCK := 0], Fetching, Noted(0))
  {
    StartsRun(c, EMPTY, 0);
    var a := Run(c, EMPTY, Starts(0));
    RunAppend(c, EMPTY, Starts(0), [Advance(0, true)]);
    RunOne(c, a, Advance(0, true));
    var b := State(map[], map[], map[], map[BLOCK := 0], 1, map[0 := OneByte(Fetching)]);
    assert Next(c, a, Advance(0, true)) == b;
    StartsRun(c, b, 1);
    var d := Run(c, b, Starts(1));
    RunAppend(c, b, Starts(1), [Advance(1, true)]);
    RunOne(c, d, Advance(1, true));
    RunAppend(c, EMPTY, Starts(0) + [Advance(0, true)], Starts(1) + [Advance(1, true)]);
  }

  /** The fetcher is cancelled while another reader waits for it: the wait never ends. */
  lemma CancelStrands(c: Config)
    requires c.size > 0
    ensures
      var steps := TWO_MEET + [Advance(1, true), Cancel(0)];
      var s := Run(c, EMPTY, steps);
      && Orphans(s, 0, BLOCK) && Cancelled(c, steps) == {BLOCK} && WaitsFor(s, 1, 0) && NeverWakes(c, s, 1, 0)
  {
    TwoMeet(c);
    var steps := TWO_MEET + [Advance(1, true), Cancel(0)];
    RunAppend(c, EMPTY, TWO_MEET, [Advance(1, true), Cancel(0)]);
    RunTwo(c, Run(c, EMPTY, TWO_MEET), Advance(1, true), Cancel(0));
    var s := Run(c, EMPTY, steps);
    assert s == Two(map[], map[], map[BLOCK := 0], Abandoned, Waiting(0));
    forall k ensures k in Cancelled(c, steps) <==> k == BLOCK {
      OrphansExactly(c, steps, k);
      assert Orphans(s, 0, BLOCK);
    }
    SilentExactly(c, steps, 0);
    NeverWakesExactly(c, steps, 1, 0);
  }

  lemma FirstMoves(c: Config, stored: map<Key, bytes>, files: map<Key, bytes>, entries: map<Key, nat>, r: Pc, q: Pc)
    requires c.size > 0 && !r.Notify?
    ensures
      var s := Two(stored, files, entries, r, q);
      var (t, x) := Act(c, s, OneByte(r), true);
      Next(c, s, Advance(0, true)) == t.(readers := map[0 := x, 1 := OneByte(q)])
  {
    var s := Two(stored, files, entries, r, q);
    ActReaders(c, s, OneByte(r), true);
    assert s.readers[0 := Act(c, s, OneByte(r), true).1] == map[0 := Act(c, s, OneByte(r), true).1, 1 := OneByte(q)];
  }

  const TWICE: seq<Step> := [Advance(0, true), Advance(0, true)]

  lemma FetchesFile(c: Config, q: Pc)
    requires c.size > 0
    ensures
      var data := BlockOf(c.remote([]), c.size, 0);
      Run(c, Two(map[], map[], map[BLOCK := 0], Fetching, q), TWICE) ==
        Two(map[], map[BLOCK := data], map[BLOCK := 0], Written(data), q)
  {
    var data := BlockOf(c.remote([]), c.size, 0);
    FirstMoves(c, map[], map[], map[BLOCK := 0], Fetching, q);
    FirstMoves(c, map[], map[], map[BLOCK := 0], Fetched(data), q);
    RunTwo(c, Two(map[], map[], map[BLOCK := 0], Fetching, q), Advance(0, true), Advance(0, true));
  }

  lemma FetchesEntry(c: Config, files: map<Key, bytes>, data: bytes, q: Pc)
    requires c.size > 0
    ensures Run(c, Two(map[], files, map[BLOCK := 0], Written(data), q), TWICE) ==
      Two(map[BLOCK := data], files, map[], Notify(0, Some(data)), q)
  {
    FirstMoves(c, map[], files, map[BLOCK := 0], Written(data), q);
    FirstMoves(c, map[BLOCK := data], files, map[BLOCK := 0], Put(data), q);
    assert map[BLOCK := 0] - {BLOCK} == map[];
    RunTwo(c, Two(map[], files, map[BLOCK := 0], Written(data), q), Advance(0, true), Advance(0, true));
  }

  /** The fetcher goes on to its notification. */
  const FETCH: seq<Step> := TWICE + TWICE

  lemma Fetches(c: Config, q: Pc)
    requires c.size > 0
    ensures
      var data := BlockOf(c.remote([]), c.size, 0);
      var one := map[BLOCK := data];
      Run(c, Two(map[], map[], map[BLOCK := 0], Fetching, q), FETCH) == Two(one, one, map[], Notify(0, Some(data)), q)
  {
    var data := BlockOf(c.remote([]), c.size, 0);
    RunAppend(c, Two(map[], map[], map[BLOCK := 0], Fetching, q), TWICE, TWICE);
    FetchesFile(c, q);
    FetchesEntry(c, map[BLOCK := data], data, q);
  }

  /** The notification is sent, and then the other reader waits for it. */
  lemma SentThenWaits(c: Config, stored: map<Key, bytes>, data: bytes)
    requires c.size > 0
    ensures Run(c, Two(stored, stored, map[], Notify(0, Some(data)), Noted(0)), [Advance(0, true), Advance(1, true)]) ==
      Two(stored, stored, map[], Got(data), Waiting(0))
  {
    var s := Two(stored, stored, map[], Notify(0, Some(data)), Noted(0));
    assert Signalled(s.readers, 0) == s.readers;
    assert Next(c, s, Advance(0, true)) == Two(stored, stored, map[], Got(data), Noted(0));
    RunTwo(c, s, Advance(0, true), Advance(1, true));
  }

  /** The fetcher notifies before the other reader waits: that wait never ends either, although
      nobody was cancelled and the block is in memory. */
  lemma NotificationLost(c: Config)
    requires c.size > 0
    ensures
      var s := Run(c, EMPTY, TWO_MEET + FETCH + [Advance(0, true), Advance(1, true)]);
      && s.inFlight == map[] && BLOCK in s.memory && WaitsFor(s, 1, 0) && NeverWakes(c, s, 1, 0)
  {
    var steps := TWO_MEET + FETCH + [Advance(0, true), Advance(1, true)];
    var data := BlockOf(c.remote([]), c.size, 0);
    TwoMeet(c);
    RunAppend(c, EMPTY, TWO_MEET, FETCH);
    Fetches(c, Noted(0));
    RunAppend(c, EMPTY, TWO_MEET + FETCH, [Advance(0, true), Advance(1, true)]);
    SentThenWaits(c, map[BLOCK := data], data);
    LostIsSilent(c, steps, map[BLOCK := data], data);
    NeverWakesExactly(c, steps, 1, 0);
  }

  lemma LostIsSilent(c: Config, steps: seq<Step>, stored: map<Key, bytes>, data: bytes)
    requires c.size > 0 && Run(c, EMPTY, steps) == Two(stored, stored, map[], Got(data), Waiting(0))
    ensures Silent(Run(c, EMPTY, steps), 0)
  {
    SilentExactly(c, steps, 0);
  }

  // ---- a fetch that succeeds

  /** The block is in memory, and in its file if that can be written; its entry is gone, the
      fetching reader has it, and whoever waits for the notification is awake. */
  ghost predicate Delivered(s: State, t: State, id: nat, k: Key, data: bytes, keeps: bool)
    requires k in s.inFlight
  {
    && t.memory == s.memory[k := data] && t.disk == (if keeps then s.disk[k := data] else s.disk)
    && t.inFlight == s.inFlight - {k} && t.readers.Keys == s.readers.Keys
    && id in t.readers && t.readers[id].pc == Got(data)
    && forall i | i in s.readers && i != id ::
         t.readers[i] == if s.readers[i].pc == Waiting(s.inFlight[k]) then s.readers[i].(pc := Woken) else s.readers[i]
  }

  /** The block is stored, and the reader is about to remove its entry. */
  lemma FetchStored(c: Config, s: State, id: nat, keeps: bool)
    requires c.size > 0 && id in s.readers && s.readers[id].pc.Fetching?
    ensures
      var k := Wanted(s.readers[id]);
      var data := BlockOf(c.remote(k.name), c.size, k.block);
      Next(c, Next(c, Next(c, s, Advance(id, true)), Advance(id, keeps)), Advance(id, true)) ==
        s.(memory := s.memory[k := data], disk := if keeps then s.disk[k := data] else s.disk,
           readers := s.readers[id := s.readers[id].(pc := Put(data))])
  {
    var r := s.readers[id];
    var data := BlockOf(c.remote(r.name), c.size, r.block);
    var a := Next(c, s, Advance(id, true));
    assert a == s.(readers := s.readers[id := r.(pc := Fetched(data))]);
    var b := Next(c, a, Advance(id, keeps));
    assert b.readers == s.readers[id := r.(pc := Written(data))];
    assert Next(c, b, Advance(id, true)).readers == s.readers[id := r.(pc := Put(data))];
  }

  lemma StoredNotifies(c: Config, s: State, id: nat, data: bytes)
    requires c.size > 0 && id in s.readers && s.readers[id].pc == Put(data) && Wanted(s.readers[id]) in s.inFlight
    ensures
      var k := Wanted(s.readers[id]);
      var t := Next(c, Next(c, s, Advance(id, true)), Advance(id, true));
      && t.memory == s.memory && t.disk == s.disk && t.inFlight == s.inFlight - {k} && t.readers.Keys == s.readers.Keys
      && t.readers[id].pc == Got(data)
      && forall i | i in s.readers && i != id ::
           t.readers[i] == if s.readers[i].pc == Waiting(s.inFlight[k]) then s.readers[i].(pc := Woken)
             else s.readers[i]
  {
    var k := Wanted(s.readers[id]);
    var a := Next(c, s, Advance(id, true));
    assert a.readers == s.readers[id := s.readers[id].(pc := Notify(s.inFlight[k], Some(data)))];
  }

  /** The five steps of a reader from its fetch to its notification. */
  lemma FetcherDelivers(c: Config, s: State, id: nat, keeps: bool)
    requires c.size > 0 && id in s.readers && s.readers[id].pc.Fetching? && Wanted(s.readers[id]) in s.inFlight
    ensures
      var k := Wanted(s.readers[id]);
      var b := Next(c, Next(c, Next(c, s, Advance(id, true)), Advance(id, keeps)), Advance(id, true));
      var t := Next(c, Next(c, b, Advance(id, true)), Advance(id, true));
      Delivered(s, t, id, k, BlockOf(c.remote(k.name), c.size, k.block), keeps)
  {
    var k := Wanted(s.readers[id]);
    var data := BlockOf(c.remote(k.name), c.size, k.block);
    FetchStored(c, s, id, keeps);
    var b := s.(memory := s.memory[k := data], disk := if keeps then s.disk[k := data] else s.disk,
                readers := s.readers[id := s.readers[id].(pc := Put(data))]);
    StoredNotifies(c, b, id, data);
  }
}
