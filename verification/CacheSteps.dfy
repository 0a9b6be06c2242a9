/** The block cache as interleaved steps of concurrent readers (src/cache/block.rs): every lock
    section, file access, fetch and notification is a step of its own, and between any two of
    them other readers run, blocks are evicted, fetches fail, and readers are cancelled where
    they are suspended. Each in-flight entry has a notification of its own, here a number, which
    wakes those that are waiting for it at that moment. Files arrive whole:
    block files do, being renamed into place, but a full pack is written where it is read
    (src/git/gcs_storage.rs, `write_completed_commit`), and a crash that cuts it short is left
    out. */
module CacheSteps {
  import opened Basics
  import opened Blocks

  /** A pack's file name and a block number. */
  datatype Key = Key(name: bytes, block: nat)

  /** The size of a block, and what each pack holds remotely. */
  datatype Config = Config(size: nat, remote: bytes -> bytes)

  /** Where a reader is in `read_range` and `get_or_fetch_block`. */
  datatype Pc =
    | Begin
    | Look                      // about to look in memory
    | LookDisk                  // about to read the block file
    | Claim                     // about to take the in-flight entry, or find it taken
    | Noted(n: nat)             // found it taken, with notification `n`; about to wait for that
    | Waiting(n: nat)           // for notification `n`
    | Woken                     // about to look in memory again
    | RelookDisk                // and not found there
    | Fetching                  // holds the entry
    | Fetched(data: bytes)      // about to write the block file
    | Written(data: bytes)      // about to put the block in memory
    | Put(data: bytes)          // about to remove the entry
    | FetchFailed               // about to remove the entry
    | Notify(n: nat, got: Option<bytes>)  // has removed it; about to send notification `n`
    | Got(data: bytes)          // about to add the block to the result
    | Done
    | Failed
    | Abandoned                 // cancelled while it held the entry

  datatype Reader = Reader(name: bytes, offset: nat, len: nat, block: nat, result: bytes, pc: Pc)

  datatype State = State(
    memory: map<Key, bytes>,
    disk: map<Key, bytes>,
    full: map<bytes, bytes>,
    inFlight: map<Key, nat>,
    next: nat,
    readers: map<nat, Reader>)

  datatype Step =
    | Start(id: nat, name: bytes, offset: nat, len: nat)
    | Advance(id: nat, ok: bool)
    | Cancel(id: nat)
    | Evict(key: Key)
    | LoseFile(key: Key)
    | PackArrives(name: bytes)
    | Restart

  function Wanted(r: Reader): Key {
    Key(r.name, r.block)
  }

  const EMPTY := State(map[], map[], map[], map[], 0, map[])

  // ---- one reader's own steps

  function Forget(m: map<Key, bytes>, k: Key): map<Key, bytes> {
    map j | j in m && j != k :: m[j]
  }

  /** The fast path over a whole pack on disk, or the first block. */
  function DoBegin(c: Config, s: State, r: Reader): (State, Reader)
    requires c.size > 0
  {
    if r.len == 0 then (s, r.(result := [], pc := Done))
    else if r.name in s.full then (s, r.(result := Cut(s.full[r.name], r.offset, r.offset + r.len), pc := Done))
    else (s, r.(block := r.offset / c.size, result := [], pc := Look))
  }

  /** A block file that is there and can be read goes to memory too. */
  function DoLookDisk(s: State, r: Reader, ok: bool): (State, Reader) {
    var k := Wanted(r);
    if k in s.disk && ok then (s.(memory := s.memory[k := s.disk[k]]), r.(pc := Got(s.disk[k])))
      else (s, r.(pc := Claim))
  }

  /** In memory, or `otherwise`. */
  function DoLook(s: State, r: Reader, otherwise: Pc): (State, Reader) {
    (s, r.(pc := if Wanted(r) in s.memory then Got(s.memory[Wanted(r)]) else otherwise))
  }

  function DoClaim(s: State, r: Reader): (State, Reader) {
    if Wanted(r) in s.inFlight then (s, r.(pc := Noted(s.inFlight[Wanted(r)])))
    else (s.(inFlight := s.inFlight[Wanted(r) := s.next], next := s.next + 1), r.(pc := Fetching))
  }

  /** What follows for the reader that fetched. */
  function After(got: Option<bytes>): Pc {
    match got case Some(data) => Got(data) case None => Failed
  }

  function DoRemove(s: State, r: Reader, got: Option<bytes>): (State, Reader) {
    var k := Wanted(r);
    if k in s.inFlight then (s.(inFlight := s.inFlight - {k}), r.(pc := Notify(s.inFlight[k], got)))
    else (s, r.(pc := After(got)))
  }

  /** Those who wait for notification `n` wake. */
  function Signalled(readers: map<nat, Reader>, n: nat): map<nat, Reader> {
    map i | i in readers :: if readers[i].pc == Waiting(n) then readers[i].(pc := Woken) else readers[i]
  }

  /** The block's share joins the result; a short block is the end of the pack. */
  function DoGot(c: Config, r: Reader, data: bytes): Reader
    requires c.size > 0 && r.len > 0
  {
    // the program's subtraction would underflow; no run gets here
    if r.block * c.size >= r.offset + r.len then r.(pc := Failed)
    else
      var result := r.result + Overlap(data, r.block * c.size, r.offset, r.len);
      if EndsAt(data, c.size, r.block, r.offset, r.len) then r.(result := result, pc := Done)
      else r.(block := r.block + 1, result := result, pc := Look)
  }

  /** The steps of the reader that fetches, up to the notification. */
  function DoFetch(c: Config, s: State, r: Reader, ok: bool): (State, Reader)
    requires c.size > 0
  {
    var k := Wanted(r);
    match r.pc
    case Fetching => (s, r.(pc := if ok then Fetched(BlockOf(c.remote(r.name), c.size, r.block)) else FetchFailed))
    case Fetched(data) => (if ok then s.(disk := s.disk[k := data]) else s, r.(pc := Written(data)))
    case Written(data) => (s.(memory := s.memory[k := data]), r.(pc := Put(data)))
    case Put(data) => DoRemove(s, r, Some(data))
    case FetchFailed => DoRemove(s, r, None)
    case Notify(n, got) => (s.(readers := Signalled(s.readers, n)), r.(pc := After(got)))
    case _ => (s, r)
  }

  /** The next step of one reader: what it does to the shared state, and to itself. A reader
      that wakes looks in memory, then on disk, then tries to become the fetcher. */
  function Act(c: Config, s: State, r: Reader, ok: bool): (State, Reader)
    requires c.size > 0
  {
    match r.pc
    case Begin => DoBegin(c, s, r)
    case Look => DoLook(s, r, LookDisk)
    case LookDisk => DoLookDisk(s, r, ok)
    case Claim => DoClaim(s, r)
    case Noted(n) => (s, r.(pc := Waiting(n)))
    case Woken => DoLook(s, r, RelookDisk)
    case RelookDisk => DoLookDisk(s, r, ok)
    case Got(data) => (s, if r.len == 0 then r else DoGot(c, r, data))
    case _ => DoFetch(c, s, r, ok)
  }

  function Move(c: Config, s: State, id: nat, r: Reader, ok: bool): State
    requires c.size > 0
  {
    var (t, q) := Act(c, s, r, ok);
    t.(readers := t.readers[id := q])
  }

  /** Does the reader hold the in-flight entry of its block? */
  predicate Holding(r: Reader) {
    r.pc.Fetching? || r.pc.Fetched? || r.pc.Written? || r.pc.Put? || r.pc.FetchFailed? || r.pc.Abandoned?
  }

  /** Is the reader where it can be cancelled? */
  predicate Suspended(r: Reader) {
    r.pc.Begin? || r.pc.Waiting? || r.pc.Woken? || r.pc.Fetching?
  }

  // ---- the steps of the system

  function Next(c: Config, s: State, step: Step): State
    requires c.size > 0
  {
    match step
    case Start(id, name, offset, len) =>
      if id in s.readers then s else s.(readers := s.readers[id := Reader(name, offset, len, 0, [], Begin)])
    case Advance(id, ok) => if id in s.readers then Move(c, s, id, s.readers[id], ok) else s
    case Cancel(id) =>
      if id !in s.readers || !Suspended(s.readers[id]) then s
      else s.(readers := s.readers[id := s.readers[id].(pc := if Holding(s.readers[id]) then Abandoned else Failed)])
    case Evict(key) => s.(memory := Forget(s.memory, key))
    case LoseFile(key) => s.(disk := Forget(s.disk, key))
    case PackArrives(name) => s.(full := s.full[name := c.remote(name)])
    case Restart => s.(memory := map[], inFlight := map[], readers := map[])
  }

  function Run(c: Config, s: State, steps: seq<Step>): State
    requires c.size > 0
    decreases |steps|
  {
    if steps == [] then s else Next(c, Run(c, s, steps[..|steps| - 1]), steps[|steps| - 1])
  }

  // ---- what every step keeps

  ghost predicate BlocksRight(c: Config, m: map<Key, bytes>) {
    forall k | k in m :: m[k] == BlockOf(c.remote(k.name), c.size, k.block)
  }

  ghost predicate StoresRight(c: Config, s: State) {
    BlocksRight(c, s.memory) && BlocksRight(c, s.disk) && forall name | name in s.full :: s.full[name] == c.remote(name)
  }

  function Carried(pc: Pc): Option<bytes> {
    match pc
    case Fetched(data) => Some(data)
    case Written(data) => Some(data)
    case Put(data) => Some(data)
    case Got(data) => Some(data)
    case Notify(_, got) => got
    case _ => None
  }

  /** On its way, a reader has gathered the range up to its block, and carries only its block. */
  ghost predicate Midway(c: Config, r: Reader)
    requires c.size > 0
  {
    var remote := c.remote(r.name);
    && r.len > 0 && r.block * c.size < r.offset + r.len && r.offset < r.block * c.size + c.size
    && r.result == Gathered(remote, c.size, r.block, r.offset, r.len)
    && (Carried(r.pc).Some? ==> Carried(r.pc).value == BlockOf(remote, c.size, r.block))
  }

  /** One that has ended has the range. */
  ghost predicate ReaderRight(c: Config, r: Reader)
    requires c.size > 0
  {
    if r.pc.Done? then r.result == Cut(c.remote(r.name), r.offset, r.offset + r.len)
    else r.pc.Begin? || r.pc.Failed? || r.pc.Abandoned? || Midway(c, r)
  }

  ghost predicate ReadersRight(c: Config, s: State)
    requires c.size > 0
  {
    forall id | id in s.readers :: ReaderRight(c, s.readers[id])
  }

  ghost predicate Holder(s: State, id: nat, k: Key) {
    id in s.readers && Holding(s.readers[id]) && Wanted(s.readers[id]) == k
  }

  ghost predicate Held(s: State, k: Key) {
    exists id: nat :: Holder(s, id, k)
  }

  /** An entry is in flight exactly while one reader holds it. */
  ghost predicate EntriesRight(s: State) {
    && (forall k: Key :: k in s.inFlight <==> Held(s, k))
    && (forall i: nat, j: nat, k: Key :: Holder(s, i, k) && Holder(s, j, k) ==> i == j)
  }

  ghost predicate Inv(c: Config, s: State)
    requires c.size > 0
  {
    StoresRight(c, s) && ReadersRight(c, s) && EntriesRight(s)
  }

  // ---- entries

  /** Nobody takes or releases an entry. */
  lemma EntriesKept(s: State, t: State)
    requires EntriesRight(s) && t.inFlight.Keys == s.inFlight.Keys
    requires forall i: nat, k: Key :: Holder(t, i, k) <==> Holder(s, i, k)
    ensures EntriesRight(t)
  {
    forall k: Key ensures k in t.inFlight <==> Held(t, k) {
      if Held(s, k) {
        var i: nat :| Holder(s, i, k);
        assert Holder(t, i, k);
      }
      if Held(t, k) {
        var i: nat :| Holder(t, i, k);
        assert Holder(s, i, k);
      }
    }
  }

  lemma EntryTaken(s: State, t: State, id: nat, mine: Key)
    requires EntriesRight(s) && mine !in s.inFlight && t.inFlight.Keys == s.inFlight.Keys + {mine}
    requires forall i: nat, k: Key :: Holder(t, i, k) <==> Holder(s, i, k) || (i == id && k == mine)
    ensures EntriesRight(t)
  {
    assert !Held(s, mine);
    forall k: Key ensures k in t.inFlight <==> Held(t, k) {
      if k == mine { assert Holder(t, id, k); }
      if Held(s, k) {
        var i: nat :| Holder(s, i, k);
        assert Holder(t, i, k);
      }
      if Held(t, k) {
        var i: nat :| Holder(t, i, k);
        assert Holder(s, i, k) || k == mine;
      }
    }
    forall i: nat, j: nat, k: Key | Holder(t, i, k) && Holder(t, j, k) ensures i == j {
      if k == mine { assert !Holder(s, i, k) && !Holder(s, j, k); }
    }
  }

  lemma EntryReleased(s: State, t: State, id: nat, mine: Key)
    requires EntriesRight(s) && Holder(s, id, mine) && t.inFlight.Keys == s.inFlight.Keys - {mine}
    requires forall i: nat, k: Key :: Holder(t, i, k) <==> Holder(s, i, k) && i != id
    ensures EntriesRight(t)
  {
    forall k: Key ensures k in t.inFlight <==> Held(t, k) {
      if Held(s, k) {
        var i: nat :| Holder(s, i, k);
        if k != mine { assert Holder(t, i, k); }
      }
      if Held(t, k) {
        var i: nat :| Holder(t, i, k);
        assert Holder(s, i, k);
      }
    }
  }

  // ---- one step

  lemma PutRight(c: Config, m: map<Key, bytes>, r: Reader, data: bytes)
    requires c.size > 0 && BlocksRight(c, m) && Midway(c, r) && Carried(r.pc) == Some(data)
    ensures BlocksRight(c, m[Wanted(r) := data])
  {
  }

  lemma FetchStores(c: Config, s: State, r: Reader, ok: bool)
    requires c.size > 0 && StoresRight(c, s) && ReaderRight(c, r)
    ensures StoresRight(c, DoFetch(c, s, r, ok).0)
  {
    match r.pc
    case Fetched(data) => PutRight(c, s.disk, r, data);
    case Written(data) => PutRight(c, s.memory, r, data);
    case _ =>
  }

  lemma ActStores(c: Config, s: State, r: Reader, ok: bool)
    requires c.size > 0 && StoresRight(c, s) && ReaderRight(c, r)
    ensures StoresRight(c, Act(c, s, r, ok).0)
  {
    FetchStores(c, s, r, ok);
  }

  lemma BeginRight(c: Config, s: State, r: Reader)
    requires c.size > 0 && StoresRight(c, s)
    ensures ReaderRight(c, DoBegin(c, s, r).1)
  {
    if r.len == 0 {
      assert Cut(c.remote(r.name), r.offset, r.offset) == [];
    } else if r.name !in s.full {
      var b := r.offset / c.size;
      BlockBounds(c.size, r.offset, r.len, b);
      assert Gathered(c.remote(r.name), c.size, b, r.offset, r.len) == [];
    }
  }

  lemma GotEnds(c: Config, r: Reader, data: bytes)
    requires c.size > 0 && Midway(c, r) && Carried(r.pc) == Some(data)
    requires EndsAt(data, c.size, r.block, r.offset, r.len)
    ensures DoGot(c, r, data).pc.Done? && ReaderRight(c, DoGot(c, r, data))
  {
    GatherStep(c.remote(r.name), c.size, r.block, r.offset, r.len);
    GatherEnds(c.remote(r.name), c.size, r.block, r.offset, r.len);
  }

  lemma GotGoes(c: Config, r: Reader, data: bytes)
    requires c.size > 0 && Midway(c, r) && Carried(r.pc) == Some(data)
    requires !EndsAt(data, c.size, r.block, r.offset, r.len)
    ensures Midway(c, DoGot(c, r, data))
  {
    GatherStep(c.remote(r.name), c.size, r.block, r.offset, r.len);
    BlockAfter(c.size, r.offset, r.len, r.block);
  }

  lemma GotRight(c: Config, r: Reader, data: bytes)
    requires c.size > 0 && Midway(c, r) && Carried(r.pc) == Some(data)
    ensures ReaderRight(c, DoGot(c, r, data))
  {
    if EndsAt(data, c.size, r.block, r.offset, r.len) { GotEnds(c, r, data); } else { GotGoes(c, r, data); }
  }

  lemma FetchReader(c: Config, s: State, r: Reader, ok: bool)
    requires c.size > 0 && ReaderRight(c, r)
    ensures ReaderRight(c, DoFetch(c, s, r, ok).1)
  {
  }

  lemma ActReader(c: Config, s: State, r: Reader, ok: bool)
    requires c.size > 0 && StoresRight(c, s) && ReaderRight(c, r)
    ensures ReaderRight(c, Act(c, s, r, ok).1)
  {
    match r.pc
    case Begin => BeginRight(c, s, r);
    case Got(data) => GotRight(c, r, data);
    case _ => FetchReader(c, s, r, ok);
  }

  /** A reader's step takes its entry, releases it, or does neither. */
  lemma ActEntry(c: Config, s: State, r: Reader, ok: bool)
    requires c.size > 0 && (Holding(r) ==> Wanted(r) in s.inFlight)
    ensures
      var (t, q) := Act(c, s, r, ok);
      if Holding(r) then
        Wanted(q) == Wanted(r) && t.inFlight == if Holding(q) then s.inFlight else s.inFlight - {Wanted(r)}
      else if Holding(q) then Wanted(q) !in s.inFlight && t.inFlight.Keys == s.inFlight.Keys + {Wanted(q)}
      else t.inFlight == s.inFlight
  {
  }

  lemma ActReaders(c: Config, s: State, r: Reader, ok: bool)
    requires c.size > 0
    ensures Act(c, s, r, ok).0.readers == if r.pc.Notify? then Signalled(s.readers, r.pc.n) else s.readers
  {
  }

  /** A step changes other readers only by waking those that wait for its notification. */
  lemma ActOthers(c: Config, s: State, id: nat, ok: bool, i: nat)
    requires c.size > 0 && id in s.readers && i != id
    ensures
      var r, t := s.readers[id], Move(c, s, id, s.readers[id], ok);
      && (i in t.readers <==> i in s.readers)
      && (i in t.readers ==>
            t.readers[i] == if r.pc.Notify? && s.readers[i].pc == Waiting(r.pc.n) then s.readers[i].(pc := Woken)
              else s.readers[i])
  {
    ActReaders(c, s, s.readers[id], ok);
  }

  lemma MoveEntries(c: Config, s: State, id: nat, ok: bool)
    requires c.size > 0 && id in s.readers && EntriesRight(s)
    ensures EntriesRight(Move(c, s, id, s.readers[id], ok))
  {
    var r := s.readers[id];
    var t, q := Move(c, s, id, r, ok), Act(c, s, r, ok).1;
    if Holding(r) { assert Holder(s, id, Wanted(r)); }
    ActEntry(c, s, r, ok);
    forall i: nat, k: Key | i != id ensures Holder(t, i, k) <==> Holder(s, i, k) { ActOthers(c, s, id, ok, i); }
    if Holding(q) && !Holding(r) {
      EntryTaken(s, t, id, Wanted(q));
    } else if Holding(r) && !Holding(q) {
      EntryReleased(s, t, id, Wanted(r));
    } else {
      EntriesKept(s, t);
    }
  }

  lemma MoveReaders(c: Config, s: State, id: nat, ok: bool)
    requires c.size > 0 && id in s.readers && StoresRight(c, s) && ReadersRight(c, s)
    ensures ReadersRight(c, Move(c, s, id, s.readers[id], ok))
  {
    var t := Move(c, s, id, s.readers[id], ok);
    ActReader(c, s, s.readers[id], ok);
    forall i | i in t.readers ensures ReaderRight(c, t.readers[i]) {
      if i != id {
        ActOthers(c, s, id, ok, i);
        assert ReaderRight(c, s.readers[i]);
      }
    }
  }

  lemma MoveKeeps(c: Config, s: State, id: nat, ok: bool)
    requires c.size > 0 && id in s.readers && Inv(c, s)
    ensures Inv(c, Move(c, s, id, s.readers[id], ok))
  {
    assert ReaderRight(c, s.readers[id]);
    ActStores(c, s, s.readers[id], ok);
    MoveReaders(c, s, id, ok);
    MoveEntries(c, s, id, ok);
  }

  /** Readers start without an entry, and cancelled ones keep theirs. */
  lemma ReaderSet(s: State, t: State, id: nat, r: Reader)
    requires EntriesRight(s) && t.readers == s.readers[id := r] && t.inFlight == s.inFlight
    requires if id in s.readers then Wanted(r) == Wanted(s.readers[id]) && (Holding(r) <==> Holding(s.readers[id]))
      else !Holding(r)
    ensures EntriesRight(t)
  {
    forall i: nat, k: Key ensures Holder(t, i, k) <==> Holder(s, i, k) {}
    EntriesKept(s, t);
  }

  lemma SameReaders(s: State, t: State)
    requires EntriesRight(s) && t.readers == s.readers && t.inFlight == s.inFlight
    ensures EntriesRight(t)
  {
    forall i: nat, k: Key ensures Holder(t, i, k) <==> Holder(s, i, k) {}
    EntriesKept(s, t);
  }

  lemma CancelKeeps(c: Config, s: State, id: nat)
    requires c.size > 0 && Inv(c, s)
    ensures Inv(c, Next(c, s, Cancel(id)))
  {
    var t := Next(c, s, Cancel(id));
    if t != s { ReaderSet(s, t, id, t.readers[id]); }
  }

  /** Every step of every reader, and every step of the surroundings, keeps the invariant. */
  lemma StepKeeps(c: Config, s: State, step: Step)
    requires c.size > 0 && Inv(c, s)
    ensures Inv(c, Next(c, s, step))
  {
    var t := Next(c, s, step);
    match step
    case Start(id, name, offset, len) => if id !in s.readers { ReaderSet(s, t, id, t.readers[id]); }
    case Advance(id, ok) => if id in s.readers { MoveKeeps(c, s, id, ok); }
    case Cancel(id) => CancelKeeps(c, s, id);
    case Evict(_) => SameReaders(s, t);
    case LoseFile(_) => SameReaders(s, t);
    case PackArrives(_) => SameReaders(s, t);
    case Restart =>
  }

  lemma {:induction false} RunKeeps(c: Config, s: State, steps: seq<Step>)
    requires c.size > 0 && Inv(c, s)
    ensures Inv(c, Run(c, s, steps))
    decreases |steps|
  {
    if steps != [] {
      RunKeeps(c, s, steps[..|steps| - 1]);
      StepKeeps(c, Run(c, s, steps[..|steps| - 1]), steps[|steps| - 1]);
    }
  }

  // ---- what callers see

  lemma EmptyIsRight(c: Config)
    requires c.size > 0
    ensures Inv(c, EMPTY)
  {
    forall k: Key ensures !Held(EMPTY, k) {}
  }

  /** However the steps interleave, a read that ends without error has the bytes of the remote
      pack, as many as there are; stored blocks are remote blocks; and a block is being fetched
      by at most one reader, which is the one that holds its entry. */
  lemma ReadsAgreeWithRemote(c: Config, steps: seq<Step>)
    requires c.size > 0
    ensures
      var s := Run(c, EMPTY, steps);
      && StoresRight(c, s)
      && (forall id | id in s.readers && s.readers[id].pc.Done? ::
            s.readers[id].result == Cut(c.remote(s.readers[id].name), s.readers[id].offset, s.readers[id].offset +
              s.readers[id].len))
      && (forall k: Key :: k in s.inFlight <==> Held(s, k))
      && (forall i: nat, j: nat, k: Key :: Holder(s, i, k) && Holder(s, j, k) ==> i == j)
  {
    EmptyIsRight(c);
    RunKeeps(c, EMPTY, steps);
    var s := Run(c, EMPTY, steps);
    forall id | id in s.readers && s.readers[id].pc.Done?
      ensures s.readers[id].result == Cut(c.remote(s.readers[id].name), s.readers[id].offset, s.readers[id].offset +
        s.readers[id].len)
    {
      assert ReaderRight(c, s.readers[id]);
    }
  }
}
