/** Recovery, publishing and session start as the steps of one server over shared storage
    (src/wal/mod.rs, src/git/gcs_storage.rs, src/main.rs). The server may crash between any two
    steps, an operation may fail instead of ending, a failure may pass for an answer where the
    program lets it, and an append that a server has sent may still arrive after it is gone. */
module Publishing {
  import opened Basics
  import opened Wal

  /** A commit by how it was made: the tree it was built over, the parent it names, the logs that
      were replayed, with the entries read from each, and its time, which only grows: how many
      commits the branch had named. */
  datatype Commit = Initial | Commit(over: Commit, parent: Commit, replayed: Replayed, time: nat)

  type Replayed = seq<(nat, seq<Payload>)>

  /** A log: the base that its header names, once written, and the entries in it. */
  datatype Log = Log(base: Option<Commit>, entries: seq<Payload>, sealed: bool)

  /** A done marker: the commit made, or that replaying over `root` changed nothing. */
  datatype Mark = Made(commit: Commit) | Nothing(root: Commit, replayed: Replayed)

  datatype Store = Store(
    logs: map<nat, Log>,
    done: map<nat, Mark>,
    packs: set<Commit>,
    idxs: set<Commit>,
    branch: Commit,
    published: set<Commit>)    // every commit that the branch has named

  /** What the server does next. `logs` are sequence numbers, `k` how many are dealt with. */
  datatype Phase =
    | Starting
    | Sealing                                          // the active log, before a commit
    | Listing
    | Locking(logs: seq<nat>, k: nat)
    | Checking(logs: seq<nat>, k: nat, pending: seq<nat>)
    | Reading(pending: seq<nat>, parent: Commit, replayed: Replayed)
    | Building(pending: seq<nat>, parent: Commit, replayed: Replayed)
    | PutPack(pending: seq<nat>, commit: Commit)
    | PutIdx(pending: seq<nat>, commit: Commit)
    | PutHead(pending: seq<nat>, commit: Commit)
    | PutRef(pending: seq<nat>, commit: Commit)
    | PutInfo(pending: seq<nat>, commit: Commit)
    | Marking(pending: seq<nat>, mark: Mark, k: nat)
    | Allocating
    | Opening
    | Heading                                          // the new log's header
    | Running

  datatype Mode = Booting | Committing(shutdown: bool)

  datatype Server = Server(root: Commit, base: Commit, active: nat, writer: bool, mode: Mode, phase: Phase)

  datatype State = State(store: Store, server: Option<Server>)

  datatype Step =
    | Start
    | Go
    | Ask(shutdown: bool)             // begin a commit
    | Append(log: nat, entry: Payload)
    | Miss                            // a failed lockout, or a failed look for a done marker
    | Fail
    | Crash

  /** Does replaying these logs over that tree leave anything to commit? */
  type Changes = (Commit, Replayed) -> bool

  // ---- sequences of log numbers

  function LogNumbers(logs: map<nat, Log>): seq<nat> {
    Ascending(logs.Keys)
  }

  /** The members of `s` in order. */
  function Ascending(s: set<nat>): (r: seq<nat>)
    ensures forall n :: n in r <==> n in s
    ensures forall i, j | 0 <= i < j < |r| :: r[i] < r[j]
    decreases |s|
  {
    if s == {} then []
    else
      var top := Top(s);
      assert s == (s - {top}) + {top};
      Appended(Ascending(s - {top}), s - {top}, top);
      Ascending(s - {top}) + [top]
  }

  lemma Appended(r: seq<nat>, s: set<nat>, top: nat)
    requires (forall n :: n in r <==> n in s) && (forall n | n in s :: n < top)
    requires forall i, j | 0 <= i < j < |r| :: r[i] < r[j]
    ensures forall n :: n in r + [top] <==> n in s + {top}
    ensures forall i, j | 0 <= i < j < |r + [top]| :: (r + [top])[i] < (r + [top])[j]
  {
    forall i, j | 0 <= i < j < |r + [top]| ensures (r + [top])[i] < (r + [top])[j] {
      assert r[i] in r;
    }
  }

  lemma TopExists(s: set<nat>)
    requires s != {}
    ensures exists m: nat :: m in s && forall n | n in s :: n <= m
    decreases |s|
  {
    var x: nat :| x in s;
    if s != {x} {
      TopExists(s - {x});
      var m: nat :| m in s - {x} && forall n | n in s - {x} :: n <= m;
      var top: nat := if x < m then m else x;
      forall n | n in s ensures n <= top { assert n == x || n in s - {x}; }
      assert top in s;
    }
  }

  function Top(s: set<nat>): (m: nat)
    requires s != {}
    ensures m in s && forall n | n in s :: n <= m
  {
    TopExists(s);
    var m: nat :| m in s && forall n | n in s :: n <= m;
    m
  }

  // ---- the server's steps

  /** Recovery has ended, over `root`: a starting server allocates a log number, one that has
      committed takes the next. */
  function AfterRecovery(v: Server, root: Commit, base: Commit): Option<Server> {
    match v.mode
    case Booting => Some(v.(root := root, base := base, phase := Allocating))
    case Committing(true) => None
    case Committing(false) => Some(v.(root := root, base := base, active := v.active + 1, phase := Opening))
  }

  function Seal(logs: map<nat, Log>, n: nat): map<nat, Log> {
    if n in logs then logs[n := logs[n].(sealed := true)] else logs
  }

  function To(st: Store, v: Server, p: Phase): State {
    State(st, Some(v.(phase := p)))
  }

  function DoChecking(st: Store, v: Server, logs: seq<nat>, k: nat, pending: seq<nat>): State {
    if k < |logs| then To(st, v, Checking(logs, k + 1, if logs[k] in st.done then pending else pending + [logs[k]]))
    else if pending == [] then State(st, AfterRecovery(v, v.root, v.base))
    else To(st, v, Reading(pending, v.base, []))
  }

  /** The parent that reading the logs `ns` comes to, from `parent`. */
  function LastBase(logs: map<nat, Log>, ns: seq<nat>, parent: Commit): Commit {
    if ns == [] then parent
    else LastBase(logs, ns[1..], if ns[0] in logs then logs[ns[0]].base.GetOr(parent) else parent)
  }

  function DoReading(st: Store, v: Server, pending: seq<nat>, parent: Commit, replayed: Replayed): State {
    if |replayed| < |pending| then
      var n := pending[|replayed|];
      if n !in st.logs then State(st, Some(v))
      else To(st, v, Reading(pending, st.logs[n].base.GetOr(parent), replayed + [(n, st.logs[n].entries)]))
    else To(st, v, Building(pending, parent, replayed))
  }

  function DoMarking(st: Store, v: Server, pending: seq<nat>, mark: Mark, k: nat): State {
    if k < |pending| then To(st.(done := st.done[pending[k] := mark]), v, Marking(pending, mark, k + 1))
    else
      match mark
      case Made(c) => State(st, AfterRecovery(v, c, c))
      case Nothing(_, _) => State(st, AfterRecovery(v, v.root, v.base))
  }

  function Advance(changes: Changes, st: Store, v: Server): State {
    match v.phase
    case Starting => To(st, v.(root := st.branch, base := st.branch), Listing)
    case Sealing => To(if v.writer then st.(logs := Seal(st.logs, v.active)) else st, v.(writer := false), Listing)
    case Listing =>
      if LogNumbers(st.logs) == [] then State(st, AfterRecovery(v, v.root, v.base))
      else To(st, v, Locking(LogNumbers(st.logs), 0))
    case Locking(logs, k) =>
      if k < |logs| then To(st.(logs := Seal(st.logs, logs[k])), v, Locking(logs, k + 1))
        else To(st, v, Checking(logs, 0, []))
    case Checking(logs, k, pending) => DoChecking(st, v, logs, k, pending)
    case Reading(pending, parent, replayed) => DoReading(st, v, pending, parent, replayed)
    case Building(pending, parent, replayed) =>
      if changes(v.root, replayed) then To(st, v, PutPack(pending, Commit(v.root, parent, replayed, |st.published|)))
      else To(st, v, Marking(pending, Nothing(v.root, replayed), 0))
    case PutPack(pending, c) => To(st.(packs := st.packs + {c}), v, PutIdx(pending, c))
    case PutIdx(pending, c) => To(st.(idxs := st.idxs + {c}), v, PutHead(pending, c))
    case PutHead(pending, c) => To(st, v, PutRef(pending, c))
    case PutRef(pending, c) => To(st.(branch := c, published := st.published + {c}), v, PutInfo(pending, c))
    case PutInfo(pending, c) => To(st, v, Marking(pending, Made(c), 0))
    case Marking(pending, mark, k) => DoMarking(st, v, pending, mark, k)
    case Allocating => To(st, v.(active := if st.logs.Keys == {} then 0 else Top(st.logs.Keys) + 1), Opening)
    case Opening => To(st.(logs := st.logs[v.active := Log(None, [], false)]), v, Heading)
    case Heading =>
      if v.active in st.logs then
        To(st.(logs := st.logs[v.active := st.logs[v.active].(base := Some(v.base))]), v.(writer := true), Running)
      else State(st, Some(v))
    case Running => State(st, Some(v))
  }

  /** A failed step ends a starting server and one that shuts down; a running one goes on with
      the tree it had, and without a log to write to. */
  function Failed(v: Server): Option<Server> {
    match v.mode
    case Booting => if v.phase.Running? then Some(v) else None
    case Committing(true) => None
    case Committing(false) => if v.phase.Running? then Some(v) else Some(v.(writer := false, phase := Running))
  }

  /** A lockout that fails is only noted, and a marker that cannot be looked up counts as
      missing (src/wal/gcs.rs, `lockout_zombies` and `is_log_done`). */
  function Missed(st: Store, v: Server): State {
    match v.phase
    case Locking(logs, k) => if k < |logs| then To(st, v, Locking(logs, k + 1)) else State(st, Some(v))
    case Checking(logs, k, pending) =>
      if k < |logs| then To(st, v, Checking(logs, k + 1, pending + [logs[k]])) else State(st, Some(v))
    case _ => State(st, Some(v))
  }

  function Next(changes: Changes, s: State, step: Step): State {
    match step
    case Start => if s.server.Some? then s else s.(server := Some(Server(Initial, Initial, 0, false, Booting,
      Starting)))
    case Go => if s.server.None? then s else Advance(changes, s.store, s.server.value)
    case Ask(shutdown) =>
      if s.server.Some? && s.server.value.phase.Running? then
        s.(server := Some(s.server.value.(mode := Committing(shutdown), phase := Sealing)))
      else s
    case Append(n, entry) =>
      if n in s.store.logs && !s.store.logs[n].sealed then
        s.(store := s.store.(logs := s.store.logs[n := s.store.logs[n].(entries := s.store.logs[n].entries + [entry])]))
      else s
    case Miss => if s.server.None? then s else Missed(s.store, s.server.value)
    case Fail => if s.server.None? then s else s.(server := Failed(s.server.value))
    case Crash => s.(server := None)
  }

  function Run(changes: Changes, s: State, steps: seq<Step>): State
    decreases |steps|
  {
    if steps == [] then s else Next(changes, Run(changes, s, steps[..|steps| - 1]), steps[|steps| - 1])
  }

  /** A repository with one commit and no logs. */
  const FRESH := State(Store(map[], map[], {Initial}, {Initial}, Initial, {Initial}), None)

  // ---- what every step keeps

  function ReplayedOf(mark: Mark): Replayed {
    match mark case Made(c) => (if c.Commit? then c.replayed else []) case Nothing(_, replayed) => replayed
  }

  /** Log `n` was read for `replayed`: the entries it had then. When lockouts are `firm`, it is
      sealed and they are all it has. */
  ghost predicate ReadFor(firm: bool, st: Store, n: nat, replayed: Replayed) {
    && n in st.logs
    && (exists es :: (n, es) in replayed)
    && (forall es | (n, es) in replayed :: es <= st.logs[n].entries)
    && (firm ==> st.logs[n].sealed && (n, st.logs[n].entries) in replayed)
  }

  ghost predicate MarkRight(changes: Changes, firm: bool, st: Store, n: nat, mark: Mark) {
    match mark
    case Made(c) => c in st.published && c.Commit? && ReadFor(firm, st, n, c.replayed)
    case Nothing(root, replayed) => !changes(root, replayed) && ReadFor(firm, st, n, replayed)
  }

  ghost predicate MarksRight(changes: Changes, firm: bool, st: Store) {
    forall n | n in st.done :: MarkRight(changes, firm, st, n, st.done[n])
  }

  /** Whatever the branch has named has its pack and its index uploaded. */
  ghost predicate PublishedRight(st: Store) {
    st.branch in st.published && st.published <= st.packs && st.published <= st.idxs
  }

  /** The logs exist, and the first `k` are sealed when lockouts are firm. */
  ghost predicate Locked(firm: bool, st: Store, logs: seq<nat>, k: nat) {
    && k <= |logs| && (forall n | n in logs :: n in st.logs)
    && (firm ==> forall i | 0 <= i < k :: st.logs[logs[i]].sealed)
  }

  ghost predicate AllRead(firm: bool, st: Store, pending: seq<nat>, replayed: Replayed) {
    forall n | n in pending :: ReadFor(firm, st, n, replayed)
  }

  /** Nothing was read that the logs do not hold. */
  ghost predicate NoneBeyond(st: Store, replayed: Replayed) {
    forall n, es | (n, es) in replayed :: n in st.logs && es <= st.logs[n].entries
  }

  ghost predicate CommitReady(firm: bool, st: Store, pending: seq<nat>, c: Commit) {
    c.Commit? && AllRead(firm, st, pending, c.replayed)
  }

  ghost predicate PhaseRight(changes: Changes, firm: bool, st: Store, p: Phase) {
    match p
    case Locking(logs, k) => Locked(firm, st, logs, k) && forall i, j | 0 <= i < j < |logs| :: logs[i] < logs[j]
    case Checking(logs, k, pending) => k <= |logs| && Locked(firm, st, logs, |logs|)
      && Locked(firm, st, pending, |pending|)
    case Reading(pending, _, replayed) =>
      && Locked(firm, st, pending, |pending|) && |replayed| <= |pending|
      && AllRead(firm, st, pending[..|replayed|], replayed) && NoneBeyond(st, replayed)
    case Building(pending, _, replayed) => AllRead(firm, st, pending, replayed)
    case PutPack(pending, c) => CommitReady(firm, st, pending, c)
    case PutIdx(pending, c) => CommitReady(firm, st, pending, c) && c in st.packs
    case PutHead(pending, c) => CommitReady(firm, st, pending, c) && c in st.packs && c in st.idxs
    case PutRef(pending, c) => CommitReady(firm, st, pending, c) && c in st.packs && c in st.idxs
    case PutInfo(pending, c) => CommitReady(firm, st, pending, c) && c in st.published
    case Marking(pending, mark, k) => forall n | n in pending :: MarkRight(changes, firm, st, n, mark)
    case _ => true
  }

  /** Every log number is at most `top`, or below it. */
  ghost predicate UpTo(st: Store, top: int) {
    forall n | n in st.logs :: n <= top
  }

  /** A server that has its log, or is committing, has the highest number. */
  ghost predicate NumberRight(st: Store, v: Server) {
    match v.phase
    case Starting => v.mode.Booting?
    case Opening => UpTo(st, v.active - 1)
    case Heading => UpTo(st, v.active) && v.active in st.logs
    case Running => UpTo(st, v.active)
    case Sealing => UpTo(st, v.active)
    case Allocating => v.mode.Booting?
    case _ => v.mode.Booting? || UpTo(st, v.active)
  }

  ghost predicate Inv(changes: Changes, firm: bool, s: State) {
    && MarksRight(changes, firm, s.store) && PublishedRight(s.store)
    && (s.server.Some? ==>
      PhaseRight(changes, firm, s.store, s.server.value.phase) && NumberRight(s.store, s.server.value))
  }

  /** A lockout fails on a log that is not sealed. */
  predicate Slips(s: State, step: Step) {
    step.Miss? && s.server.Some? && match s.server.value.phase
                                    case Locking(logs, k) =>
                                      k < |logs| && logs[k] in s.store.logs && !s.store.logs[logs[k]].sealed
                                    case _ => false
  }

  ghost predicate NeverSlips(changes: Changes, steps: seq<Step>)
    decreases |steps|
  {
    steps != [] ==>
      var front := steps[..|steps| - 1];
      NeverSlips(changes, front) && !Slips(Run(changes, FRESH, front), steps[|steps| - 1])
  }

  /** What the log holds is what was replayed for its done marker. */
  ghost predicate Whole(st: Store, n: nat)
    requires n in st.done
  {
    n in st.logs && (n, st.logs[n].entries) in ReplayedOf(st.done[n])
  }

  /** Nothing is lost from shared storage: logs only grow, sealed ones do not change, and what
      was published or uploaded stays. */
  ghost predicate LogGrown(a: Log, b: Log) {
    a.entries <= b.entries && (a.sealed ==> b.sealed && b.entries == a.entries)
  }

  ghost predicate Grown(s: Store, t: Store) {
    && (forall n | n in s.logs :: n in t.logs && LogGrown(s.logs[n], t.logs[n]))
    && s.packs <= t.packs && s.idxs <= t.idxs && s.published <= t.published
  }
}
