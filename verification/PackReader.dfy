/** Unpacking a whole packfile: parse every record, then resolve deltas in passes until none
    is left or a pass resolves nothing (src/git/pack.rs). */
module PackReader {
  import opened Basics
  import opened Numbers
  import opened Zlib
  import opened PackFormat
  import opened PackResolve
  import Delta

  datatype PackError = Malformed | BadDelta | MissingBases(left: nat)

  // ---- parsing

  /** The loop that reads the size header: type number, declared size, where the body starts. */
  method ParseSize(pack: bytes, start: nat) returns (r: Option<(nat, nat, nat)>)
    requires start < |pack|
    ensures r == match ReadSize(pack[start..]) case None => None case Some((k, size, n)) => Some((k, size, start + n))
  {
    var c := pack[start];
    var number: nat, size: nat := c / 16 % 8, c % 16;
    assert pack[start..][0] == c;
    if c < 128 { return Some((number, size, start + 1)); }
    assert pack[start + 1..] == pack[start..][1..];
    var high := DecodeVarint(pack, start + 1);
    if high.None? { return None; }
    return Some((number, size + 16 * high.value.0, high.value.1));
  }

  /** What follows the header, by type. */
  method ParseBody(z: Zlib, pack: bytes, number: nat, pos: nat) returns (r: Option<(Record, nat)>)
    requires pos <= |pack|
    ensures r == match ReadBody(z, number, pack[pos..]) case None => None case Some((x, n)) => Some((x, pos + n))
  {
    if number == 6 {
      var distance := DecodeDistance(pack, pos);
      if distance.None? { return None; }
      var at := distance.value.1;
      assert pack[at..] == pack[pos..][at - pos..];
      var delta := z.inflate(pack[at..]);
      if delta.None? { return None; }
      return Some((OfsDelta(distance.value.0, delta.value.0), at + delta.value.1));
    } else if number == 7 {
      if pos + 20 > |pack| { return None; }
      assert pack[pos..pos + 20] == pack[pos..][..20];
      assert pack[pos + 20..] == pack[pos..][20..];
      var delta := z.inflate(pack[pos + 20..]);
      if delta.None? { return None; }
      return Some((RefDelta(pack[pos..pos + 20], delta.value.0), pos + 20 + delta.value.1));
    } else if KindOf(number).Some? {
      var data := z.inflate(pack[pos..]);
      if data.None? { return None; }
      return Some((Whole(Obj(KindOf(number).value, data.value.0)), pos + data.value.1));
    } else {
      return None;
    }
  }

  /** One record, read at `start`; the size it declares is decoded and not compared. */
  method ParseRecord(z: Zlib, pack: bytes, start: nat) returns (r: Option<(Record, nat)>)
    requires Lawful(z) && start < |pack|
    ensures r == match ReadRecord(z, pack[start..]) case None => None case Some((x, n)) => Some((x, start + n))
    ensures r.Some? ==> start < r.value.1 <= |pack|
  {
    var head := ParseSize(pack, start);
    if head.None? { return None; }
    var (number, _, pos) := head.value;
    r := ParseBody(z, pack, number, pos);
    assert pack[pos..] == pack[start..][pos - start..];
    if r.Some? { RecordTakes(z, pack[start..]); }
  }

  // ---- the state of resolution

  /** The ids of the resolved objects, each naming one of them. */
  ghost predicate ShaOk(h: Hash, got: map<nat, Obj>, bySha: map<Oid, Obj>) {
    && (forall off | off in got :: h(got[off]) in bySha)
    && (forall sha | sha in bySha :: h(bySha[sha]) == sha && bySha[sha] in got.Values)
  }

  /** Each record of `rs` is resolved or waiting; none is both, and what waits is a delta. */
  ghost predicate Split(rs: Records, got: map<nat, Obj>, waiting: Records) {
    && (forall i: nat | i < |rs| :: rs[i].0 in got || rs[i] in waiting)
    && (forall r | r in waiting :: r in rs && !r.1.Whole? && r.0 !in got)
    && DistinctOffsets(waiting)
  }

  lemma ShaAdd(h: Hash, got: map<nat, Obj>, bySha: map<Oid, Obj>, off: nat, o: Obj)
    requires ShaOk(h, got, bySha) && off !in got
    ensures ShaOk(h, got[off := o], bySha[h(o) := o])
  {
    var got2, bySha2 := got[off := o], bySha[h(o) := o];
    assert got2[off] == o;
    forall sha | sha in bySha2 ensures h(bySha2[sha]) == sha && bySha2[sha] in got2.Values {
      if sha != h(o) {
        var at :| at in got && got[at] == bySha[sha];
        assert got2[at] == bySha2[sha];
      }
    }
  }

  lemma SoundAdd(h: Hash, rs: Records, got: map<nat, Obj>, i: nat, o: Obj)
    requires Sound(h, rs, got) && i < |rs| && Stands(h, rs, i, o)
    ensures Sound(h, rs, got[rs[i].0 := o])
  {
  }

  /** The base that a waiting record names, if it is resolved already. */
  method FindBase(h: Hash, ghost rs: Records, ghost i: nat, item: (nat, Record), got: map<nat, Obj>,
                  bySha: map<Oid, Obj>)
    returns (b: Option<Obj>)
    requires DistinctOffsets(rs) && Sound(h, rs, got) && ShaOk(h, got, bySha)
    requires i < |rs| && rs[i] == item && !item.1.Whole?
    ensures b.None? <==> Blocked(h, rs, got, i)
    ensures b.Some? ==> HasBase(h, rs, i, b.value)
  {
    match item.1
    case OfsDelta(distance, _) =>
      if distance <= item.0 && item.0 - distance in got {
        b := Some(got[item.0 - distance]);
        ghost var j: nat :| j < |rs| && rs[j].0 == item.0 - distance && Stands(h, rs, j, b.value);
        assert IsBase(h, rs, i, j, b.value);
      } else {
        b := None;
      }
    case RefDelta(sha, _) =>
      if sha in bySha {
        b := Some(bySha[sha]);
        ghost var off :| off in got && got[off] == b.value;
        ghost var j: nat :| j < |rs| && rs[j].0 == off && Stands(h, rs, j, b.value);
        assert IsBase(h, rs, i, j, b.value);
      } else {
        b := None;
      }
    case Whole(_) => assert false;
  }

  datatype Attempt = Waits | Fails | Gives(obj: Obj)

  /** One delta against what is resolved so far. */
  method TryDelta(h: Hash, ghost rs: Records, ghost i: nat, item: (nat, Record), got: map<nat, Obj>,
                  bySha: map<Oid, Obj>)
    returns (t: Attempt)
    requires DistinctOffsets(rs) && Sound(h, rs, got) && ShaOk(h, got, bySha)
    requires i < |rs| && rs[i] == item && !item.1.Whole?
    ensures t.Waits? <==> Blocked(h, rs, got, i)
    ensures t.Fails? ==> SomeMisfit(h, rs)
    ensures t.Gives? ==> Stands(h, rs, i, t.obj)
  {
    var b := FindBase(h, rs, i, item, got, bySha);
    if b.None? { return Waits; }
    var data := Delta.ApplyGitDelta(b.value.data, item.1.delta);
    if data.None? {
      assert Misfit(rs, i, b.value);
      return Fails;
    }
    BaseStands(h, rs, i, b.value, Obj(b.value.kind, data.value));
    return Gives(Obj(b.value.kind, data.value));
  }

  lemma SplitResolved(rs: Records, got: map<nat, Obj>, remaining: Records, rest: Records, o: Obj)
    requires rest != [] && Split(rs, got, remaining + rest)
    ensures Split(rs, got[rest[0].0 := o], remaining + rest[1..])
  {
    var all, less := remaining + rest, remaining + rest[1..];
    assert forall r :: r in all <==> r in less || r == rest[0];
    forall k | 0 <= k < |less| ensures less[k].0 != rest[0].0 {
      if k < |remaining| { assert less[k] == all[k] && all[|remaining|] == rest[0]; }
      else { assert less[k] == all[k + 1] && all[|remaining|] == rest[0]; }
    }
    forall j, k | 0 <= j < k < |less| ensures less[j].0 != less[k].0 {
      var j2, k2 := if j < |remaining| then j else j + 1, if k < |remaining| then k else k + 1;
      assert less[j] == all[j2] && less[k] == all[k2];
    }
  }

  lemma SplitKept(rs: Records, got: map<nat, Obj>, remaining: Records, rest: Records)
    requires rest != [] && Split(rs, got, remaining + rest)
    ensures Split(rs, got, (remaining + [rest[0]]) + rest[1..])
  {
    assert (remaining + [rest[0]]) + rest[1..] == remaining + rest;
  }

  /** What a pass has found blocked stays so while nothing is resolved. */
  ghost predicate AllBlocked(h: Hash, rs: Records, got: map<nat, Obj>, waiting: Records) {
    forall i: nat | i < |rs| && rs[i] in waiting :: Blocked(h, rs, got, i)
  }

  lemma BlockedToo(h: Hash, rs: Records, got: map<nat, Obj>, waiting: Records, i: nat)
    requires DistinctOffsets(rs) && i < |rs| && Blocked(h, rs, got, i)
    ensures AllBlocked(h, rs, got, waiting) ==> AllBlocked(h, rs, got, waiting + [rs[i]])
  {
    forall j: nat | AllBlocked(h, rs, got, waiting) && j < |rs|
      && rs[j] in waiting + [rs[i]] ensures Blocked(h, rs, got, j) {
      if rs[j] !in waiting { assert j == i; }
    }
  }

  /** What has been resolved, and the deltas still waiting. */
  datatype Progress = Progress(got: map<nat, Obj>, bySha: map<Oid, Obj>)

  ghost predicate Resolving(h: Hash, rs: Records, p: Progress, waiting: Records) {
    DistinctOffsets(rs) && Sound(h, rs, p.got) && ShaOk(h, p.got, p.bySha) && Split(rs, p.got, waiting)
  }

  function Resolved(h: Hash, p: Progress, off: nat, o: Obj): Progress {
    Progress(p.got[off := o], p.bySha[h(o) := o])
  }

  lemma ResolvedKeeps(h: Hash, rs: Records, p: Progress, remaining: Records, rest: Records, i: nat, o: Obj)
    requires rest != [] && Resolving(h, rs, p, remaining + rest) && i < |rs| && rs[i] == rest[0] && Stands(h, rs, i, o)
    ensures Resolving(h, rs, Resolved(h, p, rest[0].0, o), remaining + rest[1..])
  {
    assert rest[0] in remaining + rest;
    SplitResolved(rs, p.got, remaining, rest, o);
    SoundAdd(h, rs, p.got, i, o);
    ShaAdd(h, p.got, p.bySha, rest[0].0, o);
  }

  /** The first of the waiting deltas is resolved, fails, or joins those that remain. */
  method ResolveOne(h: Hash, ghost rs: Records, p: Progress, remaining: Records, rest: Records)
    returns (ok: bool, q: Progress, left: Records)
    requires rest != [] && Resolving(h, rs, p, remaining + rest)
    ensures !ok ==> SomeMisfit(h, rs)
    ensures ok ==> Resolving(h, rs, q, left + rest[1..])
    ensures ok ==> left == remaining || left == remaining + [rest[0]]
    ensures left != remaining ==> q == p && (AllBlocked(h, rs, p.got, remaining) ==> AllBlocked(h, rs, q.got, left))
  {
    assert rest[0] in remaining + rest;
    ghost var i: nat :| i < |rs| && rs[i] == rest[0];
    var t := TryDelta(h, rs, i, rest[0], p.got, p.bySha);
    match t
    case Fails =>
      return false, p, remaining;
    case Gives(o) =>
      ResolvedKeeps(h, rs, p, remaining, rest, i, o);
      return true, Resolved(h, p, rest[0].0, o), remaining;
    case Waits =>
      SplitKept(rs, p.got, remaining, rest);
      BlockedToo(h, rs, p.got, remaining, i);
      return true, p, remaining + [rest[0]];
  }

  /** One pass over the waiting deltas, in order; what it resolves serves those after it. */
  method ResolvePass(h: Hash, ghost rs: Records, p: Progress, pending: Records)
    returns (ok: bool, q: Progress, remaining: Records)
    requires Resolving(h, rs, p, pending)
    ensures !ok ==> SomeMisfit(h, rs)
    ensures ok ==> Resolving(h, rs, q, remaining) && |remaining| <= |pending|
    ensures ok && |remaining| == |pending| ==> AllBlocked(h, rs, q.got, remaining)
  {
    ok, q, remaining := true, p, [];
    var rest := pending;
    assert [] + pending == pending;
    while rest != []
      invariant Resolving(h, rs, q, remaining + rest)
      invariant |remaining| + |rest| <= |pending|
      invariant |remaining| + |rest| == |pending| ==> AllBlocked(h, rs, q.got, remaining)
    {
      ok, q, remaining := ResolveOne(h, rs, q, remaining, rest);
      if !ok { return; }
      rest := rest[1..];
    }
    assert remaining + [] == remaining;
  }

  /** The meaning of each outcome, for a pack whose objects have distinct ids. */
  ghost predicate Outcome(h: Hash, rs: Records, r: Result<map<Oid, Obj>, PackError>) {
    match r
    case Ok(m) => AllStand(h, rs) && !SomeMisfit(h, rs) && HoldsAll(h, rs, m)
    case Err(MissingBases(n)) => !AllStand(h, rs) && !SomeMisfit(h, rs) && n > 0
    case Err(BadDelta) => SomeMisfit(h, rs) && !AllStand(h, rs)
    case Err(Malformed) => false
  }

  /** `m` maps the id of each object that some record stands for to it, and nothing else. */
  ghost predicate HoldsAll(h: Hash, rs: Records, m: map<Oid, Obj>) {
    && (forall i: nat, o: Obj | Stands(h, rs, i, o) :: h(o) in m && m[h(o)] == o)
    && (forall sha | sha in m :: h(m[sha]) == sha && exists i: nat :: Stands(h, rs, i, m[sha]))
  }

  lemma MisfitDoesNotStand(h: Hash, rs: Records)
    requires DistinctOffsets(rs) && NoCollision(h, rs) && SomeMisfit(h, rs)
    ensures !AllStand(h, rs)
  {
    if AllStand(h, rs) { StandOrMisfit(h, rs); }
  }

  lemma AllHeld(h: Hash, rs: Records, p: Progress)
    requires NoCollision(h, rs) && Resolving(h, rs, p, [])
    ensures AllStand(h, rs) && HoldsAll(h, rs, p.bySha)
  {
    forall i: nat | i < |rs| ensures Grounded(h, rs, i) { SoundAt(h, rs, p.got, i); }
    forall sha | sha in p.bySha ensures h(p.bySha[sha]) == sha && exists i: nat :: Stands(h, rs, i, p.bySha[sha]) {
      var off :| off in p.got && p.got[off] == p.bySha[sha];
    }
    forall i: nat, o: Obj | Stands(h, rs, i, o) ensures h(o) in p.bySha && p.bySha[h(o)] == o {
      var k: nat :| Derived(h, rs, i, o, k);
      SoundAt(h, rs, p.got, i);
      StandsOnce(h, rs, i, o, p.got[rs[i].0]);
    }
  }

  lemma NothingMore(h: Hash, rs: Records, p: Progress, waiting: Records)
    requires NoCollision(h, rs) && Resolving(h, rs, p, waiting)
    requires waiting != [] && AllBlocked(h, rs, p.got, waiting)
    ensures !AllStand(h, rs) && !SomeMisfit(h, rs)
  {
    assert Saturated(h, rs, p.got);
    SaturatedFits(h, rs, p.got);
    assert waiting[0] in rs;
    var i: nat :| i < |rs| && rs[i] == waiting[0];
    LeftOut(h, rs, p.got, i);
  }

  /** The passes: they end, because each either resolves a delta or is the last. */
  method ResolveAll(h: Hash, ghost rs: Records, start: Progress, deltas: Records)
    returns (r: Result<map<Oid, Obj>, PackError>)
    requires Resolving(h, rs, start, deltas)
    ensures NoCollision(h, rs) ==> Outcome(h, rs, r)
    ensures r.Ok? ==> forall sha | sha in r.value :: h(r.value[sha]) == sha
    ensures r.Err? ==> !r.error.Malformed?
  {
    var p, pending := start, deltas;
    while pending != []
      invariant Resolving(h, rs, p, pending)
      decreases |pending|
    {
      var ok, q, remaining := ResolvePass(h, rs, p, pending);
      if !ok {
        if NoCollision(h, rs) { MisfitDoesNotStand(h, rs); }
        return Err(BadDelta);
      }
      if |remaining| == |pending| {
        if NoCollision(h, rs) { NothingMore(h, rs, q, remaining); }
        return Err(MissingBases(|remaining|));
      }
      p, pending := q, remaining;
    }
    if NoCollision(h, rs) {
      AllHeld(h, rs, p);
      StandOrMisfit(h, rs);
    }
    return Ok(p.bySha);
  }

  // ---- the whole pack

  /** Every record read so far lies before `pos`; whole objects are in, deltas wait. */
  ghost predicate Loaded(h: Hash, done: Records, p: Progress, deltas: Records, pos: nat) {
    && (forall i | 0 <= i < |done| :: done[i].0 < pos)
    && DistinctOffsets(done)
    && ShaOk(h, p.got, p.bySha) && Split(done, p.got, deltas)
    && (forall off | off in p.got :: (off, Whole(p.got[off])) in done)
  }

  lemma LoadedResolves(h: Hash, rs: Records, p: Progress, deltas: Records, pos: nat)
    requires Loaded(h, rs, p, deltas, pos)
    ensures Resolving(h, rs, p, deltas)
  {
    forall off | off in p.got ensures exists i: nat :: i < |rs| && rs[i].0 == off && Stands(h, rs, i, p.got[off]) {
      var i: nat :| i < |rs| && rs[i] == (off, Whole(p.got[off]));
      WholeStands(h, rs, i);
    }
  }

  lemma AppendDistinct(rs: Records, pos: nat, r: Record)
    requires DistinctOffsets(rs) && forall i | 0 <= i < |rs| :: rs[i].0 < pos
    ensures DistinctOffsets(rs + [(pos, r)])
  {
  }

  lemma LoadWhole(h: Hash, done: Records, p: Progress, deltas: Records, pos: nat, o: Obj, next: nat)
    requires Loaded(h, done, p, deltas, pos) && pos < next
    ensures Loaded(h, done + [(pos, Whole(o))], Resolved(h, p, pos, o), deltas, next)
  {
    var done2, got2 := done + [(pos, Whole(o))], p.got[pos := o];
    AppendDistinct(done, pos, Whole(o));
    forall off | off in p.got ensures off < pos { assert (off, Whole(p.got[off])) in done; }
    ShaAdd(h, p.got, p.bySha, pos, o);
    forall r | r in deltas ensures r in done2 && !r.1.Whole? && r.0 !in got2 { assert r in done; }
    forall off | off in got2 ensures (off, Whole(got2[off])) in done2 {
      if off != pos { assert (off, Whole(p.got[off])) in done; } else { assert done2[|done|] == (off, Whole(o)); }
    }
  }

  lemma LoadDelta(h: Hash, done: Records, p: Progress, deltas: Records, pos: nat, r: Record, next: nat)
    requires Loaded(h, done, p, deltas, pos) && pos < next && !r.Whole?
    ensures Loaded(h, done + [(pos, r)], p, deltas + [(pos, r)], next)
  {
    var done2, deltas2 := done + [(pos, r)], deltas + [(pos, r)];
    AppendDistinct(done, pos, r);
    forall k | 0 <= k < |deltas| ensures deltas[k].0 < pos { assert deltas[k] in done; }
    AppendDistinct(deltas, pos, r);
    forall off | off in p.got ensures off < pos { assert (off, Whole(p.got[off])) in done; }
    assert done2[|done|] == (pos, r) && deltas2[|deltas|] == (pos, r);
    forall i: nat | i < |done2| ensures done2[i].0 in p.got || done2[i] in deltas2 {
      if i < |done| { assert done[i].0 in p.got || done[i] in deltas; }
    }
    forall x | x in deltas2 ensures x in done2 && !x.1.Whole? && x.0 !in p.got {
      if x in deltas { assert x in done; }
    }
    forall off | off in p.got ensures (off, Whole(p.got[off])) in done2 { assert (off, Whole(p.got[off])) in done; }
  }

  /** What the rest of the pack adds to the records read. */
  function Followed(done: Records, more: Option<seq<(nat, Record)>>): Option<Records> {
    match more case None => None case Some(rs) => Some(done + rs)
  }

  lemma FollowedMore(done: Records, r: (nat, Record), more: Option<seq<(nat, Record)>>)
    ensures Followed(done, match more case None => None case Some(rs) => Some([r] + rs)) == Followed(done + [r], more)
  {
    if more.Some? { assert done + ([r] + more.value) == done + [r] + more.value; }
  }

  lemma FollowedStep(read: RecordReader, pack: bytes, pos: nat, n: nat, done: Records, r: Record, next: nat)
    requires n > 0 && pos < next && pos < |pack| && read(pack[pos..]) == Some((r, next - pos))
    ensures Followed(done, ReadRecords(read, pack, pos, n)) ==
      if r.OfsDelta? && r.distance > pos then None
      else Followed(done + [(pos, r)], ReadRecords(read, pack, next, n - 1))
  {
    FollowedMore(done, (pos, r), ReadRecords(read, pack, next, n - 1));
  }

  /** A record read at `pos` goes in at once when whole, and waits when a delta. */
  method LoadRecord(h: Hash, ghost done: Records, p: Progress, deltas: Records, pos: nat, r: Record, next: nat)
    returns (q: Progress, deltas2: Records)
    requires Loaded(h, done, p, deltas, pos) && pos < next
    ensures Loaded(h, done + [(pos, r)], q, deltas2, next)
  {
    if r.Whole? {
      LoadWhole(h, done, p, deltas, pos, r.obj, next);
      return Resolved(h, p, pos, r.obj), deltas;
    } else {
      LoadDelta(h, done, p, deltas, pos, r, next);
      return p, deltas + [(pos, r)];
    }
  }

  /** What the parse still makes of the pack, with `left` records to go. */
  ghost function Outlook(read: RecordReader, pack: bytes, done: Records, pos: nat, left: nat): Option<Records> {
    Followed(done, ReadRecords(read, pack, pos, left))
  }

  lemma OutlookStart(read: RecordReader, pack: bytes, n: nat)
    ensures Outlook(read, pack, [], 12, n) == ReadRecords(read, pack, 12, n)
  {
    var all := ReadRecords(read, pack, 12, n);
    assert all.Some? ==> [] + all.value == all.value;
  }

  lemma OutlookEnd(read: RecordReader, pack: bytes, done: Records, pos: nat)
    ensures Outlook(read, pack, done, pos, 0) == Some(done)
  {
    assert done + [] == done;
  }

  /** One turn of the parsing loop. */
  method LoadNext(z: Zlib, h: Hash, pack: bytes, ghost done: Records, p: Progress, deltas: Records, pos: nat,
                  ghost left: nat)
    returns (ok: bool, next: nat, q: Progress, deltas2: Records, ghost done2: Records)
    requires Lawful(z) && left > 0 && Loaded(h, done, p, deltas, pos)
    ensures ok ==> Loaded(h, done2, q, deltas2, next)
    ensures Outlook(Reader(z), pack, done, pos, left) == if ok
      then Outlook(Reader(z), pack, done2, next, left - 1) else None
  {
    ok, next, q, deltas2, done2 := false, pos, p, deltas, done;
    if pos >= |pack| { return; }
    var parsed := ParseRecord(z, pack, pos);
    if parsed.None? { return; }
    var (r, end) := parsed.value;
    FollowedStep(Reader(z), pack, pos, left, done, r, end);
    if r.OfsDelta? && r.distance > pos { return; }
    q, deltas2 := LoadRecord(h, done, p, deltas, pos, r, end);
    ok, next, done2 := true, end, done + [(pos, r)];
  }

  /** The parsing loop: each stream's consumed length leads to the next header. */
  method Load(z: Zlib, h: Hash, pack: bytes, n: nat)
    returns (ok: bool, p: Progress, deltas: Records, ghost rs: Records)
    requires Lawful(z)
    ensures ReadRecords(Reader(z), pack, 12, n) == if ok then Some(rs) else None
    ensures ok ==> Resolving(h, rs, p, deltas)
  {
    var pos, left := 12, n;
    ok, p, deltas, rs := true, Progress(map[], map[]), [], [];
    ghost var all := ReadRecords(Reader(z), pack, 12, n);
    OutlookStart(Reader(z), pack, n);
    while ok && left > 0
      invariant ok ==> Loaded(h, rs, p, deltas, pos)
      invariant all == if ok then Outlook(Reader(z), pack, rs, pos, left) else None
    {
      ok, pos, p, deltas, rs := LoadNext(z, h, pack, rs, p, deltas, pos, left);
      left := left - 1;
    }
    if ok {
      OutlookEnd(Reader(z), pack, rs, pos);
      LoadedResolves(h, rs, p, deltas, pos);
    }
  }

  /** `unpack_packfile`: malformed bytes are an error; else the outcome says which records
      stand, and a map of every object under its own id. */
  method UnpackPackfile(z: Zlib, h: Hash, pack: bytes) returns (r: Result<map<Oid, Obj>, PackError>)
    requires Lawful(z)
    ensures r == Err(Malformed) <==> RecordsOf(z, pack) == None
    ensures RecordsOf(z, pack).Some? && NoCollision(h, RecordsOf(z, pack).value) ==>
      Outcome(h, RecordsOf(z, pack).value, r)
    ensures r.Ok? ==> forall sha | sha in r.value :: h(r.value[sha]) == sha
  {
    if |pack| < 12 || pack[0..4] != MAGIC { return Err(Malformed); }
    var version := FromBe32(pack[4..8]);
    if version != 2 && version != 3 { return Err(Malformed); }
    var ok, p, deltas, rs := Load(z, h, pack, FromBe32(pack[8..12]));
    if !ok { return Err(Malformed); }
    r := ResolveAll(h, rs, p, deltas);
  }
}
