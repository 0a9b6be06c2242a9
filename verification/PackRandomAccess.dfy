/** Reading one object by its id or place, resolving its delta chain by recursion
    (src/git/gcs_storage.rs, `read_object_raw` and `read_pack_object`). The recursion may not
    end: here it is given a number of calls, and says when they did not suffice. */
module PackRandomAccess {
  import opened Basics
  import opened Zlib
  import opened PackFormat
  import opened PackPlaces
  import opened LooseObjects
  import PackReader
  import Numbers
  import Delta

  // ---- what reading starts from

  /** The packs, what their indexes know (the length of the object at an offset; where the first
      index that lists an id has it, with a length), what loose files hold (`LooseFrom`), and the object cache. */
  datatype Storage = Storage(
    packs: map<bytes, bytes>,
    lengthAt: (bytes, nat) -> Option<nat>,
    find: Oid -> Option<(bytes, nat, nat)>,
    loose: Oid -> Option<Obj>,
    cache: map<Oid, Obj>)

  /** A place in a pack, and how long the object there is taken to be. */
  datatype Spot = Spot(pack: bytes, offset: nat, guess: nat)

  function WindowAt(st: Storage, p: Spot): bytes {
    if p.pack in st.packs then Window(st.packs[p.pack], p.offset, p.guess) else []
  }

  /** The base's type, and the result of the delta. */
  function Patch(base: Option<Obj>, delta: bytes): Option<Obj> {
    match base
    case None => None
    case Some(b) =>
      match Delta.Apply(b.data, delta)
      case None => None
      case Some(data) => Some(Obj(b.kind, data))
  }

  /** An id's object without reading a pack, or where a pack has it. */
  datatype Found = Known(obj: Option<Obj>) | Listed(spot: Spot)

  function Locate(st: Storage, oid: Oid): Found {
    if oid in st.cache then Known(Some(st.cache[oid]))
    else if |oid| != 20 then Known(None)
    else
      match st.find(oid)
      case Some((pack, offset, length)) => Listed(Spot(pack, offset, length))
      case None => Known(st.loose(oid))
  }

  // ---- one call

  /** What one call does: it ends, or goes on to the base of a delta. */
  datatype Turn = Ends(result: Option<Obj>) | Goes(base: Spot, delta: bytes)

  function Follow(read: RecordReader, st: Storage, p: Spot): Turn {
    var w := WindowAt(st, p);
    FollowRecord(st, p, RecordIn(read, w), DeclaredSize(w))
  }

  /** The record at the start of a window. */
  function RecordIn(read: RecordReader, w: bytes): Option<Record> {
    match read(w) case None => None case Some((r, _)) => Some(r)
  }

  function FollowRecord(st: Storage, p: Spot, r: Option<Record>, size: nat): Turn {
    match r
    case None => Ends(None)
    case Some(Whole(o)) => Ends(Some(o))
    case Some(OfsDelta(distance, delta)) =>
      if distance > p.offset then Ends(None)
      else
        var base := p.offset - distance;
        Goes(Spot(p.pack, base, st.lengthAt(p.pack, base).GetOr(size)), delta)
    case Some(RefDelta(sha, delta)) =>
      match Locate(st, sha)
      case Known(o) => Ends(Patch(o, delta))
      case Listed(q) => Goes(q, delta)
  }

  /** The delta applied to what reading the base gave, if that ended. */
  function PatchRead(base: Option<Option<Obj>>, delta: bytes): Option<Option<Obj>> {
    match base case None => None case Some(b) => Some(Patch(b, delta))
  }

  /** The result of reading at `p`, an object or an error; None when `calls` calls do not
      suffice. */
  function ReadWithin(read: RecordReader, st: Storage, p: Spot, calls: nat): Option<Option<Obj>>
    decreases calls
  {
    if calls == 0 then None
    else
      match Follow(read, st, p)
      case Ends(r) => Some(r)
      case Goes(q, delta) => PatchRead(ReadWithin(read, st, q, calls - 1), delta)
  }

  function RawWithin(read: RecordReader, st: Storage, oid: Oid, calls: nat): Option<Option<Obj>> {
    match Locate(st, oid)
    case Known(o) => Some(o)
    case Listed(p) => ReadWithin(read, st, p, calls)
  }

  /** In which order an id is looked for: what the cache holds is the result; an id that is not 20
      bytes long is an error; what an index lists is read from that pack; and only what none lists
      is read from its loose file, which may be missing or corrupt. */
  lemma WhereFound(read: RecordReader, st: Storage, files: Oid -> Option<bytes>, oid: Oid, calls: nat)
    requires st.loose == LooseFrom(files)
    ensures oid in st.cache ==> RawWithin(read, st, oid, calls) == Some(Some(st.cache[oid]))
    ensures oid !in st.cache && |oid| != 20 ==> RawWithin(read, st, oid, calls) == Some(None)
    ensures oid !in st.cache && |oid| == 20 && st.find(oid).Some? ==>
      var (pack, offset, length) := st.find(oid).value;
      RawWithin(read, st, oid, calls) == ReadWithin(read, st, Spot(pack, offset, length), calls)
    ensures oid !in st.cache && |oid| == 20 && st.find(oid).None? && files(oid).None? ==>
      RawWithin(read, st, oid, calls) == Some(None)
    ensures oid !in st.cache && |oid| == 20 && st.find(oid).None? && files(oid).Some? ==>
      RawWithin(read, st, oid, calls) == Some(ParseLoose(files(oid).value))
  {
  }

  /** More calls change no result. */
  lemma {:induction false} MoreCalls(read: RecordReader, st: Storage, p: Spot, calls: nat, more: nat)
    requires ReadWithin(read, st, p, calls).Some? && calls <= more
    ensures ReadWithin(read, st, p, more) == ReadWithin(read, st, p, calls)
    decreases calls
  {
    var t := Follow(read, st, p);
    if t.Goes? { MoreCalls(read, st, t.base, calls - 1, more - 1); }
  }

  /** There is one result at most. */
  lemma OneResult(read: RecordReader, st: Storage, p: Spot, calls: nat, others: nat)
    requires ReadWithin(read, st, p, calls).Some? && ReadWithin(read, st, p, others).Some?
    ensures ReadWithin(read, st, p, others) == ReadWithin(read, st, p, calls)
  {
    if calls <= others { MoreCalls(read, st, p, calls, others); } else { MoreCalls(read, st, p, others, calls); }
  }

  // ---- the chain of bases

  /** The place after `n` turns; None when the reading has ended before. */
  function Nth(read: RecordReader, st: Storage, p: Spot, n: nat): Option<Spot>
    decreases n
  {
    if n == 0 then Some(p)
    else
      match Nth(read, st, p, n - 1)
      case None => None
      case Some(q) =>
        match Follow(read, st, q)
        case Ends(_) => None
        case Goes(b, _) => Some(b)
  }

  /** The `n`-th place is there, and the reading ends at it. */
  predicate EndsAt(read: RecordReader, st: Storage, p: Spot, n: nat) {
    Nth(read, st, p, n).Some? && Follow(read, st, Nth(read, st, p, n).value).Ends?
  }

  lemma {:induction false} NthShift(read: RecordReader, st: Storage, p: Spot, n: nat)
    requires Follow(read, st, p).Goes?
    ensures Nth(read, st, p, n + 1) == Nth(read, st, Follow(read, st, p).base, n)
  {
    if n > 0 { NthShift(read, st, p, n - 1); }
  }

  lemma EndsShift(read: RecordReader, st: Storage, p: Spot, n: nat)
    requires Follow(read, st, p).Goes?
    ensures EndsAt(read, st, p, n + 1) <==> EndsAt(read, st, Follow(read, st, p).base, n)
  {
    NthShift(read, st, p, n);
  }

  /** `calls` calls suffice when the chain ends within as many turns. */
  lemma {:induction false} SufficeIf(read: RecordReader, st: Storage, p: Spot, n: nat, calls: nat)
    requires EndsAt(read, st, p, n) && n < calls
    ensures ReadWithin(read, st, p, calls).Some?
    decreases n
  {
    var t := Follow(read, st, p);
    if n > 0 {
      NthBefore(read, st, p, 1, n);
      assert Nth(read, st, p, 1).Some? && Nth(read, st, p, 0) == Some(p);
      EndsShift(read, st, p, n - 1);
      SufficeIf(read, st, t.base, n - 1, calls - 1);
    }
  }

  lemma {:induction false} SufficeOnlyIf(read: RecordReader, st: Storage, p: Spot, calls: nat) returns (n: nat)
    requires ReadWithin(read, st, p, calls).Some?
    ensures EndsAt(read, st, p, n) && n < calls
    decreases calls
  {
    var t := Follow(read, st, p);
    if t.Ends? {
      n := 0;
    } else {
      n := SufficeOnlyIf(read, st, t.base, calls - 1);
      EndsShift(read, st, p, n);
      n := n + 1;
    }
  }

  lemma {:induction false} NthBefore(read: RecordReader, st: Storage, p: Spot, m: nat, n: nat)
    requires Nth(read, st, p, n).Some? && m <= n
    ensures Nth(read, st, p, m).Some? && (m < n ==> Follow(read, st, Nth(read, st, p, m).value).Goes?)
    decreases n
  {
    if m < n - 1 { NthBefore(read, st, p, m, n - 1); }
  }

  // ---- chains that come back

  predicate SamePlace(p: Spot, q: Spot) { p.pack == q.pack && p.offset == q.offset }

  /** At one place there is one delta, however long it is taken to be. */
  ghost predicate Steady(read: RecordReader, st: Storage) {
    forall p: Spot, q: Spot :: SteadyAt(read, st, p, q)
  }

  predicate SteadyAt(read: RecordReader, st: Storage, p: Spot, q: Spot) {
    SamePlace(p, q) && Follow(read, st, p).Goes? && Follow(read, st, q).Goes? ==>
      Follow(read, st, p) == Follow(read, st, q)
  }

  lemma ReaderSteady(z: Zlib, st: Storage)
    requires Lawful(z)
    ensures Steady(Reader(z), st)
  {
    forall p: Spot, q: Spot ensures SteadyAt(Reader(z), st, p, q) {
      if |WindowAt(st, p)| <= |WindowAt(st, q)| { WiderSteady(z, st, p, q); } else { WiderSteady(z, st, q, p); }
    }
  }

  lemma WiderSteady(z: Zlib, st: Storage, p: Spot, q: Spot)
    requires Lawful(z) && |WindowAt(st, p)| <= |WindowAt(st, q)|
    ensures SteadyAt(Reader(z), st, p, q) && SteadyAt(Reader(z), st, q, p)
  {
    if SamePlace(p, q) && Follow(Reader(z), st, p).Goes? && Follow(Reader(z), st, q).Goes? {
      ReaderAdvances(z);
      GoesReads(Reader(z), st, p);
      GoesReads(Reader(z), st, q);
      SameRecord(z, st.packs[p.pack], p.offset, p.guess, q.guess);
    }
  }

  lemma GoesReads(read: RecordReader, st: Storage, p: Spot)
    requires Advances(read) && Follow(read, st, p).Goes?
    ensures read(WindowAt(st, p)).Some? && p.pack in st.packs && p.offset < |st.packs[p.pack]|
  {
  }

  /** The places `i` and `j` of the chain are one, and the delta there can be read again. */
  ghost predicate Repeats(read: RecordReader, st: Storage, p: Spot, i: nat, j: nat) {
    && i < j && Nth(read, st, p, i).Some? && Nth(read, st, p, j).Some?
    && SamePlace(Nth(read, st, p, i).value, Nth(read, st, p, j).value)
    && Follow(read, st, Nth(read, st, p, j).value).Goes?
  }

  /** The chain comes back to a place where it has been, and goes on from there. */
  ghost predicate ComesBack(read: RecordReader, st: Storage, p: Spot) {
    exists i: nat, j: nat :: Repeats(read, st, p, i, j)
  }

  /** From there on it goes round. */
  lemma {:induction false} GoesRound(read: RecordReader, st: Storage, p: Spot, i: nat, j: nat, m: nat)
    requires Steady(read, st) && Repeats(read, st, p, i, j)
    ensures Nth(read, st, p, i + 1 + m) == Nth(read, st, p, j + 1 + m)
  {
    if m == 0 {
      var a, b := Nth(read, st, p, i).value, Nth(read, st, p, j).value;
      NthBefore(read, st, p, i, j);
      assert SteadyAt(read, st, a, b);
    } else {
      GoesRound(read, st, p, i, j, m - 1);
    }
  }

  lemma {:induction false} AlwaysThere(read: RecordReader, st: Storage, p: Spot, i: nat, j: nat, n: nat)
    requires Steady(read, st) && Repeats(read, st, p, i, j)
    ensures Nth(read, st, p, n).Some?
    decreases n
  {
    if n <= j {
      NthBefore(read, st, p, n, j);
    } else if n > j + 1 {
      AlwaysThere(read, st, p, i, j, n - (j - i));
      GoesRound(read, st, p, i, j, n - j - 1);
    }
  }

  lemma ComingBackNeverEnds(read: RecordReader, st: Storage, p: Spot, calls: nat)
    requires Steady(read, st) && ComesBack(read, st, p)
    ensures ReadWithin(read, st, p, calls) == None
  {
    var i: nat, j: nat :| Repeats(read, st, p, i, j);
    if ReadWithin(read, st, p, calls).Some? {
      var n := SufficeOnlyIf(read, st, p, calls);
      AlwaysThere(read, st, p, i, j, n + 1);
    }
  }

  // ---- other chains end

  /** Every place in the packs. */
  function PlacesOf(st: Storage): set<(bytes, nat)> {
    set pack, offset | pack in st.packs && 0 <= offset < |st.packs[pack]| :: (pack, offset)
  }

  lemma GoesFromPlace(read: RecordReader, st: Storage, p: Spot)
    requires Advances(read) && Follow(read, st, p).Goes?
    ensures (p.pack, p.offset) in PlacesOf(st)
  {
    GoesReads(read, st, p);
  }

  /** Distinct members of a set are no more than it has. */
  lemma {:induction false} DistinctFit<T>(s: seq<T>, all: set<T>)
    requires (forall i, j | 0 <= i < j < |s| :: s[i] != s[j]) && forall x | x in s :: x in all
    ensures |s| <= |all|
    decreases |s|
  {
    if s != [] {
      var front, last := s[..|s| - 1], s[|s| - 1];
      forall x | x in front ensures x in all - {last} {
        var i :| 0 <= i < |front| && front[i] == x;
        assert s[i] in s;
      }
      DistinctFit(front, all - {last});
      assert last in s && |all - {last}| == |all| - 1;
    }
  }

  /** While nothing has ended, the chain goes on. */
  lemma {:induction false} GoesOn(read: RecordReader, st: Storage, p: Spot, n: nat)
    requires forall m: nat | m < n :: !EndsAt(read, st, p, m)
    ensures Nth(read, st, p, n).Some?
  {
    if n > 0 {
      GoesOn(read, st, p, n - 1);
      assert !EndsAt(read, st, p, n - 1);
    }
  }

  ghost function PlaceOf(read: RecordReader, st: Storage, p: Spot, n: nat): (bytes, nat)
    requires Nth(read, st, p, n).Some?
  {
    (Nth(read, st, p, n).value.pack, Nth(read, st, p, n).value.offset)
  }

  /** A chain that does not come back ends: it cannot have been in more places than there are. */
  lemma EndsSomewhere(read: RecordReader, st: Storage, p: Spot) returns (n: nat)
    requires Advances(read) && !ComesBack(read, st, p)
    ensures EndsAt(read, st, p, n) && n <= |PlacesOf(st)|
  {
    var most := |PlacesOf(st)|;
    if !exists m: nat :: m <= most && EndsAt(read, st, p, m) {
      forall m: nat | m <= most ensures Nth(read, st, p, m).Some? { GoesOn(read, st, p, m); }
      var s := seq(most + 1, m requires 0 <= m <= most => PlaceOf(read, st, p, m));
      forall i, j | 0 <= i < j < |s| ensures s[i] != s[j] {
        assert !Repeats(read, st, p, i, j) && !EndsAt(read, st, p, j);
      }
      forall x | x in s ensures x in PlacesOf(st) {
        var m: nat :| m < |s| && s[m] == x;
        assert !EndsAt(read, st, p, m);
        GoesFromPlace(read, st, Nth(read, st, p, m).value);
      }
      DistinctFit(s, PlacesOf(st));
      assert false;
    }
    n :| n <= most && EndsAt(read, st, p, n);
  }

  /** The program's recursion, through deltas by distance and by id and from pack to pack, ends
      exactly when its chain does not come back to a place whose delta can be read again; then
      one call more than there are bytes suffices. */
  lemma ReadEnds(z: Zlib, st: Storage, p: Spot)
    requires Lawful(z)
    ensures (exists calls: nat :: ReadWithin(Reader(z), st, p, calls).Some?) <==> !ComesBack(Reader(z), st, p)
    ensures !ComesBack(Reader(z), st, p) ==> ReadWithin(Reader(z), st, p, |PlacesOf(st)| + 1).Some?
  {
    if ComesBack(Reader(z), st, p) {
      ReaderSteady(z, st);
      forall calls: nat ensures ReadWithin(Reader(z), st, p, calls) == None {
        ComingBackNeverEnds(Reader(z), st, p, calls);
      }
    } else {
      ReaderAdvances(z);
      var n := EndsSomewhere(Reader(z), st, p);
      SufficeIf(Reader(z), st, p, n, |PlacesOf(st)| + 1);
    }
  }

  // ---- the cache

  /** `cache` is that of `st` and objects that reading by their ids gives. */
  ghost predicate Fills(read: RecordReader, st: Storage, cache: map<Oid, Obj>, calls: nat) {
    && (forall oid | oid in st.cache :: oid in cache && cache[oid] == st.cache[oid])
    && (forall oid | oid in cache && oid !in st.cache :: RawWithin(read, st, oid, calls) == Some(Some(cache[oid])))
  }

  lemma FillsMore(read: RecordReader, st: Storage, cache: map<Oid, Obj>, calls: nat, more: nat)
    requires Fills(read, st, cache, calls) && calls <= more
    ensures Fills(read, st, cache, more)
  {
    forall oid | oid in cache && oid !in st.cache ensures RawWithin(read, st, oid, more) == Some(Some(cache[oid])) {
      if Locate(st, oid).Listed? { MoreCalls(read, st, Locate(st, oid).spot, calls, more); }
    }
  }

  /** What the cache has taken in changes no result. */
  lemma {:induction false} CacheKeepsResults(read: RecordReader, st: Storage, cache: map<Oid, Obj>, filled: nat,
                                             p: Spot,
                                             calls: nat)
    requires Fills(read, st, cache, filled) && ReadWithin(read, st, p, calls).Some?
    ensures ReadWithin(read, st.(cache := cache), p, calls) == ReadWithin(read, st, p, calls)
    decreases calls
  {
    var st2 := st.(cache := cache);
    assert WindowAt(st2, p) == WindowAt(st, p);
    var t, x := Follow(read, st, p), RecordIn(read, WindowAt(st, p));
    if t.Goes? && Follow(read, st2, p).Goes? {
      CacheKeepsResults(read, st, cache, filled, t.base, calls - 1);
    } else if x.Some? && x.value.RefDelta? && x.value.base in cache && x.value.base !in st.cache {
      assert RawWithin(read, st, x.value.base, filled) == Some(Some(cache[x.value.base]));
      if t.Goes? { OneResult(read, st, t.base, calls - 1, filled); }
    }
  }

  // ---- the program

  /** What reading gives once the record at the place has been read. */
  function Resolved(read: RecordReader, st: Storage, r: Record, size: nat, p: Spot, calls: nat): Option<Option<Obj>> {
    match r
    case Whole(o) => Some(Some(o))
    case OfsDelta(distance, delta) =>
      if distance > p.offset then Some(None)
      else
        var at := p.offset - distance;
        PatchRead(ReadWithin(read, st, Spot(p.pack, at, st.lengthAt(p.pack, at).GetOr(size)), calls), delta)
    case RefDelta(sha, delta) => PatchRead(RawWithin(read, st, sha, calls), delta)
  }

  lemma OneTurn(read: RecordReader, st: Storage, p: Spot, calls: nat)
    requires calls > 0
    ensures
      var w := WindowAt(st, p);
      ReadWithin(read, st, p, calls) ==
      match RecordIn(read, w) case None => Some(None) case Some(r) => Resolved(read, st, r, DeclaredSize(w), p,
        calls - 1)
  {
  }

  /** The delta applied to what reading the base gave. */
  method PatchObject(base: Option<Option<Obj>>, delta: bytes) returns (r: Option<Option<Obj>>)
    ensures r == PatchRead(base, delta)
  {
    if base.None? { return None; }
    if base.value.None? { return Some(None); }
    var data := Delta.ApplyGitDelta(base.value.value.data, delta);
    if data.None? { return Some(None); }
    return Some(Some(Obj(base.value.value.kind, data.value)));
  }

  /** What follows the header of a delta by distance: the distance and the delta. */
  method ParseOfs(z: Zlib, w: bytes, pos: nat) returns (r: Option<(nat, bytes)>)
    requires pos <= |w|
    ensures r.None? ==> ReadBody(z, 6, w[pos..]) == None
    ensures r.Some? ==> exists n :: ReadBody(z, 6, w[pos..]) == Some((OfsDelta(r.value.0, r.value.1), n))
  {
    var d := Numbers.DecodeDistance(w, pos);
    if d.None? { return None; }
    var (distance, at) := d.value;
    assert w[at..] == w[pos..][at - pos..];
    var delta := z.inflate(w[at..]);
    if delta.None? { return None; }
    assert ReadBody(z, 6, w[pos..]) == Some((OfsDelta(distance, delta.value.0), at - pos + delta.value.1));
    return Some((distance, delta.value.0));
  }

  lemma ReadAtHead(z: Zlib, w: bytes, number: nat, size: nat, n: nat)
    requires ReadSize(w) == Some((number, size, n)) && n <= |w|
    ensures DeclaredSize(w) == size
    ensures Reader(z)(w).None? <==> ReadBody(z, number, w[n..]).None?
    ensures Reader(z)(w).Some? ==> Reader(z)(w).value.0 == ReadBody(z, number, w[n..]).value.0
  {
  }

  /** The record at the start of a window and the size that it declares. */
  method ParseWindow(z: Zlib, w: bytes) returns (r: Option<Record>, size: nat)
    ensures r == RecordIn(Reader(z), w)
    ensures r.Some? ==> size == DeclaredSize(w)
  {
    if w == [] { return None, 0; }
    var head := PackReader.ParseSize(w, 0);
    assert w[0..] == w;
    if head.None? { return None, 0; }
    var number: nat, pos: nat := head.value.0, head.value.2;
    size := head.value.1;
    ReadAtHead(z, w, number, size, pos);
    if number == 6 {
      var d := ParseOfs(z, w, pos);
      r := if d.None? then None else Some(OfsDelta(d.value.0, d.value.1));
    } else {
      var body := PackReader.ParseBody(z, w, number, pos);
      r := if body.None? then None else Some(body.value.0);
    }
  }

  class GcsGitStorage {
    const z: Zlib
    const base: Storage
    var objectCache: map<Oid, Obj>

    constructor (z: Zlib, base: Storage)
      ensures this.z == z && this.base == base && objectCache == base.cache
    {
      this.z, this.base, this.objectCache := z, base, base.cache;
    }

    function State(): Storage
      reads this
    {
      base.(cache := objectCache)
    }

    /** From the cache, else from the pack whose index lists the id, else a loose object; what is
        read joins the cache. */
    method ReadObjectRaw(oid: Oid, calls: nat) returns (r: Option<Option<Obj>>)
      modifies this`objectCache
      ensures r == RawWithin(Reader(z), old(State()), oid, calls)
      ensures Fills(Reader(z), old(State()), objectCache, calls)
      ensures r.Some? && r.value.Some? ==> oid in objectCache && objectCache[oid] == r.value.value
      decreases calls, 1
    {
      if oid in objectCache { return Some(Some(objectCache[oid])); }
      if |oid| != 20 { return Some(None); }
      var at := base.find(oid);
      if at.Some? {
        r := ReadPackObject(Spot(at.value.0, at.value.1, at.value.2), calls);
      } else {
        r := Some(base.loose(oid));
      }
      if r.Some? && r.value.Some? { objectCache := objectCache[oid := r.value.value]; }
    }

    /** The object at a place, its base being read first when it is a delta. */
    method ReadPackObject(p: Spot, calls: nat) returns (r: Option<Option<Obj>>)
      modifies this`objectCache
      ensures r == ReadWithin(Reader(z), old(State()), p, calls)
      ensures Fills(Reader(z), old(State()), objectCache, calls)
      decreases calls, 0
    {
      if calls == 0 { return None; }
      var x, size := ParseWindow(z, WindowAt(base, p));
      OneTurn(Reader(z), State(), p, calls);
      if x.None? { return Some(None); }
      r := ResolveRecord(p, x.value, size, calls - 1);
      FillsMore(Reader(z), old(State()), objectCache, calls - 1, calls);
    }

    /** A whole object as it is; for a delta, its base is read first. */
    method ResolveRecord(p: Spot, x: Record, size: nat, calls: nat) returns (r: Option<Option<Obj>>)
      modifies this`objectCache
      ensures r == Resolved(Reader(z), old(State()), x, size, p, calls)
      ensures Fills(Reader(z), old(State()), objectCache, calls)
      decreases calls, 2
    {
      match x
      case Whole(o) => return Some(Some(o));
      case OfsDelta(distance, delta) =>
        if distance > p.offset { return Some(None); }
        var at := p.offset - distance;
        var b := ReadPackObject(Spot(p.pack, at, base.lengthAt(p.pack, at).GetOr(size)), calls);
        r := PatchObject(b, delta);
      case RefDelta(sha, delta) =>
        var b := ReadObjectRaw(sha, calls);
        r := PatchObject(b, delta);
    }
  }
}
