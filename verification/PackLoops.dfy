/** Packs on which reading one object never ends (src/git/gcs_storage.rs, `read_pack_object` has
    no guard against a chain of bases that comes back). */
module PackLoops {
  import opened Basics
  import opened Zlib
  import opened Layout
  import opened Numbers
  import opened PackFormat
  import opened PackPlaces
  import opened PackRandomAccess
  import opened PackResolve
  import opened PackWriter
  import opened ReadersAgree
  import Delta
  import IndexLookup
  import PackIndex
  import PackReader

  ghost predicate NeverEnds(read: RecordReader, st: Storage, p: Spot) {
    forall calls: nat :: ReadWithin(read, st, p, calls) == None
  }

  lemma ComesBackAt(z: Zlib, st: Storage, p: Spot, i: nat, j: nat)
    requires Lawful(z) && Repeats(Reader(z), st, p, i, j)
    ensures NeverEnds(Reader(z), st, p)
  {
    ReaderSteady(z, st);
    forall calls: nat ensures ReadWithin(Reader(z), st, p, calls) == None {
      ComingBackNeverEnds(Reader(z), st, p, calls);
    }
  }

  // ---- a delta that is its own base

  /** A delta by distance zero, whose own length the index knows to be short enough to read. */
  lemma ZeroDistanceNeverEnds(z: Zlib, st: Storage, p: Spot, delta: bytes)
    requires Lawful(z) && RecordIn(Reader(z), WindowAt(st, p)) == Some(OfsDelta(0, delta))
    requires
      var again := Spot(p.pack, p.offset, st.lengthAt(p.pack, p.offset).GetOr(DeclaredSize(WindowAt(st, p))));
      RecordIn(Reader(z), WindowAt(st, again)) == Some(OfsDelta(0, delta))
    ensures NeverEnds(Reader(z), st, p)
  {
    NextIs(Reader(z), st, p);
    ComesBackAt(z, st, p, 0, 1);
  }

  /** A delta by id whose base's id is listed at the delta itself. */
  lemma SelfNamedNeverEnds(z: Zlib, st: Storage, p: Spot, sha: Oid, delta: bytes)
    requires Lawful(z) && RecordIn(Reader(z), WindowAt(st, p)) == Some(RefDelta(sha, delta))
    requires Locate(st, sha).Listed? && SamePlace(Locate(st, sha).spot, p)
    requires RecordIn(Reader(z), WindowAt(st, Locate(st, sha).spot)) == Some(RefDelta(sha, delta))
    ensures NeverEnds(Reader(z), st, p)
  {
    NextIs(Reader(z), st, p);
    ComesBackAt(z, st, p, 0, 1);
  }

  lemma NextIs(read: RecordReader, st: Storage, p: Spot)
    requires Follow(read, st, p).Goes?
    ensures Nth(read, st, p, 0) == Some(p) && Nth(read, st, p, 1) == Some(Follow(read, st, p).base)
  {
    assert Nth(read, st, p, 0) == Some(p);
  }

  /** Two places whose deltas lead to each other. */
  lemma TwoNeverEnd(z: Zlib, st: Storage, p: Spot, q: Spot, a: bytes, b: bytes)
    requires Lawful(z) && Follow(Reader(z), st, p) == Goes(q, a) && Follow(Reader(z), st, q) == Goes(p, b)
    ensures NeverEnds(Reader(z), st, p)
  {
    NextIs(Reader(z), st, p);
    assert Nth(Reader(z), st, p, 2) == Some(p);
    ComesBackAt(z, st, p, 0, 2);
  }

  // ---- an object that is in its pack twice

  /** A delta that makes `b` from `a`, by inserting all of it. */
  function Rewrite(a: Obj, b: Obj): bytes
    requires 0 < |b.data| < 128
  {
    Delta.EncodeDelta(|a.data|, |b.data|, [Delta.Insert(b.data)])
  }

  lemma RewritePatches(a: Obj, b: Obj, o: Obj)
    requires a.kind == b.kind && 0 < |b.data| < 128
    ensures Patches(a, Rewrite(a, b), o) <==> o == b
  {
    var code := [Delta.Insert(b.data)];
    assert code[..0] == [] && Delta.Run(a.data, []) == Some([]);
    assert [] + b.data == b.data;
    assert Delta.Run(a.data, code) == Some(b.data);
    Delta.EncodedApplies(a.data, code);
  }

  /** A delta by id, as a pack has it. */
  function WriteRef(z: Zlib, sha: Oid, delta: bytes): (r: bytes)
    ensures |r| > 0
  {
    EncodeSize(7, |delta|) + (sha + z.deflate(delta))
  }

  lemma RefRoundTrip(z: Zlib, sha: Oid, delta: bytes, rest: bytes)
    requires Lawful(z) && |sha| == 20
    ensures ReadRecord(z, WriteRef(z, sha, delta) + rest) == Some((RefDelta(sha, delta), |WriteRef(z, sha, delta)|))
  {
    var head, body := EncodeSize(7, |delta|), z.deflate(delta);
    assert WriteRef(z, sha, delta) + rest == head + (sha + (body + rest));
    SizeRoundTrip(7, |delta|, sha + (body + rest));
    DropFront(head, sha + (body + rest));
    DropFront(sha, body + rest);
    assert (sha + (body + rest))[..20] == sha;
  }

  /** `a` whole, `b` as a delta on `a`, and `a` again as a delta on `b`. */
  function Items(h: Hash, a: Obj, b: Obj): seq<Record>
    requires 0 < |a.data| < 128 && 0 < |b.data| < 128
  {
    [Whole(a), RefDelta(h(a), Rewrite(a, b)), RefDelta(h(b), Rewrite(b, a))]
  }

  function Parts(z: Zlib, h: Hash, a: Obj, b: Obj): (parts: seq<bytes>)
    requires 0 < |a.data| < 128 && 0 < |b.data| < 128
    ensures IndexLookup.NonEmpty(parts)
  {
    [WriteObject(z, a), WriteRef(z, h(a), Rewrite(a, b)), WriteRef(z, h(b), Rewrite(b, a))]
  }

  lemma PartsRead(z: Zlib, h: Hash, a: Obj, b: Obj)
    requires Lawful(z) && Pair(h, a, b)
    ensures AllRead(Reader(z), Parts(z, h, a, b), Items(h, a, b))
  {
    WrittenReads(z, a);
    RefReads(z, h(a), Rewrite(a, b));
    RefReads(z, h(b), Rewrite(b, a));
  }

  lemma RefReads(z: Zlib, sha: Oid, delta: bytes)
    requires Lawful(z) && |sha| == 20
    ensures Reads(Reader(z), WriteRef(z, sha, delta), RefDelta(sha, delta))
  {
    forall rest: bytes
      ensures Reader(z)(WriteRef(z, sha, delta) + rest) == Some((RefDelta(sha, delta), |WriteRef(z, sha, delta)|))
    {
      RefRoundTrip(z, sha, delta, rest);
    }
  }

  /** Two small objects of one kind with different ids. */
  ghost predicate Pair(h: Hash, a: Obj, b: Obj) {
    a.kind == b.kind && 0 < |a.data| < 128 && 0 < |b.data| < 128 && |h(a)| == 20 && |h(b)| == 20 && h(a) != h(b)
  }

  /** The records of `Items`, wherever they lie. */
  ghost predicate Laid(h: Hash, a: Obj, b: Obj, rs: Records)
    requires Pair(h, a, b)
  {
    |rs| == 3 && forall i | 0 <= i < 3 :: rs[i].1 == Items(h, a, b)[i]
  }

  /** The objects that stand in it. */
  lemma {:induction false} OnlyTwo(h: Hash, a: Obj, b: Obj, rs: Records, i: nat, o: Obj, k: nat)
    requires Pair(h, a, b) && Laid(h, a, b, rs) && Derived(h, rs, i, o, k)
    ensures o == if i == 1 then b else a
    decreases k
  {
    if i > 0 {
      var j, c := DerivedBase(h, rs, i, o, k);
      OnlyTwo(h, a, b, rs, j, c, k - 1);
      RewritePatches(a, b, o);
      RewritePatches(b, a, o);
    }
  }

  lemma BothStand(h: Hash, a: Obj, b: Obj, rs: Records)
    requires Pair(h, a, b) && Laid(h, a, b, rs)
    ensures Stands(h, rs, 0, a) && Stands(h, rs, 1, b) && Stands(h, rs, 2, a)
  {
    WholeStands(h, rs, 0);
    RewritePatches(a, b, b);
    RewritePatches(b, a, a);
    assert IsBase(h, rs, 1, 0, a) && HasBase(h, rs, 1, a);
    BaseStands(h, rs, 1, a, b);
    assert IsBase(h, rs, 2, 1, b) && HasBase(h, rs, 2, b);
    BaseStands(h, rs, 2, b, a);
  }

  lemma StandsOnly(h: Hash, a: Obj, b: Obj, rs: Records, i: nat, o: Obj)
    requires Pair(h, a, b) && Laid(h, a, b, rs) && Stands(h, rs, i, o)
    ensures i < 3 && o == if i == 1 then b else a
  {
    var k: nat :| Derived(h, rs, i, o, k);
    OnlyTwo(h, a, b, rs, i, o, k);
  }

  /** The bulk reader accepts it, with both objects. */
  lemma BulkAccepts(h: Hash, a: Obj, b: Obj, rs: Records)
    requires Pair(h, a, b) && Laid(h, a, b, rs) && DistinctOffsets(rs)
    ensures NoCollision(h, rs) && PackReader.Outcome(h, rs, Ok(map[h(a) := a, h(b) := b]))
  {
    forall i: nat, o: Obj | Stands(h, rs, i, o) ensures i < 3 && o == if i == 1 then b else a {
      StandsOnly(h, a, b, rs, i, o);
    }
    BothStand(h, a, b, rs);
    forall i: nat | i < |rs| ensures Grounded(h, rs, i) {
      assert i == 0 || i == 1 || i == 2;
    }
    StandOrMisfit(h, rs);
  }

  /** A pack of the three records, whose index lists `b` at its only copy, `q`, and `a` at the
      second, `p`. */
  ghost predicate Doubled(read: RecordReader, h: Hash, st: Storage, shelf: Shelf, p: Spot, q: Spot, a: Obj, b: Obj) {
    && Pair(h, a, b) && shelf.Keys == {p.pack} && q.pack == p.pack && Laid(h, a, b, shelf[p.pack])
    && Shelved(read, st, shelf) && RecordSpot(read, st, shelf, p, 2) && RecordSpot(read, st, shelf, q, 1)
    && Locate(st, h(a)) == Listed(p) && Locate(st, h(b)) == Listed(q)
  }

  /** Each of the two places leads to the other. */
  lemma DoubledTurns(read: RecordReader, h: Hash, st: Storage, shelf: Shelf, p: Spot, q: Spot, a: Obj, b: Obj)
    requires Doubled(read, h, st, shelf, p, q, a, b)
    ensures Follow(read, st, p) == Goes(q, Rewrite(b, a)) && Follow(read, st, q) == Goes(p, Rewrite(a, b))
  {
    RecordTurn(read, st, shelf, p, 2);
    RecordTurn(read, st, shelf, q, 1);
  }

  /** Both ids are listed at records that stand for their objects. */
  lemma DoubledNamed(read: RecordReader, h: Hash, st: Storage, shelf: Shelf, p: Spot, q: Spot, a: Obj, b: Obj)
    requires Doubled(read, h, st, shelf, p, q, a, b)
    ensures Named(read, h, st, shelf, a) && Named(read, h, st, shelf, b) && BasesNamed(read, h, st, shelf)
  {
    BothStand(h, a, b, shelf[p.pack]);
    assert CopyAt(read, h, st, shelf, q, 1, b) && CopyAt(read, h, st, shelf, p, 2, a);
    forall name: bytes, i: nat, o: Obj | BaseById(h, shelf, name, i, o) ensures Named(read, h, st, shelf, o) {
      var j: nat :| Stands(h, shelf[name], j, o);
      StandsOnly(h, a, b, shelf[p.pack], j, o);
    }
  }

  ghost predicate NeverRead(read: RecordReader, st: Storage, oid: Oid) {
    forall calls: nat :: RawWithin(read, st, oid, calls) == None
  }

  lemma NeverReadAt(read: RecordReader, st: Storage, oid: Oid, p: Spot)
    requires Locate(st, oid) == Listed(p) && NeverEnds(read, st, p)
    ensures NeverRead(read, st, oid)
  {
  }

  /** The bulk reader accepts the pack, its index lists each id at a record that stands for it, and
      yet reading either object never ends. */
  lemma DuplicateNeverEnds(z: Zlib, h: Hash, st: Storage, shelf: Shelf, p: Spot, q: Spot, a: Obj, b: Obj)
    requires Lawful(z) && Doubled(Reader(z), h, st, shelf, p, q, a, b)
    ensures NoCollision(h, shelf[p.pack])
    ensures PackReader.Outcome(h, shelf[p.pack], Ok(map[h(a) := a, h(b) := b]))
    ensures Named(Reader(z), h, st, shelf, a) && Named(Reader(z), h, st, shelf, b)
    ensures BasesNamed(Reader(z), h, st, shelf)
    ensures NeverRead(Reader(z), st, h(a)) && NeverRead(Reader(z), st, h(b))
  {
    OffsetsDiffer(Reader(z), st.packs[p.pack], shelf[p.pack]);
    BulkAccepts(h, a, b, shelf[p.pack]);
    DoubledNamed(Reader(z), h, st, shelf, p, q, a, b);
    DoubledTurns(Reader(z), h, st, shelf, p, q, a, b);
    TwoNeverEnd(z, st, p, q, Rewrite(b, a), Rewrite(a, b));
    TwoNeverEnd(z, st, q, p, Rewrite(a, b), Rewrite(b, a));
    NeverReadAt(Reader(z), st, h(a), p);
    NeverReadAt(Reader(z), st, h(b), q);
  }

  // ---- such packs exist

  function DoubledStorage(parts: seq<bytes>, h: Hash, a: Obj, b: Obj, name: bytes, pack: bytes): Storage
    requires |parts| == 3
  {
    var offsets := [StartOf(parts, 0), StartOf(parts, 1), StartOf(parts, 2)];
    var find := (id: Oid) =>
      if id == h(a) then Some((name, offsets[2], |parts[2]|))
      else if id == h(b) then Some((name, offsets[1], |parts[1]|))
      else None;
    Storage(map[name := pack], (_, off) => PackIndex.LengthAt(offsets, off), find, _ => None, map[])
  }

  /** The records `rs` are `items`, as the `parts` lie in the pack. */
  ghost predicate LaidOut(read: RecordReader, pack: bytes, parts: seq<bytes>, items: seq<Record>, rs: Records) {
    && |rs| == |parts| && AllRead(read, parts, items) && Holds(read, pack, rs) && PartsLie(pack, parts)
    && forall i: nat | i < |parts| :: rs[i] == (StartOf(parts, i), items[i])
  }

  lemma PartsLaidOut(read: RecordReader, parts: seq<bytes>, items: seq<Record>, tail: bytes, pack: bytes, rs: Records)
    requires AllRead(read, parts, items) && pack == Header(|items|) + Concat(parts) + tail
    requires rs == RecordsFrom(parts, items, 0) && Holds(read, pack, rs)
    ensures LaidOut(read, pack, parts, items, rs)
  {
    forall i: nat | i < |parts| ensures rs[i] == (StartOf(parts, i), items[i]) { RecordsFromAt(parts, items, 0, i); }
    forall i: nat | i < |parts| ensures Lies(pack, StartOf(parts, i), parts[i]) {
      PartAt(Header(|items|), parts, tail, i);
    }
  }

  lemma PackOfParts(z: Zlib, parts: seq<bytes>, items: seq<Record>, tail: bytes) returns (rs: Records)
    requires Lawful(z) && AllRead(Reader(z), parts, items) && InReach(parts, items) && |items| < TWO_32
    ensures LaidOut(Reader(z), Header(|items|) + Concat(parts) + tail, parts, items, rs)
  {
    rs := RecordsFrom(parts, items, 0);
    var pack := Header(|items|) + Concat(parts) + tail;
    PartsAreRecords(z, parts, items, tail);
    HoldsRecords(z, pack, rs);
    PartsLaidOut(Reader(z), parts, items, tail, pack, rs);
  }

  /** A part that is read to its last byte is covered by its own length. */
  lemma PartCovers(read: RecordReader, pack: bytes, parts: seq<bytes>, items: seq<Record>, rs: Records, i: nat)
    requires LaidOut(read, pack, parts, items, rs) && i < |parts|
    ensures Covers(read, pack, rs, i, |parts[i]|)
  {
    assert Reads(read, parts[i], items[i]) && Lies(pack, StartOf(parts, i), parts[i]);
    var after: bytes :| pack[StartOf(parts, i)..] == parts[i] + after;
    assert read(parts[i] + after) == Some((items[i], |parts[i]|));
  }

  lemma IndexKnowsLengths(read: RecordReader, pack: bytes, parts: seq<bytes>, items: seq<Record>, rs: Records,
                          st: Storage, name: bytes)
    requires LaidOut(read, pack, parts, items, rs) && |parts| == 3 && IndexLookup.NonEmpty(parts)
    requires
      var offsets := [StartOf(parts, 0), StartOf(parts, 1), StartOf(parts, 2)];
      forall off :: st.lengthAt(name, off) == PackIndex.LengthAt(offsets, off)
    ensures LengthsKnown(st, name, rs)
  {
    forall i: nat | i + 1 < |rs| ensures st.lengthAt(name, rs[i].0) == LengthOf(rs, i) {
      IndexLookup.LengthsExact(parts, [StartOf(parts, 0), StartOf(parts, 1), StartOf(parts, 2)], i);
      StartStep(parts, i);
    }
  }

  lemma DoubledFrom(read: RecordReader, h: Hash, a: Obj, b: Obj, name: bytes, pack: bytes, parts: seq<bytes>,
                    rs: Records)
    requires Pair(h, a, b) && LaidOut(read, pack, parts, Items(h, a, b), rs) && |parts| == 3
      && IndexLookup.NonEmpty(parts)
    ensures Doubled(read, h, DoubledStorage(parts, h, a, b, name, pack), map[name := rs],
                    Spot(name, StartOf(parts, 2), |parts[2]|), Spot(name, StartOf(parts, 1), |parts[1]|), a, b)
  {
    PartCovers(read, pack, parts, Items(h, a, b), rs, 1);
    PartCovers(read, pack, parts, Items(h, a, b), rs, 2);
    IndexKnowsLengths(read, pack, parts, Items(h, a, b), rs, DoubledStorage(parts, h, a, b, name, pack), name);
  }

  /** For any two small objects of one kind with different ids. */
  lemma DuplicateExists(z: Zlib, h: Hash, a: Obj, b: Obj, name: bytes, tail: bytes)
    returns (st: Storage, shelf: Shelf, p: Spot, q: Spot)
    requires Lawful(z) && Pair(h, a, b)
    ensures Doubled(Reader(z), h, st, shelf, p, q, a, b)
  {
    var parts := Parts(z, h, a, b);
    PartsRead(z, h, a, b);
    var rs := PackOfParts(z, parts, Items(h, a, b), tail);
    var pack := Header(3) + Concat(parts) + tail;
    DoubledFrom(Reader(z), h, a, b, name, pack, parts, rs);
    st, shelf := DoubledStorage(parts, h, a, b, name, pack), map[name := rs];
    p, q := Spot(name, StartOf(parts, 2), |parts[2]|), Spot(name, StartOf(parts, 1), |parts[1]|);
  }
}
