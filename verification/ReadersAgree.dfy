/** Reading one object at a time agrees with the bulk reader: what is read, and when it ends
    (src/git/gcs_storage.rs and src/git/pack.rs resolve deltas in two ways). */
module ReadersAgree {
  import opened Basics
  import opened Zlib
  import opened PackFormat
  import opened PackPlaces
  import opened PackRandomAccess
  import opened PackResolve
  import PackReader

  /** Packs by name, with the records that the bulk reader finds in them. */
  type Shelf = map<bytes, Records>

  /** The indexes know the length of every record before the last of its pack. */
  ghost predicate LengthsKnown(st: Storage, name: bytes, rs: Records) {
    forall i: nat | i + 1 < |rs| :: st.lengthAt(name, rs[i].0) == LengthOf(rs, i)
  }

  ghost predicate Shelved(read: RecordReader, st: Storage, shelf: Shelf) {
    forall name | name in shelf ::
      name in st.packs && Holds(read, st.packs[name], shelf[name]) && LengthsKnown(st, name, shelf[name])
  }

  /** At `p` lies record `i`, and the window shows it whole. */
  ghost predicate RecordSpot(read: RecordReader, st: Storage, shelf: Shelf, p: Spot, i: nat) {
    && p.pack in shelf && p.pack in st.packs && i < |shelf[p.pack]| && p.offset == shelf[p.pack][i].0
    && Covers(read, st.packs[p.pack], shelf[p.pack], i, p.guess)
  }

  /** The record at `p` stands for `o`. */
  ghost predicate CopyAt(read: RecordReader, h: Hash, st: Storage, shelf: Shelf, p: Spot, i: nat, o: Obj) {
    RecordSpot(read, st, shelf, p, i) && Stands(h, shelf[p.pack], i, o)
  }

  /** The id of `o` gives `o` without a pack, or is listed at a record that stands for it. */
  ghost predicate Named(read: RecordReader, h: Hash, st: Storage, shelf: Shelf, o: Obj) {
    match Locate(st, h(o))
    case Known(r) => r == Some(o)
    case Listed(q) => exists i: nat :: CopyAt(read, h, st, shelf, q, i, o)
  }

  /** `b` is the base of the delta by id in record `i`. */
  ghost predicate BaseById(h: Hash, shelf: Shelf, name: bytes, i: nat, b: Obj) {
    name in shelf && HasBase(h, shelf[name], i, b) && shelf[name][i].1.RefDelta?
  }

  /** Every base by id is named. */
  ghost predicate BasesNamed(read: RecordReader, h: Hash, st: Storage, shelf: Shelf) {
    forall name: bytes, i: nat, b: Obj | BaseById(h, shelf, name, i, b) :: Named(read, h, st, shelf, b)
  }

  lemma ReadsRecord(read: RecordReader, st: Storage, shelf: Shelf, p: Spot, i: nat)
    requires Shelved(read, st, shelf) && RecordSpot(read, st, shelf, p, i)
    ensures RecordIn(read, WindowAt(st, p)) == Some(shelf[p.pack][i].1)
  {
    var pack, rs := st.packs[p.pack], shelf[p.pack];
    var used := RecordPlaced(read, pack, rs, i);
    WindowReads(read, pack, rs, i, used, p.guess);
  }

  // ---- one turn

  /** Record `i` of a pack stands for `o` by at most `k` deltas. */
  ghost predicate CopyWithin(read: RecordReader, h: Hash, st: Storage, shelf: Shelf, p: Spot, i: nat, o: Obj, k: nat) {
    RecordSpot(read, st, shelf, p, i) && Derived(h, shelf[p.pack], i, o, k)
  }

  lemma RecordTurn(read: RecordReader, st: Storage, shelf: Shelf, p: Spot, i: nat)
    requires Shelved(read, st, shelf) && RecordSpot(read, st, shelf, p, i)
    ensures Follow(read, st, p) == FollowRecord(st, p, Some(shelf[p.pack][i].1), DeclaredSize(WindowAt(st, p)))
  {
    ReadsRecord(read, st, shelf, p, i);
  }

  lemma WholeTurn(read: RecordReader, h: Hash, st: Storage, shelf: Shelf, p: Spot, i: nat, o: Obj, k: nat)
    requires Shelved(read, st, shelf) && CopyWithin(read, h, st, shelf, p, i, o, k) && shelf[p.pack][i].1.Whole?
    ensures Follow(read, st, p) == Ends(Some(o))
  {
    RecordTurn(read, st, shelf, p, i);
  }

  /** From a delta by distance, reading goes on to its base. */
  lemma OfsTurn(read: RecordReader, h: Hash, st: Storage, shelf: Shelf, p: Spot, i: nat, o: Obj, k: nat)
    returns (q: Spot, j: nat, b: Obj)
    requires Shelved(read, st, shelf) && CopyWithin(read, h, st, shelf, p, i, o, k) && shelf[p.pack][i].1.OfsDelta?
    ensures k > 0 && CopyWithin(read, h, st, shelf, q, j, b, k - 1) && Patches(b, shelf[p.pack][i].1.delta, o)
    ensures Follow(read, st, p) == Goes(q, shelf[p.pack][i].1.delta)
  {
    var length: nat;
    var rs := shelf[p.pack];
    j, b, length := ProperBase(read, h, st.packs[p.pack], rs, i, o, k);
    RecordTurn(read, st, shelf, p, i);
    assert st.lengthAt(p.pack, rs[j].0) == LengthOf(rs, j);
    q := Spot(p.pack, rs[j].0, length);
  }

  /** From a delta by id, it goes on to wherever its base's id is listed. */
  lemma RefTurn(read: RecordReader, h: Hash, st: Storage, shelf: Shelf, p: Spot, i: nat, o: Obj, k: nat)
    returns (name: bytes, j: nat, b: Obj)
    requires Shelved(read, st, shelf) && CopyWithin(read, h, st, shelf, p, i, o, k) && shelf[p.pack][i].1.RefDelta?
    ensures k > 0 && name in shelf && Derived(h, shelf[name], j, b, k - 1) && Patches(b, shelf[p.pack][i].1.delta, o)
    ensures BaseById(h, shelf, p.pack, i, b)
    ensures Follow(read, st, p) == match Locate(st, h(b))
      case Known(r) => Ends(Patch(r, shelf[p.pack][i].1.delta))
      case Listed(q) => Goes(q, shelf[p.pack][i].1.delta)
  {
    name := p.pack;
    j, b := DerivedBase(h, shelf[p.pack], i, o, k);
    RecordTurn(read, st, shelf, p, i);
  }

  lemma PatchIs(b: Obj, delta: bytes, o: Obj)
    requires Patches(b, delta, o)
    ensures Patch(Some(b), delta) == Some(o)
  {
  }

  // ---- what is read

  /** A turn from a place that stands for `o`: to `o`, or to a base from which its delta makes `o`. */
  ghost predicate TurnsRight(read: RecordReader, h: Hash, st: Storage, shelf: Shelf, t: Turn, o: Obj) {
    match t
    case Ends(r) => r == Some(o)
    case Goes(q, delta) => exists j: nat, b: Obj :: CopyAt(read, h, st, shelf, q, j, b) && Patches(b, delta, o)
  }

  lemma RefTurnsRight(read: RecordReader, h: Hash, st: Storage, shelf: Shelf, p: Spot, i: nat, o: Obj, k: nat)
    requires Shelved(read, st, shelf) && BasesNamed(read, h, st, shelf) && CopyWithin(read, h, st, shelf, p, i, o, k)
    requires shelf[p.pack][i].1.RefDelta?
    ensures TurnsRight(read, h, st, shelf, Follow(read, st, p), o)
  {
    var name, j, b := RefTurn(read, h, st, shelf, p, i, o, k);
    PatchIs(b, shelf[p.pack][i].1.delta, o);
    if Locate(st, h(b)).Listed? {
      var j2: nat :| CopyAt(read, h, st, shelf, Locate(st, h(b)).spot, j2, b);
    }
  }

  lemma OfsTurnsRight(read: RecordReader, h: Hash, st: Storage, shelf: Shelf, p: Spot, i: nat, o: Obj, k: nat)
    requires Shelved(read, st, shelf) && CopyWithin(read, h, st, shelf, p, i, o, k) && shelf[p.pack][i].1.OfsDelta?
    ensures TurnsRight(read, h, st, shelf, Follow(read, st, p), o)
  {
    var q, j, b := OfsTurn(read, h, st, shelf, p, i, o, k);
    assert Stands(h, shelf[q.pack], j, b);
    assert CopyAt(read, h, st, shelf, q, j, b);
  }

  lemma TurnRight(read: RecordReader, h: Hash, st: Storage, shelf: Shelf, p: Spot, i: nat, o: Obj)
    requires Shelved(read, st, shelf) && BasesNamed(read, h, st, shelf) && CopyAt(read, h, st, shelf, p, i, o)
    ensures TurnsRight(read, h, st, shelf, Follow(read, st, p), o)
  {
    var k: nat :| Derived(h, shelf[p.pack], i, o, k);
    if shelf[p.pack][i].1.Whole? {
      WholeTurn(read, h, st, shelf, p, i, o, k);
    } else if shelf[p.pack][i].1.OfsDelta? {
      OfsTurnsRight(read, h, st, shelf, p, i, o, k);
    } else {
      RefTurnsRight(read, h, st, shelf, p, i, o, k);
    }
  }

  /** Whatever ends gives the object that the record stands for. */
  lemma {:induction false} ReadsRight(read: RecordReader, h: Hash, st: Storage, shelf: Shelf, p: Spot, i: nat, o: Obj,
                                      calls: nat)
    requires Shelved(read, st, shelf) && BasesNamed(read, h, st, shelf) && CopyAt(read, h, st, shelf, p, i, o)
    ensures ReadWithin(read, st, p, calls) == None || ReadWithin(read, st, p, calls) == Some(Some(o))
    decreases calls
  {
    if calls > 0 {
      TurnRight(read, h, st, shelf, p, i, o);
      var t := Follow(read, st, p);
      if t.Goes? {
        var j: nat, b: Obj :| CopyAt(read, h, st, shelf, t.base, j, b) && Patches(b, t.delta, o);
        ReadsRight(read, h, st, shelf, t.base, j, b, calls - 1);
        PatchIs(b, t.delta, o);
      }
    }
  }

  ghost predicate EndsWith(read: RecordReader, st: Storage, p: Spot, o: Obj) {
    && (forall calls: nat :: ReadWithin(read, st, p, calls).Some? ==> ReadWithin(read, st, p, calls) == Some(Some(o)))
    && ((exists calls: nat :: ReadWithin(read, st, p, calls).Some?) <==> !ComesBack(read, st, p))
  }

  /** In a pack that the bulk reader accepts, reading any record gives the bulk reader's object for
      it, or never ends; and it ends exactly when its chain does not come back. */
  lemma ResolversAgree(z: Zlib, h: Hash, st: Storage, shelf: Shelf, p: Spot, i: nat, m: map<Oid, Obj>)
    returns (o: Obj)
    requires Lawful(z) && Shelved(Reader(z), st, shelf) && BasesNamed(Reader(z), h, st, shelf)
    requires RecordSpot(Reader(z), st, shelf, p, i) && PackReader.Outcome(h, shelf[p.pack], Ok(m))
    ensures Stands(h, shelf[p.pack], i, o) && h(o) in m && m[h(o)] == o
    ensures EndsWith(Reader(z), st, p, o)
  {
    assert Grounded(h, shelf[p.pack], i);
    o :| Stands(h, shelf[p.pack], i, o);
    forall calls: nat | ReadWithin(Reader(z), st, p, calls).Some?
      ensures ReadWithin(Reader(z), st, p, calls) == Some(Some(o))
    {
      ReadsRight(Reader(z), h, st, shelf, p, i, o, calls);
    }
    ReadEnds(z, st, p);
  }

  /** By id too: whatever ends gives the object of that id. */
  lemma IdsAgree(read: RecordReader, h: Hash, st: Storage, shelf: Shelf, o: Obj, calls: nat)
    requires Shelved(read, st, shelf) && BasesNamed(read, h, st, shelf) && Named(read, h, st, shelf, o)
    ensures RawWithin(read, st, h(o), calls) == None || RawWithin(read, st, h(o), calls) == Some(Some(o))
  {
    if Locate(st, h(o)).Listed? {
      var q := Locate(st, h(o)).spot;
      var j: nat :| CopyAt(read, h, st, shelf, q, j, o);
      ReadsRight(read, h, st, shelf, q, j, o, calls);
    }
  }

  // ---- when it ends

  /** No record stands for `o` by fewer deltas than record `i` of pack `name`. */
  ghost predicate Least(h: Hash, shelf: Shelf, name: bytes, i: nat, o: Obj) {
    name in shelf && forall other: bytes, j: nat, k: nat | DerivedIn(h, shelf, other, j, o, k) ::
      Derived(h, shelf[name], i, o, k)
  }

  ghost predicate DerivedIn(h: Hash, shelf: Shelf, name: bytes, i: nat, o: Obj, k: nat) {
    name in shelf && Derived(h, shelf[name], i, o, k)
  }

  /** The id of `o`, where it is listed, is listed at a copy that takes the fewest deltas. */
  ghost predicate NamedLeast(read: RecordReader, h: Hash, st: Storage, shelf: Shelf, o: Obj) {
    match Locate(st, h(o))
    case Known(r) => r == Some(o)
    case Listed(q) => exists i: nat :: CopyAt(read, h, st, shelf, q, i, o) && Least(h, shelf, q.pack, i, o)
  }

  ghost predicate BasesLeast(read: RecordReader, h: Hash, st: Storage, shelf: Shelf) {
    forall name: bytes, i: nat, b: Obj | BaseById(h, shelf, name, i, b) :: NamedLeast(read, h, st, shelf, b)
  }

  /** A base that a pack has within `k` deltas is listed where it is had within `k`. */
  lemma LeastListed(read: RecordReader, h: Hash, st: Storage, shelf: Shelf, name: bytes, j: nat, b: Obj, k: nat)
    returns (l: nat)
    requires NamedLeast(read, h, st, shelf, b) && DerivedIn(h, shelf, name, j, b, k)
    ensures Locate(st, h(b)).Known? ==> Locate(st, h(b)).obj == Some(b)
    ensures Locate(st, h(b)).Listed? ==> CopyWithin(read, h, st, shelf, Locate(st, h(b)).spot, l, b, k)
  {
    l := 0;
    if Locate(st, h(b)).Listed? {
      var q := Locate(st, h(b)).spot;
      l :| CopyAt(read, h, st, shelf, q, l, b) && Least(h, shelf, q.pack, l, b);
    }
  }

  lemma GoesEnds(read: RecordReader, st: Storage, p: Spot, b: Obj, o: Obj, k: nat)
    requires Follow(read, st, p).Goes? && Patches(b, Follow(read, st, p).delta, o)
    requires ReadWithin(read, st, Follow(read, st, p).base, k) == Some(Some(b))
    ensures ReadWithin(read, st, p, k + 1) == Some(Some(o))
  {
  }

  lemma StopsAt(read: RecordReader, st: Storage, p: Spot, k: nat)
    requires Follow(read, st, p).Ends?
    ensures ReadWithin(read, st, p, k + 1) == Some(Follow(read, st, p).result)
  {
  }

  /** Then reading takes one call more than there are deltas. */
  lemma {:induction false} LeastEnds(read: RecordReader, h: Hash, st: Storage, shelf: Shelf, p: Spot, i: nat, o: Obj,
                                     k: nat)
    requires Shelved(read, st, shelf) && BasesLeast(read, h, st, shelf) && CopyWithin(read, h, st, shelf, p, i, o, k)
    ensures ReadWithin(read, st, p, k + 1) == Some(Some(o))
    decreases k
  {
    if shelf[p.pack][i].1.Whole? {
      WholeTurn(read, h, st, shelf, p, i, o, k);
      StopsAt(read, st, p, k);
    } else if shelf[p.pack][i].1.OfsDelta? {
      var q, j, b := OfsTurn(read, h, st, shelf, p, i, o, k);
      LeastEnds(read, h, st, shelf, q, j, b, k - 1);
      GoesEnds(read, st, p, b, o, k);
    } else {
      var name, j, b := RefTurn(read, h, st, shelf, p, i, o, k);
      var l := LeastListed(read, h, st, shelf, name, j, b, k - 1);
      if Locate(st, h(b)).Listed? {
        LeastEnds(read, h, st, shelf, Locate(st, h(b)).spot, l, b, k - 1);
        GoesEnds(read, st, p, b, o, k);
      } else {
        PatchIs(b, shelf[p.pack][i].1.delta, o);
        StopsAt(read, st, p, k);
      }
    }
  }

  ghost predicate StandsIn(h: Hash, shelf: Shelf, name: bytes, i: nat, o: Obj) {
    name in shelf && Stands(h, shelf[name], i, o)
  }

  /** Each object is in one record only. */
  ghost predicate NoCopies(h: Hash, shelf: Shelf) {
    forall a: bytes, i: nat, b: bytes, j: nat, o: Obj | StandsIn(h, shelf, a, i, o) && StandsIn(h, shelf, b, j, o) ::
      a == b && i == j
  }

  lemma OnlyCopyIsLeast(read: RecordReader, h: Hash, st: Storage, shelf: Shelf, p: Spot, i: nat, o: Obj)
    requires NoCopies(h, shelf) && CopyAt(read, h, st, shelf, p, i, o)
    ensures Least(h, shelf, p.pack, i, o)
  {
    assert StandsIn(h, shelf, p.pack, i, o);
    forall other: bytes, j: nat, k: nat | DerivedIn(h, shelf, other, j, o, k)
      ensures Derived(h, shelf[p.pack], i, o, k) {
      assert Stands(h, shelf[other], j, o) && StandsIn(h, shelf, other, j, o);
    }
  }

  /** Without copies every listing is at the least. */
  lemma OnlyCopiesLeast(read: RecordReader, h: Hash, st: Storage, shelf: Shelf)
    requires BasesNamed(read, h, st, shelf) && NoCopies(h, shelf)
    ensures BasesLeast(read, h, st, shelf)
  {
    forall name: bytes, i: nat, b: Obj | BaseById(h, shelf, name, i, b) ensures NamedLeast(read, h, st, shelf, b) {
      if Locate(st, h(b)).Listed? {
        var q := Locate(st, h(b)).spot;
        var j: nat :| CopyAt(read, h, st, shelf, q, j, b);
        OnlyCopyIsLeast(read, h, st, shelf, q, j, b);
      }
    }
  }

  /** In an accepted pack whose bases by id are listed at the copies of fewest deltas, as they are
      when there are no copies: every record is read, and gives the bulk reader's object. */
  lemma AcceptedReads(z: Zlib, h: Hash, st: Storage, shelf: Shelf, p: Spot, i: nat, m: map<Oid, Obj>)
    returns (o: Obj, calls: nat)
    requires Lawful(z) && Shelved(Reader(z), st, shelf)
    requires BasesLeast(Reader(z), h, st, shelf) || (BasesNamed(Reader(z), h, st, shelf) && NoCopies(h, shelf))
    requires RecordSpot(Reader(z), st, shelf, p, i) && PackReader.Outcome(h, shelf[p.pack], Ok(m))
    ensures Stands(h, shelf[p.pack], i, o) && h(o) in m && m[h(o)] == o
    ensures ReadWithin(Reader(z), st, p, calls) == Some(Some(o))
  {
    assert Grounded(h, shelf[p.pack], i);
    o :| Stands(h, shelf[p.pack], i, o);
    var k: nat :| Derived(h, shelf[p.pack], i, o, k);
    if !BasesLeast(Reader(z), h, st, shelf) { OnlyCopiesLeast(Reader(z), h, st, shelf); }
    LeastEnds(Reader(z), h, st, shelf, p, i, o, k);
    calls := k + 1;
  }
}
