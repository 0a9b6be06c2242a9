/** A pack written with its index, and objects found in it again by id. */
module IndexLookup {
  import opened Basics
  import opened Numbers
  import opened Zlib
  import opened Layout
  import opened Sorting
  import opened PackFormat
  import opened PackIndex
  import opened PackWriter
  import opened IndexWriter
  import opened PackPlaces
  import opened PackRandomAccess

  /** Entries that one index can hold: 20-byte ids and offsets below 2^31, none twice. */
  ghost predicate Indexable(es: seq<IndexEntry>) {
    Fits(es) && Distinct(Oids(es)) && Distinct(Offsets(es))
  }

  lemma SameNext(a: seq<nat>, b: seq<nat>, off: nat)
    requires forall o :: o in a <==> o in b
    ensures NextAfter(a, off) == NextAfter(b, off) && LengthAt(a, off) == LengthAt(b, off)
  {
    NextAfterIs(a, off);
    NextAfterIs(b, off);
  }

  // ---- sorting keeps the columns apart

  lemma EntryOrder()
    ensures Order(EntryLeq)
  {
    LexOrder();
    forall a: IndexEntry, b: IndexEntry ensures EntryLeq(a, b) || EntryLeq(b, a) { LexTotal(a.oid, b.oid); }
    forall a: IndexEntry, b: IndexEntry, c: IndexEntry | EntryLeq(a, b) && EntryLeq(b, c) ensures EntryLeq(a, c) {
      LexTransitive(a.oid, b.oid, c.oid);
    }
  }

  /** Entries that differ have different ids, and different offsets. */
  ghost predicate Apart(es: seq<IndexEntry>) {
    && Distinct(es)
    && (forall a, b | a in es && b in es && a.oid == b.oid :: a == b)
    && (forall a, b | a in es && b in es && a.offset == b.offset :: a == b)
  }

  lemma IndexableApart(es: seq<IndexEntry>)
    requires Indexable(es)
    ensures Apart(es)
  {
    forall a, b | a in es && b in es && (a.oid == b.oid || a.offset == b.offset) ensures a == b {
      var i :| 0 <= i < |es| && es[i] == a;
      var j :| 0 <= j < |es| && es[j] == b;
      assert Oids(es)[i] == a.oid && Oids(es)[j] == b.oid && Offsets(es)[i] == a.offset && Offsets(es)[j] == b.offset;
    }
    forall i, j | 0 <= i < j < |es| ensures es[i] != es[j] { assert Oids(es)[i] != Oids(es)[j]; }
  }

  lemma ApartColumns(es: seq<IndexEntry>)
    requires Apart(es)
    ensures Distinct(Oids(es)) && Distinct(Offsets(es))
  {
    forall i, j | 0 <= i < j < |es| ensures es[i].oid != es[j].oid && es[i].offset != es[j].offset {
      assert es[i] in es && es[j] in es;
    }
  }

  lemma SortedIndexable(es: seq<IndexEntry>)
    requires Indexable(es) && Named(es)
    ensures
      var s := Sort(es, EntryLeq);
      Named(s) && Indexable(s) && Ascending(Oids(s), LexLeq) && forall e :: e in s <==> e in es
  {
    var s := Sort(es, EntryLeq);
    EntryOrder();
    SortAscends(es, EntryLeq);
    SortNamed(es);
    forall e ensures e in s <==> e in es { SortHolds(es, EntryLeq, e); }
    SortHolds(es, EntryLeq, IndexEntry([], 0, 0));
    IndexableApart(es);
    SortDistinct(es, EntryLeq);
    ApartColumns(s);
    forall i | 0 <= i < |s| ensures |s[i].oid| == 20 { assert s[i] in es; }
    forall i, j | 0 <= i < j < |s| ensures LexLeq(Oids(s)[i], Oids(s)[j]) { assert EntryLeq(s[i], s[j]); }
  }

  lemma WrittenWellFormed(s: seq<IndexEntry>, x: Index)
    requires Named(s) && Indexable(s) && Ascending(Oids(s), LexLeq) && Shape(x)
    requires x.fanout == Fanout(Oids(s)) && x.shas == Oids(s) && x.offsets == Offsets(s)
    ensures WellFormed(x)
  {
  }

  /** What a lookup gives for `sha`, said of the entries in any order. */
  ghost predicate Found(es: seq<IndexEntry>, sha: Oid, r: Option<(nat, nat)>) {
    && (r.None? <==> forall e | e in es :: e.oid != sha)
    && (r.Some? ==> exists e ::
      e in es && e.oid == sha && r.value == (e.offset, LengthAt(Offsets(es), e.offset).GetOr(65536)))
  }

  lemma OffsetsIn(es: seq<IndexEntry>, o: nat)
    ensures o in Offsets(es) <==> exists e :: e in es && e.offset == o
  {
    if o in Offsets(es) {
      var i :| 0 <= i < |es| && Offsets(es)[i] == o;
      assert es[i] in es;
    }
    if e :| e in es && e.offset == o {
      var i :| 0 <= i < |es| && es[i] == e;
      assert Offsets(es)[i] == o;
    }
  }

  lemma SameOffsets(es: seq<IndexEntry>, s: seq<IndexEntry>, off: nat)
    requires forall e :: e in s <==> e in es
    ensures LengthAt(Offsets(s), off) == LengthAt(Offsets(es), off)
  {
    forall o ensures o in Offsets(s) <==> o in Offsets(es) {
      OffsetsIn(s, o);
      OffsetsIn(es, o);
    }
    SameNext(Offsets(s), Offsets(es), off);
  }

  lemma ScanIsFound(es: seq<IndexEntry>, s: seq<IndexEntry>, sha: Oid)
    requires Indexable(s) && forall e :: e in s <==> e in es
    ensures Found(es, sha, Scan(Oids(s), Offsets(s), Offsets(s), sha))
  {
    if sha in Oids(s) {
      var i: nat :| i < |s| && Oids(s)[i] == sha;
      ScanFinds(Oids(s), Offsets(s), Offsets(s), sha, i);
      SameOffsets(es, s, s[i].offset);
      assert s[i] in s;
    } else {
      ScanMisses(Oids(s), Offsets(s), Offsets(s), sha);
      forall e | e in es ensures e.oid != sha {
        var i :| 0 <= i < |s| && s[i] == e;
        assert Oids(s)[i] == e.oid;
      }
    }
  }

  /** Write an index and parse it: it holds the entries, and every lookup in it is right. */
  method WriteThenParse(sums: Sums, entries: seq<IndexEntry>, packSha: bytes) returns (x: Index)
    requires Indexable(entries) && |packSha| == 20 && forall d :: |sums.sha1(d)| == 20
    ensures Shape(x) && WellFormed(x) && x.packSha == packSha
    ensures forall sha :: Found(entries, sha, Scan(x.shas, x.offsets, x.offsets, sha))
    ensures forall off :: LengthAt(x.offsets, off) == LengthAt(Offsets(entries), off)
  {
    var idx := CreateIdx(sums, entries, packSha);
    ghost var s := Sort(entries, EntryLeq);
    SortedIndexable(entries);
    var parsed := Parse(idx.value);
    ghost var q := sums.sha1(IdxBody(s, packSha));
    WrittenParses(s, packSha, q, parsed.GetOr(Index([], [], [], [], [])));
    x := parsed.value;
    WrittenWellFormed(s, x);
    forall sha ensures Found(entries, sha, Scan(x.shas, x.offsets, x.offsets, sha)) { ScanIsFound(entries, s, sha); }
    forall off ensures LengthAt(x.offsets, off) == LengthAt(Offsets(entries), off) { SameOffsets(entries, s, off); }
  }

  // ---- lengths in a pack that the writer made

  lemma {:induction false} StartsGrow(parts: seq<bytes>, i: nat, j: nat)
    requires i < j <= |parts| && forall k | 0 <= k < |parts| :: parts[k] != []
    ensures StartOf(parts, i) + |parts[i]| <= StartOf(parts, j)
    decreases j
  {
    StartStep(parts, j - 1);
    if i < j - 1 { StartsGrow(parts, i, j - 1); }
  }

  ghost predicate NonEmpty(parts: seq<bytes>) {
    forall k | 0 <= k < |parts| :: parts[k] != []
  }

  /** Offsets that are the starts of `parts`, in order. */
  ghost predicate Starts(parts: seq<bytes>, offsets: seq<nat>) {
    |offsets| == |parts| && forall i | 0 <= i < |parts| :: offsets[i] == StartOf(parts, i)
  }

  /** The distance to the next start is exactly the part: all lengths but the last are exact. */
  lemma LengthsExact(parts: seq<bytes>, offsets: seq<nat>, i: nat)
    requires NonEmpty(parts) && Starts(parts, offsets) && i < |parts|
    ensures LengthAt(offsets, StartOf(parts, i)) == if i + 1 < |parts| then Some(|parts[i]|) else None
  {
    assert offsets[i] in offsets;
    NextAfterIs(offsets, StartOf(parts, i));
    var r := NextAfter(offsets, StartOf(parts, i));
    if r.Some? {
      var j: nat :| j < |offsets| && offsets[j] == r.value;
      if j < i { StartsGrow(parts, j, i); }
      if i + 1 < j { StartsGrow(parts, i + 1, j); }
    }
    if i + 1 < |parts| {
      StartStep(parts, i);
      assert offsets[i + 1] in offsets;
    }
  }

  lemma StartsDistinct(parts: seq<bytes>, offsets: seq<nat>)
    requires NonEmpty(parts) && Starts(parts, offsets)
    ensures Distinct(offsets)
  {
    forall i, j | 0 <= i < j < |offsets| ensures offsets[i] != offsets[j] { StartsGrow(parts, i, j); }
  }

  /** Objects that one pack and its index can hold. */
  ghost predicate Packable(z: Zlib, objs: seq<ToPack>) {
    && |objs| < TWO_32
    && (forall i | 0 <= i < |objs| :: |objs[i].oid| == 20)
    && (forall i, j | 0 <= i < j < |objs| :: objs[i].oid != objs[j].oid)
    && StartOf(Encoded(z, objs), |objs|) <= 0x8000_0000
  }

  lemma EntriesStart(z: Zlib, sums: Sums, objs: seq<ToPack>)
    ensures Starts(Encoded(z, objs), Offsets(EntriesOf(z, sums, objs))) && NonEmpty(Encoded(z, objs))
  {
  }

  lemma OffsetsReach(parts: seq<bytes>, es: seq<IndexEntry>, limit: nat)
    requires NonEmpty(parts) && Starts(parts, Offsets(es)) && StartOf(parts, |parts|) <= limit
    ensures forall e | e in es :: e.offset < limit
  {
    forall e | e in es ensures e.offset < limit {
      var i: nat :| i < |es| && es[i] == e;
      assert Offsets(es)[i] == e.offset;
      StartsGrow(parts, i, |parts|);
    }
  }

  lemma PackableIndexable(z: Zlib, sums: Sums, objs: seq<ToPack>)
    requires Packable(z, objs)
    ensures Indexable(EntriesOf(z, sums, objs))
  {
    EntriesStart(z, sums, objs);
    StartsDistinct(Encoded(z, objs), Offsets(EntriesOf(z, sums, objs)));
    OffsetsReach(Encoded(z, objs), EntriesOf(z, sums, objs), 0x8000_0000);
  }

  lemma FoundAt(es: seq<IndexEntry>, i: nat, r: Option<(nat, nat)>)
    requires Distinct(Oids(es)) && i < |es| && Found(es, es[i].oid, r)
    ensures r == Some((es[i].offset, LengthAt(Offsets(es), es[i].offset).GetOr(65536)))
  {
    assert es[i] in es;
    var e :| e in es && e.oid == es[i].oid && r.value == (e.offset, LengthAt(Offsets(es), e.offset).GetOr(65536));
    var j: nat :| j < |es| && es[j] == e;
    assert Oids(es)[j] == Oids(es)[i];
  }

  /** The index of a written pack gives each object its start and its exact length. */
  lemma WrittenFound(z: Zlib, sums: Sums, objs: seq<ToPack>, i: nat, r: Option<(nat, nat)>)
    requires Packable(z, objs) && i < |objs| && Found(EntriesOf(z, sums, objs), objs[i].oid, r)
    ensures
      var parts := Encoded(z, objs);
      r == Some((StartOf(parts, i), if i + 1 < |objs| then |parts[i]| else 65536))
  {
    PackableIndexable(z, sums, objs);
    EntriesStart(z, sums, objs);
    FoundAt(EntriesOf(z, sums, objs), i, r);
    LengthsExact(Encoded(z, objs), Offsets(EntriesOf(z, sums, objs)), i);
  }

  lemma WrittenMissing(z: Zlib, sums: Sums, objs: seq<ToPack>, oid: Oid, r: Option<(nat, nat)>)
    requires Found(EntriesOf(z, sums, objs), oid, r)
    ensures r.None? <==> forall t | t in objs :: t.oid != oid
  {
    var es := EntriesOf(z, sums, objs);
    if r.Some? {
      var e :| e in es && e.oid == oid;
      var j: nat :| j < |es| && es[j] == e;
      assert objs[j] in objs;
    } else {
      forall t | t in objs ensures t.oid != oid {
        var j: nat :| j < |objs| && objs[j] == t;
        assert es[j] in es;
      }
    }
  }

  /** Reading at the start of object `i` with a guess that covers it gives the object at once. */
  lemma WrittenReadsAt(z: Zlib, sums: Sums, st: Storage, objs: seq<ToPack>, i: nat, name: bytes, guess: nat)
    requires Lawful(z) && i < |objs| && |Encoded(z, objs)[i]| <= Max(guess + 64, 4096)
    requires name in st.packs && st.packs[name] == PackBytes(z, sums, objs)
    ensures ReadWithin(Reader(z), st, Spot(name, StartOf(Encoded(z, objs), i), guess), 1) == Some(Some(objs[i].obj))
  {
    var parts, head := Encoded(z, objs), Header(|objs|);
    var pack := PackBytes(z, sums, objs);
    PartAt(head, parts, sums.sha1(head + Concat(parts)), i);
    var after: bytes :| pack[StartOf(parts, i)..] == parts[i] + after;
    WrittenReads(z, objs[i].obj);
    ReaderAdvances(z);
    ReaderLocal(z);
    ReadsWhole(Reader(z), st, Spot(name, StartOf(parts, i), guess), parts[i], after, objs[i].obj);
  }

  lemma ReadsWhole(read: RecordReader, st: Storage, p: Spot, part: bytes, after: bytes, o: Obj)
    requires Advances(read) && Local(read) && Reads(read, part, Whole(o)) && p.pack in st.packs
    requires p.offset + |part| <= |st.packs[p.pack]| && st.packs[p.pack][p.offset..] == part + after
    requires |part| <= Max(p.guess + 64, 4096)
    ensures ReadWithin(read, st, p, 1) == Some(Some(o))
  {
    assert read(part + after) == Some((Whole(o), |part|));
    WindowReads(read, st.packs[p.pack], [(p.offset, Whole(o))], 0, |part|, p.guess);
  }

  /** One pack with its index, and nothing else. */
  function OnePack(name: bytes, pack: bytes, x: Index): Storage
    requires Shape(x)
  {
    var find := (id: Oid) =>
      match Scan(x.shas, x.offsets, x.offsets, id)
      case None => None
      case Some((offset, length)) => Some((name, offset, length));
    Storage(map[name := pack], (_, off) => LengthAt(x.offsets, off), find, _ => None, map[])
  }

  /** What reading by id in a written pack gives. */
  ghost predicate ReadsWritten(z: Zlib, objs: seq<ToPack>, oid: Oid, r: Option<Obj>) {
    && ((forall t | t in objs :: t.oid != oid) ==> r.None?)
    && forall i: nat | i < |objs| && objs[i].oid == oid && (i + 1 < |objs| || |Encoded(z, objs)[i]| <= 65600) ::
         r == Some(objs[i].obj)
  }

  lemma WrittenHasRead(z: Zlib, sums: Sums, st: Storage, objs: seq<ToPack>, name: bytes, i: nat, at: (nat, nat))
    requires Lawful(z) && Packable(z, objs) && name in st.packs && st.packs[name] == PackBytes(z, sums, objs)
    requires i < |objs| && Found(EntriesOf(z, sums, objs), objs[i].oid, Some(at))
    requires i + 1 < |objs| || |Encoded(z, objs)[i]| <= 65600
    ensures ReadWithin(Reader(z), st, Spot(name, at.0, at.1), 1) == Some(Some(objs[i].obj))
  {
    WrittenFound(z, sums, objs, i, Some(at));
    WrittenReadsAt(z, sums, st, objs, i, name, at.1);
  }

  lemma OnePackLists(name: bytes, pack: bytes, x: Index, oid: Oid)
    requires Shape(x) && |oid| == 20 && Scan(x.shas, x.offsets, x.offsets, oid).Some?
    ensures
      var (offset, length) := Scan(x.shas, x.offsets, x.offsets, oid).value;
      Locate(OnePack(name, pack, x), oid) == Listed(Spot(name, offset, length))
  {
  }

  lemma WrittenIsRead(z: Zlib, sums: Sums, objs: seq<ToPack>, name: bytes, x: Index, oid: Oid)
    requires Lawful(z) && Packable(z, objs) && |oid| == 20 && Shape(x)
    requires Found(EntriesOf(z, sums, objs), oid, Scan(x.shas, x.offsets, x.offsets, oid))
    ensures
      var read := RawWithin(Reader(z), OnePack(name, PackBytes(z, sums, objs), x), oid, 1);
      ReadsWritten(z, objs, oid, read.GetOr(None))
  {
    WrittenMissing(z, sums, objs, oid, Scan(x.shas, x.offsets, x.offsets, oid));
    var st, at := OnePack(name, PackBytes(z, sums, objs), x), Scan(x.shas, x.offsets, x.offsets, oid);
    if at.Some? {
      OnePackLists(name, PackBytes(z, sums, objs), x, oid);
      var read := ReadWithin(Reader(z), st, Spot(name, at.value.0, at.value.1), 1);
      assert RawWithin(Reader(z), st, oid, 1) == read;
      forall i: nat | i < |objs| && objs[i].oid == oid && (i + 1 < |objs| || |Encoded(z, objs)[i]| <= 65600)
        ensures read == Some(Some(objs[i].obj))
      {
        WrittenHasRead(z, sums, st, objs, name, i, at.value);
      }
    } else {
      assert forall i | 0 <= i < |objs| :: objs[i] in objs;
    }
  }

  /** Write objects into a pack and its index, then read one back by its id alone, from a storage
      that holds nothing else: the object that was written under that id, or none. The last must
      fit the 64 KiB window. */
  method WriteThenReadById(z: Zlib, sums: Sums, objs: seq<ToPack>, name: bytes, oid: Oid) returns (r: Option<Obj>)
    requires Lawful(z) && Packable(z, objs) && |oid| == 20 && forall d :: |sums.sha1(d)| == 20
    ensures ReadsWritten(z, objs, oid, r)
  {
    var pack, entries, packSha := CreatePackData(z, sums, objs);
    PackableIndexable(z, sums, objs);
    var x := WriteThenParse(sums, entries, packSha);
    var storage := new GcsGitStorage(z, OnePack(name, pack, x));
    var read := storage.ReadObjectRaw(oid, 1);
    WrittenIsRead(z, sums, objs, name, x, oid);
    return read.GetOr(None);
  }
}
