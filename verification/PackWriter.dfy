/** Writing a packfile and the entries its index will hold (src/git/pack_writer.rs). */
module PackWriter {
  import opened Basics
  import opened Numbers
  import opened Zlib
  import opened Layout
  import opened PackFormat
  import opened PackResolve
  import PackReader

  /** An object with the id it was given. */
  datatype ToPack = ToPack(oid: Oid, obj: Obj)

  datatype IndexEntry = IndexEntry(oid: Oid, offset: nat, crc: nat)

  /** SHA-1 of a byte string, and CRC-32. */
  datatype Sums = Sums(sha1: bytes -> bytes, crc32: bytes -> nat)

  // ---- where the parts of a pack lie

  /** Where part `i` begins, after a header of 12 bytes. */
  function StartOf(parts: seq<bytes>, i: nat): nat
    requires i <= |parts|
  {
    12 + |Concat(parts[..i])|
  }

  lemma StartStep(parts: seq<bytes>, i: nat)
    requires i < |parts|
    ensures StartOf(parts, i + 1) == StartOf(parts, i) + |parts[i]|
  {
    assert parts[..i + 1] == parts[..i] + [parts[i]];
    ConcatSnoc(parts[..i], parts[i]);
  }

  /** The bytes around part `i`. */
  lemma {:induction false} ConcatSplits(parts: seq<bytes>, i: nat) returns (after: bytes)
    requires i < |parts|
    ensures Concat(parts) == Concat(parts[..i]) + (parts[i] + after)
    decreases |parts|
  {
    var front, last := parts[..|parts| - 1], parts[|parts| - 1];
    if i == |parts| - 1 {
      after := [];
      assert last + [] == last;
    } else {
      var mid := ConcatSplits(front, i);
      assert front[..i] == parts[..i];
      after := mid + last;
      RegroupThree(Concat(parts[..i]), parts[i], mid, last);
    }
  }

  lemma RegroupThree(a: bytes, b: bytes, c: bytes, d: bytes)
    ensures a + (b + c) + d == a + (b + (c + d))
  {
  }

  /** `part` is found in `pack` at `start`. */
  ghost predicate Lies(pack: bytes, start: nat, part: bytes) {
    start + |part| <= |pack| && exists after: bytes :: pack[start..] == part + after
  }

  /** Reading from the start of part `i` meets that part first. */
  lemma PartAt(head: bytes, parts: seq<bytes>, tail: bytes, i: nat)
    requires |head| == 12 && i < |parts|
    ensures Lies(head + Concat(parts) + tail, StartOf(parts, i), parts[i])
  {
    var rest := ConcatSplits(parts, i);
    var after := rest + tail;
    var front := head + Concat(parts[..i]);
    RegroupParts(head, Concat(parts[..i]), parts[i], rest, tail);
    DropFront(front, parts[i] + after);
  }

  lemma RegroupParts(a: bytes, b: bytes, c: bytes, d: bytes, e: bytes)
    ensures a + (b + (c + d)) + e == (a + b) + (c + (d + e))
  {
  }

  // ---- what is written

  function Encoded(z: Zlib, objs: seq<ToPack>): (parts: seq<bytes>)
    ensures |parts| == |objs| && forall i | 0 <= i < |objs| :: parts[i] == WriteObject(z, objs[i].obj)
  {
    seq(|objs|, i requires 0 <= i < |objs| => WriteObject(z, objs[i].obj))
  }

  function Header(n: nat): (r: bytes)
    ensures |r| == 12
  {
    MAGIC + Be32(2) + Be32(n)
  }

  /** The pack of `objs`, with its closing checksum. */
  function PackBytes(z: Zlib, sums: Sums, objs: seq<ToPack>): bytes {
    var content := Header(|objs|) + Concat(Encoded(z, objs));
    content + sums.sha1(content)
  }

  /** The entry of object `i`: where it starts, and the checksum of its bytes in the pack. */
  function EntryOf(sums: Sums, objs: seq<ToPack>, parts: seq<bytes>, i: nat): IndexEntry
    requires i < |objs| == |parts|
  {
    IndexEntry(objs[i].oid, StartOf(parts, i), sums.crc32(parts[i]))
  }

  function EntriesOf(z: Zlib, sums: Sums, objs: seq<ToPack>): (es: seq<IndexEntry>)
    ensures |es| == |objs|
  {
    var parts := Encoded(z, objs);
    seq(|objs|, i requires 0 <= i < |objs| => EntryOf(sums, objs, parts, i))
  }

  // ---- the writer's loops

  /** What the size loop has still to write. */
  function SizeRest(size: nat): bytes {
    if size > 0 then EncodeVarint(size) else []
  }

  lemma SizeRestStep(size: nat)
    requires size > 0
    ensures SizeRest(size) == [size % 128 + if size / 128 > 0 then 128 else 0] + SizeRest(size / 128)
  {
    if size >= 128 { assert EncodeVarint(size) == [128 + size % 128] + EncodeVarint(size / 128); }
  }

  /** The loop that writes an object's type and size. */
  method PushSize(pack: bytes, kind: Kind, length: nat) returns (r: bytes)
    ensures r == pack + EncodeSize(KindNumber(kind), length)
  {
    var size: nat := length / 16;
    var first := KindNumber(kind) * 16 + length % 16 + if size > 0 then 128 else 0;
    r := pack + [first];
    ghost var all := EncodeSize(KindNumber(kind), length);
    assert all == [first] + SizeRest(size);
    Regroup(pack, [first], SizeRest(size));
    while size > 0
      invariant r + SizeRest(size) == pack + all
    {
      SizeRestStep(size);
      var b := size % 128 + if size / 128 > 0 then 128 else 0;
      Regroup(r, [b], SizeRest(size / 128));
      size := size / 128;
      r := r + [b];
    }
    assert r + [] == r;
  }

  /** One object: its header, its compressed data, and its entry. */
  method PushObject(z: Zlib, sums: Sums, pack: bytes, item: ToPack) returns (r: bytes, e: IndexEntry)
    ensures r == pack + WriteObject(z, item.obj)
    ensures e == IndexEntry(item.oid, |pack|, sums.crc32(WriteObject(z, item.obj)))
  {
    r := PushSize(pack, item.obj.kind, |item.obj.data|);
    var compressed := z.deflate(item.obj.data);
    ghost var head := EncodeSize(KindNumber(item.obj.kind), |item.obj.data|);
    DropFront(pack, head);
    Regroup(pack, head, compressed);
    var crc := sums.crc32(r[|pack|..] + compressed);
    return r + compressed, IndexEntry(item.oid, |pack|, crc);
  }

  method CreatePackData(z: Zlib, sums: Sums, objs: seq<ToPack>)
    returns (pack: bytes, entries: seq<IndexEntry>, packSha: bytes)
    ensures pack == PackBytes(z, sums, objs)
    ensures entries == EntriesOf(z, sums, objs)
    ensures packSha == sums.sha1(Header(|objs|) + Concat(Encoded(z, objs)))
  {
    ghost var parts, head, es := Encoded(z, objs), Header(|objs|), EntriesOf(z, sums, objs);
    pack := MAGIC + Be32(2) + Be32(|objs|);
    entries := [];
    assert parts[..0] == [] && head + [] == head;
    for i := 0 to |objs|
      invariant pack == head + Concat(parts[..i])
      invariant entries == es[..i]
    {
      ConcatTo(head, parts, i);
      assert es[..i + 1] == es[..i] + [es[i]];
      var e: IndexEntry;
      pack, e := PushObject(z, sums, pack, objs[i]);
      entries := entries + [e];
    }
    assert parts[..|objs|] == parts && es[..|objs|] == es;
    packSha := sums.sha1(pack);
    pack := pack + packSha;
  }

  lemma ConcatTo(head: bytes, parts: seq<bytes>, i: nat)
    requires |head| == 12 && i < |parts|
    ensures head + Concat(parts[..i + 1]) == head + Concat(parts[..i]) + parts[i]
    ensures |head + Concat(parts[..i])| == StartOf(parts, i)
  {
    assert parts[..i + 1] == parts[..i] + [parts[i]];
    ConcatSnoc(parts[..i], parts[i]);
    Regroup(head, Concat(parts[..i]), parts[i]);
  }

  // ---- reading it back

  /** Whatever follows it, `part` reads as `r`, and is read to its last byte. */
  ghost predicate Reads(read: RecordReader, part: bytes, r: Record) {
    |part| > 0 && forall rest: bytes :: read(part + rest) == Some((r, |part|))
  }

  lemma WrittenReads(z: Zlib, o: Obj)
    requires Lawful(z)
    ensures Reads(Reader(z), WriteObject(z, o), Whole(o))
  {
    forall rest: bytes ensures Reader(z)(WriteObject(z, o) + rest) == Some((Whole(o), |WriteObject(z, o)|)) {
      ObjectRoundTrip(z, o, rest);
    }
  }

  ghost predicate AllRead(read: RecordReader, parts: seq<bytes>, items: seq<Record>) {
    |parts| == |items| && forall i | 0 <= i < |items| :: Reads(read, parts[i], items[i])
  }

  function Wholes(objs: seq<ToPack>): (items: seq<Record>)
    ensures |items| == |objs| && forall i | 0 <= i < |objs| :: items[i] == Whole(objs[i].obj)
  {
    seq(|objs|, i requires 0 <= i < |objs| => Whole(objs[i].obj))
  }

  lemma AllWrittenRead(z: Zlib, objs: seq<ToPack>)
    requires Lawful(z)
    ensures AllRead(Reader(z), Encoded(z, objs), Wholes(objs))
  {
    forall i | 0 <= i < |objs| ensures Reads(Reader(z), Encoded(z, objs)[i], Wholes(objs)[i]) {
      WrittenReads(z, objs[i].obj);
    }
  }

  /** The records of `parts` from number `i` on, with their positions. */
  ghost function RecordsFrom(parts: seq<bytes>, items: seq<Record>, i: nat): (r: Records)
    requires i <= |items| == |parts|
    ensures |r| == |items| - i
    decreases |items| - i
  {
    if i == |items| then [] else [(StartOf(parts, i), items[i])] + RecordsFrom(parts, items, i + 1)
  }

  lemma {:induction false} RecordsFromAt(parts: seq<bytes>, items: seq<Record>, i: nat, j: nat)
    requires i <= j < |items| == |parts|
    ensures RecordsFrom(parts, items, i)[j - i] == (StartOf(parts, j), items[j])
    decreases j - i
  {
    if i < j { RecordsFromAt(parts, items, i + 1, j); }
  }

  lemma ReadsOne(read: RecordReader, pack: bytes, pos: nat, next: nat, n: nat, part: bytes, r: Record, rs: Records)
    requires n > 0 && Lies(pack, pos, part) && Reads(read, part, r) && next == pos + |part|
    requires r.OfsDelta? ==> r.distance <= pos
    requires ReadRecords(read, pack, next, n - 1) == Some(rs)
    ensures ReadRecords(read, pack, pos, n) == Some([(pos, r)] + rs)
  {
    var after: bytes :| pack[pos..] == part + after;
    assert read(part + after) == Some((r, |part|));
  }

  ghost predicate PartsLie(pack: bytes, parts: seq<bytes>) {
    forall i: nat | i < |parts| :: Lies(pack, StartOf(parts, i), parts[i])
  }

  /** No delta by distance reaches before the pack. */
  ghost predicate InReach(parts: seq<bytes>, items: seq<Record>)
    requires |parts| == |items|
  {
    forall i | 0 <= i < |items| :: items[i].OfsDelta? ==> items[i].distance <= StartOf(parts, i)
  }

  lemma {:induction false} ReadsBack(read: RecordReader, pack: bytes, parts: seq<bytes>, items: seq<Record>, i: nat)
    requires PartsLie(pack, parts) && i <= |items| && AllRead(read, parts, items) && InReach(parts, items)
    ensures ReadRecords(read, pack, StartOf(parts, i), |items| - i) == Some(RecordsFrom(parts, items, i))
    decreases |items| - i
  {
    if i < |items| {
      ReadsBack(read, pack, parts, items, i + 1);
      StartStep(parts, i);
      ReadsOne(read, pack, StartOf(parts, i), StartOf(parts, i + 1), |items| - i, parts[i], items[i],
        RecordsFrom(parts, items, i + 1));
    }
  }

  lemma HeaderReads(n: nat, rest: bytes)
    requires n < TWO_32
    ensures PackCount(Header(n) + rest) == Some(n)
  {
    var pack := Header(n) + rest;
    assert pack[0..4] == MAGIC && pack[4..8] == Be32(2) && pack[8..12] == Be32(n);
    Be32RoundTrip(2);
    Be32RoundTrip(n);
  }

  /** A pack of parts that read as `items` has these as its records. */
  lemma PartsAreRecords(z: Zlib, parts: seq<bytes>, items: seq<Record>, tail: bytes)
    requires AllRead(Reader(z), parts, items) && InReach(parts, items) && |items| < TWO_32
    ensures RecordsOf(z, Header(|items|) + Concat(parts) + tail) == Some(RecordsFrom(parts, items, 0))
  {
    var head := Header(|items|);
    Regroup(head, Concat(parts), tail);
    HeaderReads(|items|, Concat(parts) + tail);
    assert parts[..0] == [];
    forall i: nat | i < |parts| ensures Lies(head + Concat(parts) + tail, StartOf(parts, i), parts[i]) {
      PartAt(head, parts, tail, i);
    }
    ReadsBack(Reader(z), head + Concat(parts) + tail, parts, items, 0);
  }

  /** The reader finds the header, and each record exactly where the writer put it. */
  lemma WrittenRecords(z: Zlib, sums: Sums, objs: seq<ToPack>)
    requires Lawful(z) && |objs| < TWO_32
    ensures RecordsOf(z, PackBytes(z, sums, objs)) == Some(RecordsFrom(Encoded(z, objs), Wholes(objs), 0))
  {
    AllWrittenRead(z, objs);
    PartsAreRecords(z, Encoded(z, objs), Wholes(objs), sums.sha1(Header(|objs|) + Concat(Encoded(z, objs))));
  }

  /** Every id is the hash of its object, and ids do not collide. */
  ghost predicate ProperlyNamed(h: Hash, objs: seq<ToPack>) {
    && (forall t | t in objs :: t.oid == h(t.obj))
    && (forall s, t | s in objs && t in objs && s.oid == t.oid :: s.obj == t.obj)
  }

  /** A pack of whole objects: each record stands for its own object and for no other. */
  lemma WholeRecords(z: Zlib, h: Hash, objs: seq<ToPack>, i: nat, o: Obj)
    ensures
      var rs := RecordsFrom(Encoded(z, objs), Wholes(objs), 0);
      Stands(h, rs, i, o) <==> i < |objs| && o == objs[i].obj
  {
    var rs := RecordsFrom(Encoded(z, objs), Wholes(objs), 0);
    if i < |objs| {
      RecordsFromAt(Encoded(z, objs), Wholes(objs), 0, i);
      WholeStands(h, rs, i);
    }
  }

  /** `m` maps each id to its object, and holds nothing else. */
  ghost predicate Contains(m: map<Oid, Obj>, objs: seq<ToPack>) {
    && (forall t | t in objs :: t.oid in m && m[t.oid] == t.obj)
    && (forall oid | oid in m :: exists t :: t in objs && t.oid == oid)
  }

  lemma OutcomeIsObjects(z: Zlib, h: Hash, objs: seq<ToPack>, r: Result<map<Oid, Obj>, PackReader.PackError>)
    requires ProperlyNamed(h, objs)
    requires
      var rs := RecordsFrom(Encoded(z, objs), Wholes(objs), 0);
      NoCollision(h, rs) ==> PackReader.Outcome(h, rs, r)
    ensures r.Ok? && Contains(r.value, objs)
  {
    var rs := RecordsFrom(Encoded(z, objs), Wholes(objs), 0);
    forall i: nat, o: Obj ensures Stands(h, rs, i, o) <==> i < |objs| && o == objs[i].obj {
      WholeRecords(z, h, objs, i, o);
    }
    forall i: nat | i < |objs| ensures rs[i].1 == Whole(objs[i].obj) {
      RecordsFromAt(Encoded(z, objs), Wholes(objs), 0, i);
    }
    assert NoCollision(h, rs) by {
      forall i: nat, a: Obj, j: nat, b: Obj | Stands(h, rs, i, a) && Stands(h, rs, j, b)
        && h(a) == h(b) ensures a == b {
        assert objs[i] in objs && objs[j] in objs;
      }
    }
    forall i: nat | i < |rs| ensures Grounded(h, rs, i) { assert Stands(h, rs, i, objs[i].obj); }
    assert AllStand(h, rs);
    forall t | t in objs ensures t.oid in r.value && r.value[t.oid] == t.obj {
      var i: nat :| i < |objs| && objs[i] == t;
      assert Stands(h, rs, i, t.obj);
    }
    forall oid | oid in r.value ensures exists t :: t in objs && t.oid == oid {
      var i: nat :| Stands(h, rs, i, r.value[oid]);
      assert objs[i] in objs;
    }
  }

  /** Pack then unpack is the identity on id-to-object maps. */
  method PackThenUnpack(z: Zlib, h: Hash, sums: Sums, objs: seq<ToPack>)
    returns (r: Result<map<Oid, Obj>, PackReader.PackError>)
    requires Lawful(z) && ProperlyNamed(h, objs) && |objs| < TWO_32
    ensures r.Ok? && Contains(r.value, objs)
  {
    var pack, _, _ := CreatePackData(z, sums, objs);
    WrittenRecords(z, sums, objs);
    r := PackReader.UnpackPackfile(z, h, pack);
    OutcomeIsObjects(z, h, objs, r);
  }
}
