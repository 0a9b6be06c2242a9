/** Writing a version 2 index, and what a reader makes of it (src/git/pack_writer.rs,
    `create_idx_v2_data`; src/git/idx.rs). */
module IndexWriter {
  import opened Basics
  import opened Numbers
  import opened Layout
  import opened Sorting
  import opened PackIndex
  import PackWriter

  type Entry = PackWriter.IndexEntry

  predicate EntryLeq(a: Entry, b: Entry) {
    LexLeq(a.oid, b.oid)
  }

  // ---- the columns of the index

  function Oids(es: seq<Entry>): (r: seq<Oid>)
    ensures |r| == |es| && forall i | 0 <= i < |es| :: r[i] == es[i].oid
  {
    seq(|es|, i requires 0 <= i < |es| => es[i].oid)
  }

  function Crcs(es: seq<Entry>): (r: seq<nat>)
    ensures |r| == |es| && forall i | 0 <= i < |es| :: r[i] == es[i].crc
  {
    seq(|es|, i requires 0 <= i < |es| => es[i].crc)
  }

  function Offsets(es: seq<Entry>): (r: seq<nat>)
    ensures |r| == |es| && forall i | 0 <= i < |es| :: r[i] == es[i].offset
  {
    seq(|es|, i requires 0 <= i < |es| => es[i].offset)
  }

  ghost predicate Named(es: seq<Entry>) {
    forall i | 0 <= i < |es| :: es[i].oid != []
  }

  /** The fanout: how many ids begin with a byte of at most `b`. */
  function Fanout(oids: seq<Oid>): (r: seq<nat>)
    requires NoneEmpty(oids)
    ensures |r| == 256 && forall b | 0 <= b < 256 :: r[b] == CountUpTo(oids, b)
  {
    seq(256, b requires 0 <= b < 256 => CountUpTo(oids, b))
  }

  function IdxHeader(): (r: bytes)
    ensures |r| == 8
  {
    IDX_MAGIC + Be32(2)
  }

  /** The index of `es`, which are in order, up to its own checksum. */
  function IdxBody(es: seq<Entry>, packSha: bytes): bytes
    requires Named(es)
  {
    IdxHeader() + Concat(Words(Fanout(Oids(es)))) + Concat(Oids(es)) + Concat(Words(Crcs(es))) +
      Concat(Words(Offsets(es))) + packSha
  }

  function IdxBytes(sums: PackWriter.Sums, es: seq<Entry>, packSha: bytes): bytes
    requires Named(es)
  {
    IdxBody(es, packSha) + sums.sha1(IdxBody(es, packSha))
  }

  ghost predicate TooFar(es: seq<Entry>) {
    exists e :: e in es && e.offset > 0x7fff_ffff
  }

  // ---- the writer's loops

  function CountAt(shas: seq<Oid>, b: int): nat
    requires NoneEmpty(shas)
  {
    if shas == [] then 0
    else CountAt(shas[..|shas| - 1], b) + if shas[|shas| - 1][0] == b then 1 else 0
  }

  lemma {:induction false} CountAdds(shas: seq<Oid>, b: int)
    requires NoneEmpty(shas)
    ensures CountUpTo(shas, b) == CountUpTo(shas, b - 1) + CountAt(shas, b)
    ensures b < 0 ==> CountUpTo(shas, b) == 0
    decreases |shas|
  {
    if shas != [] { CountAdds(shas[..|shas| - 1], b); }
  }

  lemma CountSnoc(shas: seq<Oid>, i: nat, b: int)
    requires NoneEmpty(shas) && i < |shas|
    ensures CountAt(shas[..i + 1], b) == CountAt(shas[..i], b) + if shas[i][0] == b then 1 else 0
  {
    assert shas[..i + 1][..i] == shas[..i];
  }

  /** Count the first bytes, then accumulate. */
  method BuildFanout(es: seq<Entry>) returns (r: seq<nat>)
    requires Named(es)
    ensures r == Fanout(Oids(es))
  {
    ghost var oids := Oids(es);
    var fanout := new nat[256](_ => 0);
    for i := 0 to |es|
      invariant forall b | 0 <= b < 256 :: fanout[b] == CountAt(oids[..i], b)
    {
      forall b | 0 <= b < 256 ensures CountAt(oids[..i + 1], b) == CountAt(oids[..i], b) + if oids[i][0] == b
        then 1 else 0 {
        CountSnoc(oids, i, b);
      }
      fanout[es[i].oid[0]] := fanout[es[i].oid[0]] + 1;
    }
    assert oids[..|es|] == oids;
    var cum := 0;
    CountAdds(oids, -1);
    for b := 0 to 256
      invariant cum == CountUpTo(oids, b - 1)
      invariant forall c | 0 <= c < b :: fanout[c] == CountUpTo(oids, c)
      invariant forall c | b <= c < 256 :: fanout[c] == CountAt(oids, c)
    {
      CountAdds(oids, b);
      cum := cum + fanout[b];
      fanout[b] := cum;
    }
    r := fanout[..];
  }

  /** The loop that appends a table of words. */
  method PushWords(d: bytes, ns: seq<nat>) returns (r: bytes)
    ensures r == d + Concat(Words(ns))
  {
    r := d;
    ghost var parts := Words(ns);
    assert parts[..0] == [] && d + [] == d;
    for i := 0 to |ns|
      invariant r == d + Concat(parts[..i])
    {
      assert parts[..i + 1] == parts[..i] + [parts[i]];
      ConcatSnoc(parts[..i], parts[i]);
      Associate(d, Concat(parts[..i]), parts[i]);
      r := r + Be32(ns[i]);
    }
    assert parts[..|ns|] == parts;
  }

  method PushOids(d: bytes, es: seq<Entry>) returns (r: bytes)
    ensures r == d + Concat(Oids(es))
  {
    r := d;
    ghost var parts := Oids(es);
    assert parts[..0] == [] && d + [] == d;
    for i := 0 to |es|
      invariant r == d + Concat(parts[..i])
    {
      assert parts[..i + 1] == parts[..i] + [parts[i]];
      ConcatSnoc(parts[..i], parts[i]);
      Associate(d, Concat(parts[..i]), parts[i]);
      r := r + es[i].oid;
    }
    assert parts[..|es|] == parts;
  }

  /** The offsets, unless one needs more than 31 bits. */
  method CollectOffsets(es: seq<Entry>) returns (r: Option<seq<nat>>)
    ensures r == if TooFar(es) then None else Some(Offsets(es))
  {
    var offsets: seq<nat> := [];
    for i := 0 to |es|
      invariant offsets == Offsets(es)[..i]
      invariant forall j | 0 <= j < i :: es[j].offset <= 0x7fff_ffff
    {
      if es[i].offset > 0x7fff_ffff {
        assert es[i] in es;
        return None;
      }
      offsets := offsets + [es[i].offset];
    }
    assert Offsets(es)[..|es|] == Offsets(es);
    return Some(offsets);
  }

  lemma SortNamed(es: seq<Entry>)
    requires Named(es)
    ensures Named(Sort(es, EntryLeq))
    ensures TooFar(Sort(es, EntryLeq)) <==> TooFar(es)
  {
    var s := Sort(es, EntryLeq);
    forall e ensures e in s <==> e in es { SortHolds(es, EntryLeq, e); }
    forall i | 0 <= i < |s| ensures s[i].oid != [] { assert s[i] in s; }
  }

  method CreateIdx(sums: PackWriter.Sums, entries: seq<Entry>, packSha: bytes) returns (r: Option<bytes>)
    requires Named(entries)
    ensures r.None? <==> TooFar(entries)
    ensures r.Some? ==> Named(Sort(entries, EntryLeq)) && r.value == IdxBytes(sums, Sort(entries, EntryLeq), packSha)
  {
    var es := Sort(entries, EntryLeq);
    SortNamed(entries);
    var fanout := BuildFanout(es);
    var d := IDX_MAGIC + Be32(2);
    d := PushWords(d, fanout);
    d := PushOids(d, es);
    d := PushWords(d, Crcs(es));
    var offsets := CollectOffsets(es);
    if offsets.None? { return None; }
    d := PushWords(d, offsets.value);
    d := d + packSha;
    return Some(d + sums.sha1(d));
  }

  // ---- reading it back

  /** Seven byte strings end to end, seen around the second, the third, the fifth and the sixth. */
  lemma AroundSecond(a: bytes, b: bytes, c: bytes, d: bytes, e: bytes, f: bytes, g: bytes)
    ensures a + b + c + d + e + f + g == a + b + (c + d + e + f + g)
  {
    Associate(a + b, c, d);
    Associate(a + b, c + d, e);
    Associate(a + b, c + d + e, f);
    Associate(a + b, c + d + e + f, g);
  }

  lemma AroundThird(a: bytes, b: bytes, c: bytes, d: bytes, e: bytes, f: bytes)
    ensures a + b + c + d + e + f == a + b + (c + d + e + f)
  {
    Associate(a + b, c, d);
    Associate(a + b, c + d, e);
    Associate(a + b, c + d + e, f);
  }

  /** The entries of an index whose offsets and ids fit their columns. */
  ghost predicate Fits(es: seq<Entry>) {
    && |es| < TWO_32
    && (forall i | 0 <= i < |es| :: |es[i].oid| == 20)
    && !TooFar(es)
  }

  lemma ColumnWidths(es: seq<Entry>)
    requires Named(es) && Fits(es)
    ensures |Concat(Words(Fanout(Oids(es))))| == 1024
    ensures |Concat(Oids(es))| == 20 * |es| && |Concat(Words(Crcs(es)))| == 4 * |es|
    ensures |Concat(Words(Offsets(es)))| == 4 * |es|
  {
    WordsWide(Fanout(Oids(es)));
    WordsWide(Crcs(es));
    WordsWide(Offsets(es));
    TableSize(Words(Fanout(Oids(es))), 4);
    TableSize(Oids(es), 20);
    TableSize(Words(Crcs(es)), 4);
    TableSize(Words(Offsets(es)), 4);
  }

  lemma {:induction false} CountAll(shas: seq<Oid>)
    requires NoneEmpty(shas)
    ensures CountUpTo(shas, 255) == |shas|
    decreases |shas|
  {
    if shas != [] { CountAll(shas[..|shas| - 1]); }
  }

  lemma HeaderWord(rest: bytes)
    ensures
      var d := IdxHeader() + rest;
      d[0..4] == IDX_MAGIC && Word(d, 4) == 2
  {
    var d := IdxHeader() + rest;
    assert d[0..4] == IDX_MAGIC && d[4..8] == Be32(2);
    Be32RoundTrip(2);
  }

  /** The header and the fanout read back. */
  lemma FanoutReads(es: seq<Entry>, packSha: bytes, q: bytes)
    requires Named(es) && Fits(es) && |packSha| == 20 && |q| == 20
    ensures
      var d := IdxBody(es, packSha) + q;
      |d| == 1072 + 28 * |es| && HeaderOk(d) && CountOf(d) == |es| &&
      forall b | 0 <= b < 256 :: Word(d, 8 + 4 * b) == Fanout(Oids(es))[b]
  {
    var f, s, c, o := Fanout(Oids(es)), Concat(Oids(es)), Concat(Words(Crcs(es))), Concat(Words(Offsets(es)));
    var rest := s + c + o + packSha + q;
    AroundSecond(IdxHeader(), Concat(Words(f)), s, c, o, packSha, q);
    ColumnWidths(es);
    Associate(IdxHeader(), Concat(Words(f)), rest);
    HeaderWord(Concat(Words(f)) + rest);
    CountAll(Oids(es));
    forall b | 0 <= b < 256 ensures Word(IdxBody(es, packSha) + q, 8 + 4 * b) == f[b] {
      WordWithin(IdxHeader(), f, rest, b);
    }
  }

  lemma ShasRead(es: seq<Entry>, packSha: bytes, q: bytes, i: nat)
    requires Named(es) && Fits(es) && |packSha| == 20 && |q| == 20 && i < |es|
    ensures |IdxBody(es, packSha) + q| >= LargeAt(|es|) + 40
    ensures ShaOf(IdxBody(es, packSha) + q, |es|, i) == es[i].oid
  {
    var f, c, o := Concat(Words(Fanout(Oids(es)))), Concat(Words(Crcs(es))), Concat(Words(Offsets(es)));
    AroundThird(IdxHeader() + f, Concat(Oids(es)), c, o, packSha, q);
    ColumnWidths(es);
    RowWithin(IdxHeader() + f, Oids(es), c + o + packSha + q, 20, i);
  }

  /** The offset column, wherever it comes from. */
  lemma ColumnReads(d: bytes, front: bytes, ns: seq<nat>, after: bytes, i: nat)
    requires d == front + Concat(Words(ns)) + after && |front| == OffsetsAt(|ns|) && |after| >= 40
    requires |Concat(Words(ns))| == 4 * |ns| && i < |ns| && ns[i] < TWO_32
    ensures |d| >= LargeAt(|ns|) + 40 && RawOffset(d, |ns|, i) == ns[i]
  {
    WordWithin(front, ns, after, i);
  }

  lemma RawOffsetsRead(es: seq<Entry>, packSha: bytes, q: bytes, i: nat)
    requires Named(es) && Fits(es) && |packSha| == 20 && |q| == 20 && i < |es|
    ensures |IdxBody(es, packSha) + q| >= LargeAt(|es|) + 40
    ensures RawOffset(IdxBody(es, packSha) + q, |es|, i) == Offsets(es)[i]
  {
    var front := IdxHeader() + Concat(Words(Fanout(Oids(es)))) + Concat(Oids(es)) + Concat(Words(Crcs(es)));
    Associate(front + Concat(Words(Offsets(es))), packSha, q);
    ColumnWidths(es);
    assert es[i] in es;
    ColumnReads(IdxBody(es, packSha) + q, front, Offsets(es), packSha + q, i);
  }

  lemma OffsetsRead(es: seq<Entry>, packSha: bytes, q: bytes, i: nat)
    requires Named(es) && Fits(es) && |packSha| == 20 && |q| == 20 && i < |es|
    ensures |IdxBody(es, packSha) + q| >= LargeAt(|es|) + 40
    ensures OffsetOf(IdxBody(es, packSha) + q, |es|, i) == Some(es[i].offset)
  {
    RawOffsetsRead(es, packSha, q, i);
    assert es[i] in es;
  }

  lemma PackShaReads(es: seq<Entry>, packSha: bytes, q: bytes)
    requires Named(es) && |packSha| == 20 && |q| == 20
    ensures
      var d := IdxBody(es, packSha) + q;
      |d| >= 40 && d[|d| - 40..|d| - 20] == packSha
  {
    var front := IdxHeader() + Concat(Words(Fanout(Oids(es)))) + Concat(Oids(es)) + Concat(Words(Crcs(es))) +
      Concat(Words(Offsets(es)));
    BeforeLast(front, packSha, q);
  }

  lemma BeforeLast(a: bytes, b: bytes, c: bytes)
    ensures (a + b + c)[|a|..|a| + |b|] == b
  {
  }

  /** A parse of a written index has its columns. */
  lemma WrittenParses(es: seq<Entry>, packSha: bytes, q: bytes, x: Index)
    requires Named(es) && Fits(es) && |packSha| == 20 && |q| == 20
    ensures !Refused(IdxBody(es, packSha) + q)
    ensures Parses(IdxBody(es, packSha) + q, x) ==>
      x.fanout == Fanout(Oids(es)) && x.shas == Oids(es) && x.offsets == Offsets(es) && x.packSha == packSha
  {
    var d := IdxBody(es, packSha) + q;
    FanoutReads(es, packSha, q);
    PackShaReads(es, packSha, q);
    forall i: nat | i < |es| ensures ShaOf(d, |es|, i) == es[i].oid { ShasRead(es, packSha, q, i); }
    forall i: nat | i < |es| ensures OffsetOf(d, |es|, i) == Some(es[i].offset) { OffsetsRead(es, packSha, q, i); }
  }
}
