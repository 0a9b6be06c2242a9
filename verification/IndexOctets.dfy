/** What the bytes of a version 2 index are, place by place (gitformat-pack(5), "Version 2
    pack-*.idx files"): those that are read, those that are refused, and those that are written. */
module IndexOctets {
  import opened Basics
  import opened Numbers
  import opened Layout
  import opened Sorting
  import opened PackIndex
  import opened IndexWriter
  import opened IndexLookup
  import PackWriter

  /** The number in four bytes, highest first. */
  function Number(d: bytes, at: nat): nat
    requires at + 4 <= |d|
  {
    (d[at] as int) * 16777216 + (d[at + 1] as int) * 65536 + (d[at + 2] as int) * 256 + d[at + 3]
  }

  lemma WordIs(d: bytes, at: nat)
    requires at + 4 <= |d|
    ensures Word(d, at) == Number(d, at)
  {
    var w := d[at..at + 4];
    assert w[0] == d[at] && w[1] == d[at + 1] && w[2] == d[at + 2] && w[3] == d[at + 3];
  }

  predicate StartsRight(d: bytes) {
    |d| >= 1072 && d[..8] == [255, 116, 79, 99, 0, 0, 0, 2]
  }

  lemma HeaderIs(d: bytes)
    ensures HeaderOk(d) <==> StartsRight(d)
  {
    if |d| >= 1072 {
      WordIs(d, 4);
      var h := d[..8];
      assert h[0] == d[0] && h[1] == d[1] && h[2] == d[2] && h[3] == d[3];
      assert h[4] == d[4] && h[5] == d[5] && h[6] == d[6] && h[7] == d[7];
      var m := d[0..4];
      assert m[0] == d[0] && m[1] == d[1] && m[2] == d[2] && m[3] == d[3];
      if HeaderOk(d) { assert h == [255, 116, 79, 99, 0, 0, 0, 2]; }
      if StartsRight(d) { assert m == [255, 116, 79, 99]; }
    }
  }

  /** Where object `i` of `n` has its offset: four bytes, or, with the top bit set, the number of
      an eight-byte entry behind them, which must end 40 bytes before the file does. */
  function OffsetRead(d: bytes, n: nat, i: nat): Option<nat>
    requires i < n && 1072 + 28 * n <= |d|
  {
    var w := Number(d, 1032 + 24 * n + 4 * i);
    if w < 2147483648 then Some(w)
    else
      var at := 1032 + 28 * n + 8 * (w - 2147483648);
      if at + 48 > |d| then None else Some(Number(d, at) * 4294967296 + Number(d, at + 4))
  }

  lemma OffsetIs(d: bytes, n: nat, i: nat)
    requires i < n && 1072 + 28 * n <= |d|
    ensures OffsetOf(d, n, i) == OffsetRead(d, n, i)
  {
    WordIs(d, 1032 + 24 * n + 4 * i);
    var w := Number(d, 1032 + 24 * n + 4 * i);
    if w >= 2147483648 {
      var at := 1032 + 28 * n + 8 * (w - 2147483648);
      if at + 48 <= |d| {
        WordIs(d, at);
        WordIs(d, at + 4);
      }
    }
  }

  /** What is read: fanout, ids, offsets and the pack's checksum, each at its place. */
  lemma ParsedBytes(d: bytes, x: Index)
    requires Parses(d, x)
    ensures StartsRight(d) && |x.shas| == Number(d, 1028) && 1072 + 28 * |x.shas| <= |d|
    ensures |x.fanout| == 256 && forall b | 0 <= b < 256 :: x.fanout[b] == Number(d, 8 + 4 * b)
    ensures forall i | 0 <= i < |x.shas| :: x.shas[i] == d[1032 + 20 * i..1052 + 20 * i]
    ensures |x.offsets| == |x.shas|
    ensures forall i | 0 <= i < |x.shas| :: OffsetRead(d, |x.shas|, i) == Some(x.offsets[i])
    ensures x.packSha == d[|d| - 40..|d| - 20]
  {
    HeaderIs(d);
    WordIs(d, 1028);
    forall b | 0 <= b < 256 ensures x.fanout[b] == Number(d, 8 + 4 * b) { WordIs(d, 8 + 4 * b); }
    forall i | 0 <= i < |x.shas| ensures OffsetRead(d, |x.shas|, i) == Some(x.offsets[i]) {
      OffsetIs(d, |x.shas|, i);
    }
    forall i | 0 <= i < |x.shas| ensures x.shas[i] == d[1032 + 20 * i..1052 + 20 * i] {
      assert x.shas[i] == ShaOf(d, |x.shas|, i);
    }
  }

  /** What is refused: a wrong start, a file shorter than its tables, or an entry of the large
      offsets that is not there. */
  lemma RefusedBytes(d: bytes)
    ensures Refused(d) <==>
      || !StartsRight(d) || |d| < 1072 + 28 * Number(d, 1028)
      || exists i: nat :: i < Number(d, 1028) && OffsetRead(d, Number(d, 1028), i) == None
  {
    HeaderIs(d);
    if |d| >= 1072 {
      WordIs(d, 1028);
      var n := Number(d, 1028);
      if |d| >= 1072 + 28 * n {
        forall i: nat | i < n ensures OffsetOf(d, n, i) == OffsetRead(d, n, i) { OffsetIs(d, n, i); }
      }
    }
  }

  // ---- what is written

  /** The column of checksums. */
  lemma CrcReads(es: seq<Entry>, packSha: bytes, q: bytes, i: nat)
    requires Named(es) && Fits(es) && |packSha| == 20 && |q| == 20 && i < |es| && es[i].crc < TWO_32
    ensures 1072 + 28 * |es| <= |IdxBody(es, packSha) + q|
    ensures Number(IdxBody(es, packSha) + q, 1032 + 20 * |es| + 4 * i) == es[i].crc
  {
    var front := IdxHeader() + Concat(Words(Fanout(Oids(es)))) + Concat(Oids(es));
    var c, o := Crcs(es), Concat(Words(Offsets(es)));
    ColumnWidths(es);
    Associate(front + Concat(Words(c)), o, packSha);
    Associate(front + Concat(Words(c)), o + packSha, q);
    WordWithin(front, c, o + packSha + q, i);
    WordIs(IdxBody(es, packSha) + q, |front| + 4 * i);
  }

  /** How many ids start with a byte of at most `b`. */
  lemma {:induction false} CountIs(shas: seq<Oid>, b: int)
    requires NoneEmpty(shas)
    ensures CountUpTo(shas, b) == |set i | 0 <= i < |shas| && shas[i][0] <= b|
    decreases |shas|
  {
    var all := set i | 0 <= i < |shas| && shas[i][0] <= b;
    if shas == [] {
      assert all == {};
    } else {
      var k := |shas| - 1;
      var front := shas[..k];
      CountIs(front, b);
      var below := set i | 0 <= i < |front| && front[i][0] <= b;
      assert all == if shas[k][0] <= b then below + {k} else below;
    }
  }

  /** Each column of a written index, in the order of the ids, at its place. */
  lemma WrittenColumns(es: seq<Entry>, packSha: bytes, q: bytes, i: nat)
    requires Named(es) && Fits(es) && |packSha| == 20 && |q| == 20 && i < |es| && es[i].crc < TWO_32
    ensures
      var d, n := IdxBody(es, packSha) + q, |es|;
      && |d| == 1072 + 28 * n
      && d[1032 + 20 * i..1052 + 20 * i] == es[i].oid
      && Number(d, 1032 + 20 * n + 4 * i) == es[i].crc
      && Number(d, 1032 + 24 * n + 4 * i) == es[i].offset
  {
    FanoutReads(es, packSha, q);
    ShasRead(es, packSha, q, i);
    CrcReads(es, packSha, q, i);
    OffsetNumber(es, packSha, q, i);
  }

  lemma OffsetNumber(es: seq<Entry>, packSha: bytes, q: bytes, i: nat)
    requires Named(es) && Fits(es) && |packSha| == 20 && |q| == 20 && i < |es|
    ensures 1072 + 28 * |es| <= |IdxBody(es, packSha) + q|
    ensures Number(IdxBody(es, packSha) + q, 1032 + 24 * |es| + 4 * i) == es[i].offset
  {
    RawOffsetsRead(es, packSha, q, i);
    WordIs(IdxBody(es, packSha) + q, 1032 + 24 * |es| + 4 * i);
  }

  /** A written index starts with its magic number and version, and ends with two checksums: the
      pack's, and that of all before. */
  lemma WrittenEnds(sums: PackWriter.Sums, es: seq<Entry>, packSha: bytes)
    requires Named(es) && Fits(es) && |packSha| == 20 && |sums.sha1(IdxBody(es, packSha))| == 20
    ensures
      var d, n := IdxBytes(sums, es, packSha), |es|;
      && |d| == 1072 + 28 * n && StartsRight(d)
      && d[1032 + 28 * n..1052 + 28 * n] == packSha && d[1052 + 28 * n..] == sums.sha1(d[..1052 + 28 * n])
  {
    var body := IdxBody(es, packSha);
    var q := sums.sha1(body);
    FanoutReads(es, packSha, q);
    HeaderIs(body + q);
    PackShaReads(es, packSha, q);
    DropFront(body, q);
    assert (body + q)[..|body|] == body;
  }

  /** The fanout of a written index counts first bytes. */
  lemma WrittenFanout(sums: PackWriter.Sums, es: seq<Entry>, packSha: bytes, b: byte)
    requires Named(es) && Fits(es) && |packSha| == 20 && |sums.sha1(IdxBody(es, packSha))| == 20
    ensures
      var d := IdxBytes(sums, es, packSha);
      |d| >= 1072 && Number(d, 8 + 4 * b) == |set i | 0 <= i < |es| && es[i].oid[0] <= b|
  {
    FanoutReads(es, packSha, sums.sha1(IdxBody(es, packSha)));
    WordIs(IdxBytes(sums, es, packSha), 8 + 4 * b);
    CountIs(Oids(es), b);
    assert (set i | 0 <= i < |es| && es[i].oid[0] <= b) == set i | 0 <= i < |Oids(es)| && Oids(es)[i][0] <= b;
  }

  /** Ids are written in ascending order: of two that differ, the earlier has the lower byte where
      they first differ. */
  lemma WrittenInOrder(es: seq<Entry>, i: nat, j: nat)
    requires var s := Sort(es, EntryLeq); i < j < |s| && s[i].oid != s[j].oid && |s[i].oid| == |s[j].oid|
    ensures
      var s := Sort(es, EntryLeq);
      exists k: nat :: DifferAt(s[i].oid, s[j].oid, k) && s[i].oid[k] < s[j].oid[k]
  {
    var s := Sort(es, EntryLeq);
    EntryOrder();
    SortAscends(es, EntryLeq);
    assert EntryLeq(s[i], s[j]);
    var k := FirstDifference(s[i].oid, s[j].oid);
    LexDiffer(s[i].oid, s[j].oid, k);
  }
}
