/** What the bytes of packs are, number by number (gitformat-pack(5)): every statement here is
    about bytes at given places, so that reader and writer are not only each other's inverse. */
module PackOctets {
  import opened Basics
  import opened Numbers
  import opened Zlib
  import opened Layout
  import opened PackFormat
  import opened PackWriter
  import Delta

  // ---- numbers

  function Power128(k: nat): nat {
    if k == 0 then 1 else 128 * Power128(k - 1)
  }

  /** The digits of a varint, lowest first. */
  function DigitSum(bs: bytes): nat {
    if bs == [] then 0 else DigitSum(bs[..|bs| - 1]) + (bs[|bs| - 1] % 128) * Power128(|bs| - 1)
  }

  lemma {:induction false} DigitFirst(b: byte, bs: bytes)
    ensures DigitSum([b] + bs) == b % 128 + 128 * DigitSum(bs)
    decreases |bs|
  {
    var all := [b] + bs;
    if bs == [] {
      assert all[..0] == [] && Power128(0) == 1;
    } else {
      var front, last := bs[..|bs| - 1], bs[|bs| - 1];
      assert all[..|all| - 1] == [b] + front && all[|all| - 1] == last;
      DigitFirst(b, front);
      Scaled(last % 128, Power128(|bs| - 1));
    }
  }

  lemma Scaled(digit: nat, power: nat)
    ensures digit * (128 * power) == 128 * (digit * power)
  {
  }

  /** A varint is the sum of its digits, seven bits each, and ends at the first byte below 128. */
  lemma {:induction false} VarintSums(bs: bytes, rest: bytes)
    requires Terminated(bs)
    ensures Varint(bs + rest) == Some((DigitSum(bs), |bs|))
    decreases |bs|
  {
    SplitFirst(bs, rest);
    TerminatedTail(bs);
    DigitFirst(bs[0], bs[1..]);
    if |bs| > 1 {
      VarintSums(bs[1..], rest);
    } else {
      assert bs[1..] == [];
    }
  }

  /** Distances of one, two and three bytes: highest bits first, and every byte more adds one. */
  lemma DistanceBytes(a: byte, b: byte, c: byte, rest: bytes)
    requires a < 128 && b >= 128 && c >= 128
    ensures Distance([a] + rest) == Some((a, 1))
    ensures Distance([b, a] + rest) == Some(((b - 128 + 1) * 128 + a, 2))
    ensures Distance([b, c, a] + rest) == Some((((b - 128 + 1) * 128 + (c - 128) + 1) * 128 + a, 3))
  {
    DistanceDecodes([a], rest);
    DistanceDecodes([b, a], rest);
    DistanceDecodes([b, c, a], rest);
    DistanceOfOne(a);
    DistanceOfOne(b);
    assert [b, a][..1] == [b] && [b, c][..1] == [b] && [b, c, a][..2] == [b, c];
    assert DistanceOf([b, c]) == (DistanceOf([b]) + 1) * 128 + c % 128;
    assert DistanceOf([b, c, a]) == (DistanceOf([b, c]) + 1) * 128 + a % 128;
  }

  // ---- the type and size of a record

  /** The type is in bits 4 to 6 of the first byte; the size in its lower four bits and in the
      digits that follow. */
  lemma SizeBytes(bs: bytes, rest: bytes)
    requires Terminated(bs)
    ensures ReadSize(bs + rest) == Some((bs[0] / 16 % 8, bs[0] % 16 + 16 * DigitSum(bs[1..]), |bs|))
  {
    SplitFirst(bs, rest);
    TerminatedTail(bs);
    if |bs| > 1 {
      VarintSums(bs[1..], rest);
    } else {
      assert bs[1..] == [];
    }
  }

  /** What type numbers 1 to 7 say of what follows the header. */
  lemma TypeNumbers(z: Zlib, bs: bytes, rest: bytes)
    requires Terminated(bs)
    ensures
      var t, r, n := bs[0] / 16 % 8, ReadRecord(z, bs + rest), |bs|;
      && (t == 0 || t == 5 ==> r == None)
      && (1 <= t <= 4 ==>
            r == match z.inflate(rest)
              case None => None
              case Some((data, m)) =>
                var kind := if t == 1 then CommitKind else if t == 2 then TreeKind else if t == 3 then BlobKind
                  else TagKind;
                Some((Whole(Obj(kind, data)), n + m)))
      && (t == 6 ==>
            r == match Distance(rest)
              case None => None
              case Some((distance, k)) =>
                match z.inflate(rest[k..])
                case None => None
                case Some((delta, m)) => Some((OfsDelta(distance, delta), n + k + m)))
      && (t == 7 ==>
            r == if |rest| < 20 then None
              else
                match z.inflate(rest[20..])
                case None => None
                case Some((delta, m)) => Some((RefDelta(rest[..20], delta), n + 20 + m)))
  {
    SizeBytes(bs, rest);
    DropFront(bs, rest);
  }

  /** The first byte that is written for an object: its type, and its size's lowest four bits. */
  lemma FirstByte(z: Zlib, o: Obj)
    ensures
      var b := WriteObject(z, o)[0];
      && b / 16 % 8 == (match o.kind case CommitKind => 1 case TreeKind => 2 case BlobKind => 3 case TagKind => 4)
      && b % 16 == |o.data| % 16 && (b >= 128 <==> |o.data| >= 16)
  {
    var head := EncodeSize(KindNumber(o.kind), |o.data|);
    assert WriteObject(z, o)[0] == head[0];
  }

  // ---- a whole pack

  /** A pack starts with PACK, version 2 or 3, and the number of objects. */
  lemma PackStart(pack: bytes)
    ensures PackCount(pack).Some? <==>
      |pack| >= 12 && pack[..4] == [80, 65, 67, 75] && pack[4] == 0 && pack[5] == 0 && pack[6] == 0
      && (pack[7] == 2 || pack[7] == 3)
    ensures PackCount(pack).Some? ==> PackCount(pack).value == FromBe32(pack[8..12])
  {
    if |pack| >= 12 {
      assert pack[0..4] == pack[..4];
      var w := pack[4..8];
      assert w[0] == pack[4] && w[1] == pack[5] && w[2] == pack[6] && w[3] == pack[7];
    }
  }

  lemma HeaderBytes(n: nat)
    ensures Header(n) == [80, 65, 67, 75, 0, 0, 0, 2, n / 16777216 % 256, n / 65536 % 256, n / 256 % 256, n % 256]
  {
    assert Be32(2) == [0, 0, 0, 2];
  }

  /** Where object `i` lies in a written pack: its bytes are there, its entry says where, and its
      checksum is theirs; the pack ends with the checksum of all before it. */
  lemma PackLayout(z: Zlib, sums: Sums, objs: seq<ToPack>, i: nat)
    requires i < |objs|
    ensures
      var pack, e := PackBytes(z, sums, objs), EntriesOf(z, sums, objs)[i];
      var part := WriteObject(z, objs[i].obj);
      && e.oid == objs[i].oid && e.offset + |part| <= |pack| && pack[e.offset..e.offset + |part|] == part
      && e.crc == sums.crc32(part)
      && (i == 0 ==> e.offset == 12)
      && (i + 1 < |objs| ==> EntriesOf(z, sums, objs)[i + 1].offset == e.offset + |part|)
      && (i + 1 == |objs| ==> pack[e.offset + |part|..] == sums.sha1(pack[..e.offset + |part|]))
  {
    var parts, content := Encoded(z, objs), Header(|objs|) + Concat(Encoded(z, objs));
    var tail := sums.sha1(content);
    PartAt(Header(|objs|), parts, tail, i);
    StartStep(parts, i);
    var pack, start := PackBytes(z, sums, objs), StartOf(parts, i);
    var after: bytes :| pack[start..] == parts[i] + after;
    TakeFront(pack, start, parts[i], after);
    if i == 0 { assert parts[..0] == []; }
    if i + 1 == |objs| {
      assert parts[..i + 1] == parts;
      DropFront(content, tail);
      assert (content + tail)[..|content|] == content;
    }
  }

  lemma TakeFront(d: bytes, at: nat, a: bytes, b: bytes)
    requires at <= |d| && d[at..] == a + b
    ensures at + |a| <= |d| && d[at..at + |a|] == a
  {
    assert d[at..at + |a|] == d[at..][..|a|];
  }

  // ---- delta instructions

  /** A copy with all its bytes: four of the offset and three of the size, lowest first. */
  lemma CopyBytes(o0: byte, o1: byte, o2: byte, o3: byte, s0: byte, s1: byte, s2: byte, rest: bytes)
    ensures
      var size := (s0 as int) + (s1 as int) * 256 + (s2 as int) * 65536;
      Delta.ReadInstr([255, o0, o1, o2, o3, s0, s1, s2] + rest, 0) ==
        Some((Delta.Copy((o0 as int) + (o1 as int) * 256 + (o2 as int) * 65536 + (o3 as int) * 16777216,
                         if size == 0 then 65536 else size), 8))
  {
    var d := [255, o0, o1, o2, o3, s0, s1, s2] + rest;
    assert d[0] == 255 && d[1] == o0 && d[2] == o1 && d[3] == o2 && d[4] == o3 && d[5] == s0 && d[6] == s1
      && d[7] == s2;
  }

  /** A copy with one byte of the offset: bits 0 to 3 of the opcode say which it is; bit 4
      announces the low byte of the size. */
  lemma CopyOffsetLow(b: byte, s: byte, rest: bytes)
    requires s > 0
    ensures Delta.ReadInstr([145, b, s] + rest, 0) == Some((Delta.Copy(b, s), 3))
    ensures Delta.ReadInstr([146, b, s] + rest, 0) == Some((Delta.Copy((b as int) * 256, s), 3))
  {
    var d, e := [145, b, s] + rest, [146, b, s] + rest;
    assert d[0] == 145 && d[1] == b && d[2] == s && e[0] == 146 && e[1] == b && e[2] == s;
  }

  lemma CopyOffsetHigh(b: byte, s: byte, rest: bytes)
    requires s > 0
    ensures Delta.ReadInstr([148, b, s] + rest, 0) == Some((Delta.Copy((b as int) * 65536, s), 3))
    ensures Delta.ReadInstr([152, b, s] + rest, 0) == Some((Delta.Copy((b as int) * 16777216, s), 3))
  {
    var d, e := [148, b, s] + rest, [152, b, s] + rest;
    assert d[0] == 148 && d[1] == b && d[2] == s && e[0] == 152 && e[1] == b && e[2] == s;
  }

  /** And with one of the two high bytes of the size: bits 5 and 6. */
  lemma CopySizeHigh(s: byte, rest: bytes)
    requires s > 0
    ensures Delta.ReadInstr([160, s] + rest, 0) == Some((Delta.Copy(0, (s as int) * 256), 2))
    ensures Delta.ReadInstr([192, s] + rest, 0) == Some((Delta.Copy(0, (s as int) * 65536), 2))
  {
    var d, e := [160, s] + rest, [192, s] + rest;
    assert d[0] == 160 && d[1] == s && e[0] == 192 && e[1] == s;
  }

  /** An insert is its length and its bytes; 0 is no instruction. */
  lemma InsertBytes(data: bytes, rest: bytes)
    requires 0 < |data| < 128
    ensures Delta.ReadInstr([|data|] + data + rest, 0) == Some((Delta.Insert(data), 1 + |data|))
    ensures Delta.ReadInstr([0] + rest, 0) == None
  {
    var d := [|data|] + data + rest;
    assert d[0] == |data| && d[1..1 + |data|] == data;
  }

  /** A delta starts with the length of its base and of its result. */
  lemma DeltaStart(a: byte, b: byte, rest: bytes)
    requires a < 128 && b < 128
    ensures Delta.ReadHeader([a, b] + rest) == Some((b, 2))
  {
    var d := [a, b] + rest;
    assert d[0] == a && d[1..][0] == b;
    assert Varint(d) == Some((a, 1)) && Varint(d[1..]) == Some((b, 1));
  }
}
