/** The records of a packfile: type and size header, delta base, compressed data
    (src/git/pack.rs, src/git/pack_writer.rs; gitformat-pack(5), "Size encoding" and
    "Deltified representation"). */
module PackFormat {
  import opened Basics
  import opened Numbers
  import opened Zlib

  datatype Kind = CommitKind | TreeKind | BlobKind | TagKind

  datatype Obj = Obj(kind: Kind, data: bytes)

  type Hash = Obj -> Oid

  function KindNumber(k: Kind): byte {
    match k case CommitKind => 1 case TreeKind => 2 case BlobKind => 3 case TagKind => 4
  }

  datatype Record =
    | Whole(obj: Obj)
    | OfsDelta(distance: nat, delta: bytes)
    | RefDelta(base: Oid, delta: bytes)

  /** The size header: type number, declared size, bytes taken. */
  function ReadSize(d: bytes): (r: Option<(nat, nat, nat)>)
    ensures r.Some? ==> 0 < r.value.2 <= |d| && r.value.0 < 8
  {
    if d == [] then None
    else
      var kind, low := d[0] / 16 % 8, d[0] % 16;
      if d[0] < 128 then Some((kind, low, 1))
      else
        match Varint(d[1..])
        case None => None
        case Some((high, n)) => Some((kind, low + 16 * high, n + 1))
  }

  function EncodeSize(kind: byte, size: nat): (r: bytes)
    requires kind < 8
    ensures |r| > 0
  {
    if size < 16 then [kind * 16 + size] else [128 + kind * 16 + size % 16] + EncodeVarint(size / 16)
  }

  lemma SizeRoundTrip(kind: byte, size: nat, rest: bytes)
    requires kind < 8
    ensures ReadSize(EncodeSize(kind, size) + rest) == Some((kind, size, |EncodeSize(kind, size)|))
  {
    if size >= 16 {
      VarintRoundTrip(size / 16, rest);
      assert (EncodeSize(kind, size) + rest)[1..] == EncodeVarint(size / 16) + rest;
    }
  }

  lemma SizeLocal(d: bytes, w: bytes)
    requires ReadSize(d).Some? && ReadSize(d).value.2 <= |w| && w[..ReadSize(d).value.2] == d[..ReadSize(d).value.2]
    ensures ReadSize(w) == ReadSize(d)
  {
    var n := ReadSize(d).value.2;
    assert w[0] == w[..n][0] == d[..n][0] == d[0];
    if d[0] >= 128 {
      assert w[1..][..n - 1] == w[..n][1..] == d[..n][1..] == d[1..][..n - 1];
      VarintLocal(d[1..], w[1..]);
    }
  }

  function KindOf(number: nat): Option<Kind> {
    if number == 1 then Some(CommitKind) else if number == 2 then Some(TreeKind)
    else if number == 3 then Some(BlobKind) else if number == 4 then Some(TagKind) else None
  }

  /** What follows the size header of a record of type `number`: the record and the bytes taken. */
  function ReadBody(z: Zlib, number: nat, d: bytes): Option<(Record, nat)> {
    if number == 6 then
      match Distance(d)
      case None => None
      case Some((distance, n)) =>
        match z.inflate(d[n..])
        case None => None
        case Some((delta, m)) => Some((OfsDelta(distance, delta), n + m))
    else if number == 7 then
      if |d| < 20 then None
      else
        match z.inflate(d[20..])
        case None => None
        case Some((delta, m)) => Some((RefDelta(d[..20], delta), 20 + m))
    else if KindOf(number).Some? then
      match z.inflate(d)
      case None => None
      case Some((data, m)) => Some((Whole(Obj(KindOf(number).value, data)), m))
    else None
  }

  /** The record at the start of `d` and the bytes it takes. */
  function ReadRecord(z: Zlib, d: bytes): Option<(Record, nat)> {
    match ReadSize(d)
    case None => None
    case Some((number, _, n)) =>
      match ReadBody(z, number, d[n..])
      case None => None
      case Some((r, m)) => Some((r, n + m))
  }

  function WriteObject(z: Zlib, o: Obj): (r: bytes)
    ensures |r| > 0
  {
    EncodeSize(KindNumber(o.kind), |o.data|) + z.deflate(o.data)
  }

  lemma BodyTakes(z: Zlib, number: nat, d: bytes)
    requires Lawful(z) && ReadBody(z, number, d).Some?
    ensures 0 < ReadBody(z, number, d).value.1 <= |d|
  {
    if number == 6 { assert SelfDelimiting(z, d[Distance(d).value.1..], []); }
    else if number == 7 { assert SelfDelimiting(z, d[20..], []); }
    else { assert SelfDelimiting(z, d, []); }
  }

  lemma RecordTakes(z: Zlib, d: bytes)
    requires Lawful(z) && ReadRecord(z, d).Some?
    ensures 0 < ReadRecord(z, d).value.1 <= |d|
  {
    var (number, _, n) := ReadSize(d).value;
    BodyTakes(z, number, d[n..]);
  }

  lemma {:induction false} CutTwice(d: bytes, w: bytes, i: nat, j: nat)
    requires i <= j <= |d| && j <= |w| && w[..j] == d[..j]
    ensures w[..i] == d[..i] && w[i..][..j - i] == d[i..][..j - i]
  {
    assert w[..j][..i] == w[..i] && d[..j][..i] == d[..i];
    assert w[..j][i..] == w[i..][..j - i] && d[..j][i..] == d[i..][..j - i];
  }

  lemma BodyLocal(z: Zlib, number: nat, d: bytes, w: bytes)
    requires Lawful(z) && ReadBody(z, number, d).Some?
    requires ReadBody(z, number, d).value.1 <= |w|
    requires |d| >= ReadBody(z, number, d).value.1
    requires w[..ReadBody(z, number, d).value.1] == d[..ReadBody(z, number, d).value.1]
    ensures ReadBody(z, number, w) == ReadBody(z, number, d)
  {
    var m := ReadBody(z, number, d).value.1;
    if number == 6 {
      var n := Distance(d).value.1;
      assert SelfDelimiting(z, d[n..], w[n..]);
      CutTwice(d, w, n, m);
      DistanceLocal(d, w);
    } else if number == 7 {
      assert SelfDelimiting(z, d[20..], w[20..]);
      CutTwice(d, w, 20, m);
    } else {
      assert SelfDelimiting(z, d, w);
    }
  }

  /** A record is known from its own bytes: any window that holds them reads the same. */
  lemma RecordLocal(z: Zlib, d: bytes, w: bytes)
    requires Lawful(z) && ReadRecord(z, d).Some?
    requires ReadRecord(z, d).value.1 <= |w|
    requires |d| >= ReadRecord(z, d).value.1 && w[..ReadRecord(z, d).value.1] == d[..ReadRecord(z, d).value.1]
    ensures ReadRecord(z, w) == ReadRecord(z, d)
  {
    var m := ReadRecord(z, d).value.1;
    var (number, _, n) := ReadSize(d).value;
    BodyTakes(z, number, d[n..]);
    CutTwice(d, w, n, m);
    SizeLocal(d, w);
    BodyLocal(z, number, d[n..], w[n..]);
  }

  /** What the writer emits for an object reads back as that object, to its last byte. */
  lemma ObjectRoundTrip(z: Zlib, o: Obj, rest: bytes)
    requires Lawful(z)
    ensures ReadRecord(z, WriteObject(z, o) + rest) == Some((Whole(o), |WriteObject(z, o)|))
    ensures ReadSize(WriteObject(z, o) + rest).value.1 == |o.data|
  {
    var head, body := EncodeSize(KindNumber(o.kind), |o.data|), z.deflate(o.data);
    assert WriteObject(z, o) + rest == head + (body + rest);
    SizeRoundTrip(KindNumber(o.kind), |o.data|, body + rest);
    assert (head + (body + rest))[|head|..] == body + rest;
  }

  // ---- a whole pack

  /** Reading a record from the start of some bytes, and how many it takes. */
  type RecordReader = bytes -> Option<(Record, nat)>

  function Reader(z: Zlib): RecordReader {
    d => ReadRecord(z, d)
  }

  /** A record takes at least one byte, and none beyond the end. */
  ghost predicate Advances(read: RecordReader) {
    forall d: bytes :: read(d).Some? ==> 0 < read(d).value.1 <= |d|
  }

  lemma ReaderAdvances(z: Zlib)
    requires Lawful(z)
    ensures Advances(Reader(z))
  {
    forall d: bytes | Reader(z)(d).Some? ensures 0 < Reader(z)(d).value.1 <= |d| { RecordTakes(z, d); }
  }

  /** A record is known from its own bytes. */
  ghost predicate Local(read: RecordReader) {
    forall d: bytes, w: bytes :: LocalAt(read, d, w)
  }

  ghost predicate LocalAt(read: RecordReader, d: bytes, w: bytes) {
    read(d).Some? ==>
      var n := read(d).value.1;
      n <= |d| && n <= |w| && w[..n] == d[..n] ==> read(w) == read(d)
  }

  lemma ReaderLocal(z: Zlib)
    requires Lawful(z)
    ensures Local(Reader(z))
  {
    forall d: bytes, w: bytes ensures LocalAt(Reader(z), d, w) {
      if ReadRecord(z, d).Some? {
        var n := ReadRecord(z, d).value.1;
        if n <= |d| && n <= |w| && w[..n] == d[..n] { RecordLocal(z, d, w); }
      }
    }
  }

  /** The records of `n` objects from position `pos` on, with their positions. */
  function ReadRecords(read: RecordReader, pack: bytes, pos: nat, n: nat): Option<seq<(nat, Record)>>
    decreases n
  {
    if n == 0 then Some([])
    else if pos >= |pack| then None
    else
      match read(pack[pos..])
      case None => None
      case Some((r, used)) =>
        // an OFS_DELTA that reaches before the start of the pack is rejected
        if r.OfsDelta? && r.distance > pos then None
        else
          match ReadRecords(read, pack, pos + used, n - 1)
          case None => None
          case Some(rs) => Some([(pos, r)] + rs)
  }

  const MAGIC: bytes := [0x50, 0x41, 0x43, 0x4b]

  /** The object count of a pack with a valid header. */
  function PackCount(pack: bytes): Option<nat> {
    if |pack| < 12 || pack[0..4] != MAGIC then None
    else
      var version := FromBe32(pack[4..8]);
      if version != 2 && version != 3 then None else Some(FromBe32(pack[8..12]))
  }

  function RecordsOf(z: Zlib, pack: bytes): Option<seq<(nat, Record)>> {
    match PackCount(pack)
    case None => None
    case Some(n) => ReadRecords(Reader(z), pack, 12, n)
  }
}
