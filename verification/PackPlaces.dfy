/** Windows on a pack, and where its records lie in it (src/git/gcs_storage.rs,
    `read_pack_object`, reads a window that it guesses). */
module PackPlaces {
  import opened Basics
  import opened Zlib
  import opened PackFormat
  import opened PackResolve
  import PackReader

  /** Bytes read for an object whose length is guessed as `guess`: at least 4096 of them,
      cut at the end of the pack. */
  function Window(pack: bytes, offset: nat, guess: nat): bytes {
    if offset >= |pack| then [] else pack[offset..Min(offset + Max(guess + 64, 4096), |pack|)]
  }

  function DeclaredSize(w: bytes): nat {
    match ReadSize(w)
    case None => 0
    case Some((_, size, _)) => size
  }

  lemma WindowPrefix(pack: bytes, offset: nat, g: nat, g2: nat)
    requires |Window(pack, offset, g)| <= |Window(pack, offset, g2)|
    ensures Window(pack, offset, g) <= Window(pack, offset, g2)
  {
  }

  lemma TakePrefix(w: bytes, w2: bytes, n: nat)
    requires w <= w2 && n <= |w|
    ensures w2[..n] == w[..n]
  {
  }

  /** Two windows at one offset that can be read give the same record and declared size. */
  lemma SameRecord(z: Zlib, pack: bytes, offset: nat, g: nat, g2: nat)
    requires Lawful(z) && Reader(z)(Window(pack, offset, g)).Some? && Reader(z)(Window(pack, offset, g2)).Some?
    requires |Window(pack, offset, g)| <= |Window(pack, offset, g2)|
    ensures Reader(z)(Window(pack, offset, g)) == Reader(z)(Window(pack, offset, g2))
    ensures DeclaredSize(Window(pack, offset, g)) == DeclaredSize(Window(pack, offset, g2))
  {
    var w, w2 := Window(pack, offset, g), Window(pack, offset, g2);
    RecordTakes(z, w);
    WindowPrefix(pack, offset, g, g2);
    TakePrefix(w, w2, ReadRecord(z, w).value.1);
    TakePrefix(w, w2, ReadSize(w).value.2);
    RecordLocal(z, w, w2);
    SizeLocal(w, w2);
  }

  // ---- where the records of a pack lie

  /** Record `i` of `rs` is read at its position and takes `used` bytes. */
  ghost predicate RecordAt(read: RecordReader, pack: bytes, rs: Records, i: nat, used: nat) {
    i < |rs| && rs[i].0 < |pack| && read(pack[rs[i].0..]) == Some((rs[i].1, used))
  }

  /** Record `i` takes its own `used` bytes from `pos` on, and the next begins where it ends. */
  ghost predicate Placed(read: RecordReader, pack: bytes, pos: nat, rs: Records, i: nat, used: nat) {
    && RecordAt(read, pack, rs, i, used) && used > 0 && pos <= rs[i].0
    && (i + 1 < |rs| ==> rs[i + 1].0 == rs[i].0 + used)
  }

  lemma {:induction false} RecordLies(read: RecordReader, pack: bytes, pos: nat, n: nat, rs: Records, i: nat)
    returns (used: nat)
    requires Advances(read) && ReadRecords(read, pack, pos, n) == Some(rs) && i < |rs|
    ensures Placed(read, pack, pos, rs, i, used)
    decreases i
  {
    var first := read(pack[pos..]).value.1;
    if i == 0 {
      used := first;
    } else {
      used := RecordLies(read, pack, pos + first, n - 1, rs[1..], i - 1);
    }
  }

  lemma {:induction false} PositionsGrow(read: RecordReader, pack: bytes, pos: nat, n: nat, rs: Records, i: nat, j: nat)
    requires Advances(read) && ReadRecords(read, pack, pos, n) == Some(rs) && i < j < |rs|
    ensures rs[i].0 < rs[j].0
    decreases j
  {
    var used := RecordLies(read, pack, pos, n, rs, j - 1);
    if i < j - 1 { PositionsGrow(read, pack, pos, n, rs, i, j - 1); }
  }

  /** `rs` are the records that `read` finds in `pack`. */
  ghost predicate Holds(read: RecordReader, pack: bytes, rs: Records) {
    Advances(read) && Local(read) && PackCount(pack).Some?
      && ReadRecords(read, pack, 12, PackCount(pack).value) == Some(rs)
  }

  lemma HoldsRecords(z: Zlib, pack: bytes, rs: Records)
    requires Lawful(z) && RecordsOf(z, pack) == Some(rs)
    ensures Holds(Reader(z), pack, rs)
  {
    ReaderAdvances(z);
    ReaderLocal(z);
  }

  lemma RecordPlaced(read: RecordReader, pack: bytes, rs: Records, i: nat) returns (used: nat)
    requires Holds(read, pack, rs) && i < |rs|
    ensures Placed(read, pack, 12, rs, i, used)
  {
    used := RecordLies(read, pack, 12, PackCount(pack).value, rs, i);
  }

  lemma OffsetsDiffer(read: RecordReader, pack: bytes, rs: Records)
    requires Holds(read, pack, rs)
    ensures DistinctOffsets(rs)
  {
    forall i, j | 0 <= i < j < |rs| ensures rs[i].0 != rs[j].0 {
      PositionsGrow(read, pack, 12, PackCount(pack).value, rs, i, j);
    }
  }

  /** A guess of at least the record's length shows the whole record. */
  lemma WindowReads(read: RecordReader, pack: bytes, rs: Records, i: nat, used: nat, guess: nat)
    requires Advances(read) && Local(read) && RecordAt(read, pack, rs, i, used) && used <= Max(guess + 64, 4096)
    ensures read(Window(pack, rs[i].0, guess)) == Some((rs[i].1, used))
  {
    var d, w := pack[rs[i].0..], Window(pack, rs[i].0, guess);
    assert used <= |d|;
    assert w[..used] == d[..used];
    assert LocalAt(read, d, w);
  }

  // ---- lengths, and bases by distance

  ghost function LengthOf(rs: Records, i: nat): Option<nat>
    requires i + 1 < |rs|
  {
    if rs[i + 1].0 < rs[i].0 then None else Some(rs[i + 1].0 - rs[i].0)
  }

  /** `guess` covers record `i`, or the least window does. */
  ghost predicate Covers(read: RecordReader, pack: bytes, rs: Records, i: nat, guess: nat) {
    forall used: nat | RecordAt(read, pack, rs, i, used) :: used <= Max(guess + 64, 4096)
  }

  /** The base of a delta by distance does not lie after it. */
  lemma BaseBefore(read: RecordReader, h: Hash, pack: bytes, rs: Records, i: nat, o: Obj, k: nat)
    returns (j: nat, b: Obj)
    requires Holds(read, pack, rs) && Derived(h, rs, i, o, k) && rs[i].1.OfsDelta?
    ensures k > 0 && IsBase(h, rs, i, j, b) && Derived(h, rs, j, b, k - 1)
    ensures Patches(b, DeltaOf(rs[i].1), o) && j <= i
  {
    j, b := DerivedBase(h, rs, i, o, k);
    if i < j { PositionsGrow(read, pack, 12, PackCount(pack).value, rs, i, j); }
  }

  /** A grounded delta is never its own base. */
  lemma {:induction false} NotItself(read: RecordReader, h: Hash, pack: bytes, rs: Records, i: nat, o: Obj, k: nat)
    requires Holds(read, pack, rs) && Derived(h, rs, i, o, k) && rs[i].1.OfsDelta?
    ensures rs[i].1.distance > 0
    decreases k
  {
    var j, b := BaseBefore(read, h, pack, rs, i, o, k);
    if rs[i].1.distance == 0 {
      OffsetsDiffer(read, pack, rs);
      NotItself(read, h, pack, rs, i, b, k - 1);
    }
  }

  /** No pack that the bulk reader accepts has a delta that is its own base. */
  lemma AcceptedHasNoLoop(z: Zlib, h: Hash, pack: bytes, rs: Records, m: map<Oid, Obj>, i: nat)
    requires Lawful(z) && RecordsOf(z, pack) == Some(rs) && PackReader.Outcome(h, rs, Ok(m))
    requires i < |rs| && rs[i].1.OfsDelta?
    ensures rs[i].1.distance > 0
  {
    HoldsRecords(z, pack, rs);
    assert Grounded(h, rs, i);
    var o: Obj :| Stands(h, rs, i, o);
    var k: nat :| Derived(h, rs, i, o, k);
    NotItself(Reader(z), h, pack, rs, i, o, k);
  }

  /** The index's length of a record before the last covers it. */
  lemma IndexCovers(read: RecordReader, pack: bytes, rs: Records, i: nat)
    requires Holds(read, pack, rs) && i + 1 < |rs|
    ensures LengthOf(rs, i).Some? && Covers(read, pack, rs, i, LengthOf(rs, i).value)
  {
    var used := RecordPlaced(read, pack, rs, i);
  }

  /** The base of a grounded delta by distance, with the length that the index has for it. */
  lemma ProperBase(read: RecordReader, h: Hash, pack: bytes, rs: Records, i: nat, o: Obj, k: nat)
    returns (j: nat, b: Obj, length: nat)
    requires Holds(read, pack, rs) && Derived(h, rs, i, o, k) && rs[i].1.OfsDelta?
    ensures k > 0 && j < i && Derived(h, rs, j, b, k - 1) && Patches(b, rs[i].1.delta, o)
    ensures rs[j].0 < rs[i].0 && rs[i].1.distance == rs[i].0 - rs[j].0
    ensures LengthOf(rs, j) == Some(length) && Covers(read, pack, rs, j, length)
  {
    NotItself(read, h, pack, rs, i, o, k);
    j, b := BaseBefore(read, h, pack, rs, i, o, k);
    IndexCovers(read, pack, rs, j);
    length := LengthOf(rs, j).value;
  }
}
