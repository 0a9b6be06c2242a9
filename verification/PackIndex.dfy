/** Version 2 pack indexes: parsing one, and finding an object in it (src/git/idx.rs;
    gitformat-pack(5), "Version 2 pack-*.idx files"). */
module PackIndex {
  import opened Basics
  import opened Numbers
  import opened Layout
  import opened Sorting

  datatype Index = Index(fanout: seq<nat>, shas: seq<Oid>, offsets: seq<nat>, sortedOffsets: seq<nat>, packSha: bytes)

  const IDX_MAGIC: bytes := [0xff, 0x74, 0x4f, 0x63]

  const TOP_BIT: nat := 0x8000_0000

  /** `sorted` are the offsets in ascending order. */
  ghost predicate SortedFrom(sorted: seq<nat>, offsets: seq<nat>) {
    Ascending(sorted, NatLeq) && multiset(sorted) == multiset(offsets)
  }

  lemma SortSorts(offsets: seq<nat>)
    ensures SortedFrom(Sort(offsets, NatLeq), offsets)
  {
    SortAscends(offsets, NatLeq);
  }

  // ---- what an index file says

  const SHAS_AT: nat := 1032

  /** Where the table of offsets begins, for `n` objects. */
  function OffsetsAt(n: nat): nat { 1032 + 20 * n + 4 * n }

  function LargeAt(n: nat): nat { OffsetsAt(n) + 4 * n }

  /** The offset of object `i`: its word, or the eight bytes that its word points to. */
  function OffsetOf(d: bytes, n: nat, i: nat): Option<nat>
    requires i < n && LargeAt(n) + 40 <= |d|
  {
    var raw := RawOffset(d, n, i);
    if raw < TOP_BIT then Some(raw) else LargeOffset(d, n, raw - TOP_BIT)
  }

  function LargeOffset(d: bytes, n: nat, k: nat): Option<nat>
    requires LargeAt(n) + 40 <= |d|
  {
    var start := LargeAt(n) + k * 8;
    if start + 8 > |d| - 40 then None else Some(Word(d, start) * TWO_32 + Word(d, start + 4))
  }

  function ShaOf(d: bytes, n: nat, i: nat): Oid
    requires i < n && LargeAt(n) + 40 <= |d|
  {
    d[SHAS_AT + 20 * i..SHAS_AT + 20 * i + 20]
  }

  predicate HeaderOk(d: bytes) {
    |d| >= 1072 && d[0..4] == IDX_MAGIC && Word(d, 4) == 2
  }

  function CountOf(d: bytes): nat
    requires HeaderOk(d)
  {
    Word(d, 8 + 4 * 255)
  }

  /** `x` is the parse of `d`. */
  ghost predicate Parses(d: bytes, x: Index) {
    && HeaderOk(d) && LargeAt(CountOf(d)) + 40 <= |d|
    && var n := CountOf(d);
    && |x.fanout| == 256 && (forall b | 0 <= b < 256 :: x.fanout[b] == Word(d, 8 + 4 * b))
    && |x.shas| == n && (forall i | 0 <= i < n :: x.shas[i] == ShaOf(d, n, i))
    && |x.offsets| == n && (forall i | 0 <= i < n :: OffsetOf(d, n, i) == Some(x.offsets[i]))
    && SortedFrom(x.sortedOffsets, x.offsets)
    && x.packSha == d[|d| - 40..|d| - 20]
  }

  /** The program refuses exactly these. */
  ghost predicate Refused(d: bytes) {
    || !HeaderOk(d)
    || |d| < LargeAt(CountOf(d)) + 40
    || exists i: nat :: i < CountOf(d) && OffsetOf(d, CountOf(d), i) == None
  }

  // ---- parsing

  method ReadFanout(d: bytes) returns (fanout: seq<nat>)
    requires HeaderOk(d)
    ensures |fanout| == 256 && forall b | 0 <= b < 256 :: fanout[b] == Word(d, 8 + 4 * b)
  {
    fanout := [];
    for i := 0 to 256
      invariant |fanout| == i && forall b | 0 <= b < i :: fanout[b] == Word(d, 8 + 4 * b)
    {
      fanout := fanout + [Word(d, 8 + i * 4)];
    }
  }

  method ReadShas(d: bytes, n: nat) returns (shas: seq<Oid>)
    requires LargeAt(n) + 40 <= |d|
    ensures |shas| == n && forall i | 0 <= i < n :: shas[i] == ShaOf(d, n, i)
  {
    shas := [];
    for i := 0 to n
      invariant |shas| == i && forall j | 0 <= j < i :: shas[j] == ShaOf(d, n, j)
    {
      shas := shas + [d[SHAS_AT + i * 20..SHAS_AT + i * 20 + 20]];
    }
  }

  /** The word of object `i` in the table of offsets. */
  function RawOffset(d: bytes, n: nat, i: nat): nat
    requires i < n && LargeAt(n) + 40 <= |d|
  {
    Word(d, OffsetsAt(n) + 4 * i)
  }

  predicate IsLarge(d: bytes, n: nat, i: nat)
    requires i < n && LargeAt(n) + 40 <= |d|
  {
    RawOffset(d, n, i) >= TOP_BIT
  }

  /** `(i, k)` says that the offset of object `i` is number `k` of the large ones. */
  ghost predicate Points(d: bytes, n: nat, p: (nat, nat))
    requires LargeAt(n) + 40 <= |d|
  {
    p.0 < n && IsLarge(d, n, p.0) && p.1 == RawOffset(d, n, p.0) - TOP_BIT
  }

  /** `large` lists the objects below `k` with large offsets, each with its place. */
  ghost predicate ListsLarge(d: bytes, n: nat, k: nat, large: seq<(nat, nat)>)
    requires k <= n && LargeAt(n) + 40 <= |d|
  {
    && (forall i: nat | i < k && IsLarge(d, n, i) :: (i, RawOffset(d, n, i) - TOP_BIT) in large)
    && (forall p | p in large :: Points(d, n, p))
  }

  /** Every object below `k` with a small offset has it in `offsets`. */
  ghost predicate ListsSmall(d: bytes, n: nat, k: nat, offsets: seq<nat>)
    requires k <= n && LargeAt(n) + 40 <= |d|
  {
    |offsets| == k && forall i: nat | i < k && !IsLarge(d, n, i) :: OffsetOf(d, n, i) == Some(offsets[i])
  }

  lemma ListLarge(d: bytes, n: nat, i: nat, large: seq<(nat, nat)>)
    requires i < n && LargeAt(n) + 40 <= |d| && ListsLarge(d, n, i, large)
    ensures IsLarge(d, n, i) ==> ListsLarge(d, n, i + 1, large + [(i, RawOffset(d, n, i) - TOP_BIT)])
    ensures !IsLarge(d, n, i) ==> ListsLarge(d, n, i + 1, large)
  {
    if IsLarge(d, n, i) {
      var p := (i, RawOffset(d, n, i) - TOP_BIT);
      assert (large + [p])[|large|] == p;
      forall q | q in large + [p] ensures Points(d, n, q) { assert q in large || q == p; }
    }
  }

  lemma ListSmall(d: bytes, n: nat, i: nat, offsets: seq<nat>, x: nat)
    requires i < n && LargeAt(n) + 40 <= |d| && ListsSmall(d, n, i, offsets)
    requires !IsLarge(d, n, i) ==> x == RawOffset(d, n, i)
    ensures ListsSmall(d, n, i + 1, offsets + [x])
  {
  }

  /** The first pass: small offsets, and a placeholder for each large one. */
  method ReadWords(d: bytes, n: nat) returns (offsets: seq<nat>, large: seq<(nat, nat)>)
    requires LargeAt(n) + 40 <= |d|
    ensures ListsSmall(d, n, n, offsets) && ListsLarge(d, n, n, large)
  {
    offsets, large := [], [];
    for i := 0 to n
      invariant ListsSmall(d, n, i, offsets) && ListsLarge(d, n, i, large)
    {
      var raw := RawOffset(d, n, i);
      ListLarge(d, n, i, large);
      if raw >= TOP_BIT {
        ListSmall(d, n, i, offsets, 0);
        large := large + [(i, raw - TOP_BIT)];
        offsets := offsets + [0];
      } else {
        ListSmall(d, n, i, offsets, raw);
        offsets := offsets + [raw];
      }
    }
  }

  lemma LargeResolves(d: bytes, n: nat, p: (nat, nat))
    requires LargeAt(n) + 40 <= |d| && Points(d, n, p)
    ensures OffsetOf(d, n, p.0) == LargeOffset(d, n, p.1)
  {
  }

  /** One placeholder filled. */
  ghost predicate Filled(d: bytes, n: nat, offsets: seq<nat>, p: (nat, nat))
    requires LargeAt(n) + 40 <= |d|
  {
    p.0 < |offsets| == n && OffsetOf(d, n, p.0) == Some(offsets[p.0])
  }

  lemma Fill(d: bytes, n: nat, offsets: seq<nat>, p: (nat, nat), x: nat)
    requires LargeAt(n) + 40 <= |d| && ListsSmall(d, n, n, offsets) && Points(d, n, p) && OffsetOf(d, n, p.0) == Some(x)
    ensures ListsSmall(d, n, n, offsets[p.0 := x]) && Filled(d, n, offsets[p.0 := x], p)
    ensures forall q :: Filled(d, n, offsets, q) ==> Filled(d, n, offsets[p.0 := x], q)
  {
  }

  lemma AllFilled(d: bytes, n: nat, offsets: seq<nat>, large: seq<(nat, nat)>)
    requires LargeAt(n) + 40 <= |d| && ListsSmall(d, n, n, offsets) && ListsLarge(d, n, n, large)
    requires forall p | p in large :: Filled(d, n, offsets, p)
    ensures forall i: nat | i < n :: OffsetOf(d, n, i) == Some(offsets[i])
  {
    forall i: nat | i < n ensures OffsetOf(d, n, i) == Some(offsets[i]) {
      if IsLarge(d, n, i) { assert Filled(d, n, offsets, (i, RawOffset(d, n, i) - TOP_BIT)); }
    }
  }

  /** The second pass: the placeholders are filled from the table. */
  method FillLarge(d: bytes, n: nat, words: seq<nat>, large: seq<(nat, nat)>) returns (r: Option<seq<nat>>)
    requires LargeAt(n) + 40 <= |d| && ListsSmall(d, n, n, words) && ListsLarge(d, n, n, large)
    ensures r.None? ==> exists i: nat :: i < n && OffsetOf(d, n, i) == None
    ensures r.Some? ==> |r.value| == n && forall i: nat | i < n :: OffsetOf(d, n, i) == Some(r.value[i])
  {
    var offsets: seq<nat> := words;
    for k := 0 to |large|
      invariant ListsSmall(d, n, n, offsets)
      invariant forall p | p in large[..k] :: Filled(d, n, offsets, p)
    {
      var (i, place) := large[k];
      LargeResolves(d, n, large[k]);
      var start := LargeAt(n) + place * 8;
      if start + 8 > |d| - 40 { return None; }
      var off: nat := Word(d, start) * TWO_32 + Word(d, start + 4);
      Fill(d, n, offsets, large[k], off);
      assert large[..k + 1] == large[..k] + [large[k]];
      offsets := offsets[i := off];
    }
    assert large[..|large|] == large;
    AllFilled(d, n, offsets, large);
    return Some(offsets);
  }

  method Parse(d: bytes) returns (r: Option<Index>)
    ensures r.None? <==> Refused(d)
    ensures r.Some? ==> Parses(d, r.value) && Shape(r.value)
  {
    if |d| < 8 + 1024 + 40 || d[0..4] != IDX_MAGIC || Word(d, 4) != 2 { return None; }
    var fanout := ReadFanout(d);
    var n := fanout[255];
    if |d| < LargeAt(n) + 40 { return None; }
    var shas := ReadShas(d, n);
    var words, large := ReadWords(d, n);
    var offsets := FillLarge(d, n, words, large);
    if offsets.None? { return None; }
    SortSorts(offsets.value);
    return Some(Index(fanout, shas, offsets.value, Sort(offsets.value, NatLeq), d[|d| - 40..|d| - 20]));
  }

  // ---- looking an object up

  ghost predicate NoneEmpty(shas: seq<Oid>) {
    forall i | 0 <= i < |shas| :: shas[i] != []
  }

  /** How many ids begin with a byte of at most `b`. */
  function CountUpTo(shas: seq<Oid>, b: int): (k: nat)
    requires NoneEmpty(shas)
    ensures k <= |shas|
  {
    if shas == [] then 0
    else
      var front, last := shas[..|shas| - 1], shas[|shas| - 1];
      CountUpTo(front, b) + if last[0] <= b then 1 else 0
  }

  /** What parsing gives every index. */
  ghost predicate Shape(x: Index) {
    |x.fanout| == 256 && |x.offsets| == |x.shas| && SortedFrom(x.sortedOffsets, x.offsets)
  }

  /** An index that a writer makes: ids in order and apart, and the fanout that fits them. */
  ghost predicate WellFormed(x: Index) {
    && Shape(x)
    && (forall i | 0 <= i < |x.shas| :: |x.shas[i]| == 20)
    && Ascending(x.shas, LexLeq) && Distinct(x.shas) && Distinct(x.offsets)
    && forall b: byte :: x.fanout[b] == CountUpTo(x.shas, b)
  }

  /** In a sorted list, the ids up to `b` come first. */
  lemma {:induction false} FanoutSplits(shas: seq<Oid>, b: int, i: nat)
    requires Ascending(shas, LexLeq) && NoneEmpty(shas) && i < |shas|
    ensures i < CountUpTo(shas, b) <==> shas[i][0] <= b
    decreases |shas|
  {
    var front, last := shas[..|shas| - 1], shas[|shas| - 1];
    if last[0] <= b { AllCounted(front, b, last); }
    if i < |front| { FanoutSplits(front, b, i); }
  }

  lemma {:induction false} AllCounted(shas: seq<Oid>, b: int, top: Oid)
    requires NoneEmpty(shas) && top != [] && top[0] <= b
    requires forall i | 0 <= i < |shas| :: LexLeq(shas[i], top)
    ensures CountUpTo(shas, b) == |shas|
    decreases |shas|
  {
    if shas != [] {
      assert LexLeq(shas[|shas| - 1], top);
      AllCounted(shas[..|shas| - 1], b, top);
    }
  }

  /** The least offset above `off`. */
  function NextAfter(offsets: seq<nat>, off: nat): (r: Option<nat>)
    ensures r.Some? ==> off < r.value
  {
    if offsets == [] then None
    else
      var last := offsets[|offsets| - 1];
      match NextAfter(offsets[..|offsets| - 1], off)
      case None => if last > off then Some(last) else None
      case Some(o) => if off < last < o then Some(last) else Some(o)
  }

  lemma {:induction false} NextAfterIs(offsets: seq<nat>, off: nat)
    ensures NextAfter(offsets, off).None? ==> forall o | o in offsets :: o <= off
    ensures NextAfter(offsets, off).Some? ==>
      var next := NextAfter(offsets, off).value;
      next in offsets && off < next && forall o | o in offsets :: o <= off || next <= o
    decreases |offsets|
  {
    if offsets != [] {
      var front, last := offsets[..|offsets| - 1], offsets[|offsets| - 1];
      NextAfterIs(front, off);
      assert forall o | o in offsets :: o in front || o == last;
    }
  }

  /** The distance from a listed offset to the next: the length of the object there. */
  function LengthAt(offsets: seq<nat>, off: nat): Option<nat> {
    if off !in offsets then None
    else
      match NextAfter(offsets, off)
      case None => None
      case Some(next) => Some(next - off)
  }

  /** The offset and length of an object by a linear scan; 64 KiB for the last in the pack. */
  function Scan(shas: seq<Oid>, offsets: seq<nat>, all: seq<nat>, sha: Oid): Option<(nat, nat)>
    requires |shas| == |offsets|
  {
    if shas == [] then None
    else if shas[0] == sha then Some((offsets[0], LengthAt(all, offsets[0]).GetOr(65536)))
    else Scan(shas[1..], offsets[1..], all, sha)
  }

  lemma {:induction false} ScanFinds(shas: seq<Oid>, offsets: seq<nat>, all: seq<nat>, sha: Oid, i: nat)
    requires |shas| == |offsets| && Distinct(shas) && i < |shas| && shas[i] == sha
    ensures Scan(shas, offsets, all, sha) == Some((offsets[i], LengthAt(all, offsets[i]).GetOr(65536)))
    decreases |shas|
  {
    if i > 0 { ScanFinds(shas[1..], offsets[1..], all, sha, i - 1); }
  }

  lemma {:induction false} ScanMisses(shas: seq<Oid>, offsets: seq<nat>, all: seq<nat>, sha: Oid)
    requires |shas| == |offsets| && sha !in shas
    ensures Scan(shas, offsets, all, sha) == None
    decreases |shas|
  {
    if shas != [] { ScanMisses(shas[1..], offsets[1..], all, sha); }
  }

  lemma NatOrder()
    ensures StrictOrder(NatLeq)
  {
  }

  lemma SameElements(a: seq<nat>, b: seq<nat>, x: nat)
    requires multiset(a) == multiset(b)
    ensures x in a <==> x in b
  {
    InMultiset(a, x);
    InMultiset(b, x);
  }

  /** In sorted distinct offsets, the one that follows is the next. */
  lemma FollowsIsNext(offsets: seq<nat>, sorted: seq<nat>, i: nat)
    requires Distinct(offsets) && SortedFrom(sorted, offsets) && i < |sorted|
    ensures NextAfter(offsets, sorted[i]) == if i + 1 < |sorted| then Some(sorted[i + 1]) else None
  {
    DistinctCounts(offsets);
    DistinctCounts(sorted);
    forall o ensures o in offsets <==> o in sorted { SameElements(offsets, sorted, o); }
    var r := NextAfter(offsets, sorted[i]);
    NextAfterIs(offsets, sorted[i]);
    if r.Some? {
      var j :| 0 <= j < |sorted| && sorted[j] == r.value;
      assert j > i;
    }
    if i + 1 < |sorted| {
      assert sorted[i + 1] in sorted;
      assert sorted[i] < sorted[i + 1];
    }
  }

  /** `r` is the length at `off`, for an index that gives no offset twice. */
  ghost predicate RightLength(offsets: seq<nat>, off: nat, r: Option<nat>) {
    Distinct(offsets) ==> r == LengthAt(offsets, off)
  }

  lemma LengthFound(offsets: seq<nat>, sorted: seq<nat>, off: nat, i: nat)
    requires SortedFrom(sorted, offsets) && i < |sorted| && sorted[i] == off
    ensures i + 1 < |sorted| ==> off <= sorted[i + 1] && RightLength(offsets, off, Some(sorted[i + 1] - off))
    ensures i + 1 == |sorted| ==> RightLength(offsets, off, None)
  {
    if i + 1 < |sorted| { assert NatLeq(sorted[i], sorted[i + 1]); }
    SameElements(sorted, offsets, off);
    if Distinct(offsets) { FollowsIsNext(offsets, sorted, i); }
  }

  lemma LengthMissing(offsets: seq<nat>, sorted: seq<nat>, off: nat)
    requires SortedFrom(sorted, offsets) && off !in sorted
    ensures RightLength(offsets, off, None)
  {
    SameElements(sorted, offsets, off);
  }

  method SearchOffsets(sorted: seq<nat>, off: nat) returns (r: Option<nat>)
    ensures r.Some? ==> r.value < |sorted| && sorted[r.value] == off
    ensures r.None? && Ascending(sorted, NatLeq) ==> off !in sorted
  {
    NatOrder();
    r := Search(sorted, off, NatLeq);
  }

  method GetObjectLenAtOffset(x: Index, off: nat) returns (r: Option<nat>)
    requires Shape(x)
    ensures RightLength(x.offsets, off, r)
  {
    var place := SearchOffsets(x.sortedOffsets, off);
    if place.None? {
      LengthMissing(x.offsets, x.sortedOffsets, off);
      return None;
    }
    LengthFound(x.offsets, x.sortedOffsets, off, place.value);
    if place.value + 1 == |x.sortedOffsets| { return None; }
    return Some(x.sortedOffsets[place.value + 1] - off);
  }

  /** The slice of the ids that the fanout gives for the first byte of `sha`. */
  ghost predicate SliceFor(x: Index, sha: Oid, low: nat, high: nat)
    requires Shape(x) && |sha| == 20
  {
    low == (if sha[0] == 0 then 0 else x.fanout[sha[0] - 1]) && high == x.fanout[sha[0]]
  }

  /** Where the fanout says that `sha` can be, it is: outside the slice no id has its first byte. */
  lemma SliceHolds(x: Index, sha: Oid, low: nat, high: nat)
    requires WellFormed(x) && |sha| == 20 && SliceFor(x, sha, low, high)
    ensures high <= |x.shas|
    ensures sha in x.shas ==> low < high && sha in x.shas[low..high]
  {
    if sha in x.shas {
      var i: nat :| i < |x.shas| && x.shas[i] == sha;
      FanoutSplits(x.shas, sha[0], i);
      if sha[0] > 0 { FanoutSplits(x.shas, sha[0] - 1, i); }
      assert x.shas[low..high][i - low] == sha;
    }
  }

  /** What a search of the slice found is what a linear scan of the index makes. */
  lemma SliceFinds(x: Index, sha: Oid, low: nat, high: nat, place: Option<nat>)
    requires WellFormed(x) && |sha| == 20 && SliceFor(x, sha, low, high) && low < high <= |x.shas|
    requires place.Some? ==> place.value < high - low && x.shas[low + place.value] == sha
    requires place.None? ==> sha !in x.shas[low..high]
    ensures
      Scan(x.shas, x.offsets, x.offsets, sha) ==
      if place.None? then None
      else Some((x.offsets[low + place.value], LengthAt(x.offsets, x.offsets[low + place.value]).GetOr(65536)))
  {
    SliceHolds(x, sha, low, high);
    if place.None? { ScanMisses(x.shas, x.offsets, x.offsets, sha); }
    else { ScanFinds(x.shas, x.offsets, x.offsets, sha, low + place.value); }
  }

  lemma SliceMisses(x: Index, sha: Oid, low: nat, high: nat)
    requires WellFormed(x) && |sha| == 20 && SliceFor(x, sha, low, high) && !(low < high <= |x.shas|)
    ensures Scan(x.shas, x.offsets, x.offsets, sha) == None
  {
    SliceHolds(x, sha, low, high);
    ScanMisses(x.shas, x.offsets, x.offsets, sha);
  }

  lemma SliceAscends(shas: seq<Oid>, low: nat, high: nat)
    requires low <= high <= |shas| && Ascending(shas, LexLeq)
    ensures Ascending(shas[low..high], LexLeq)
  {
  }

  /** Fanout, then binary search: the same answer as a linear scan. */
  method FindOffset(x: Index, sha: Oid) returns (r: Option<(nat, nat)>)
    requires Shape(x) && |sha| == 20
    ensures WellFormed(x) ==> r == Scan(x.shas, x.offsets, x.offsets, sha)
  {
    var first := sha[0];
    var low := if first == 0 then 0 else x.fanout[first - 1];
    var high := x.fanout[first];
    if low >= high || high > |x.shas| {
      if WellFormed(x) { SliceMisses(x, sha, low, high); }
      return None;
    }
    LexOrder();
    var place := Search(x.shas[low..high], sha, LexLeq);
    if WellFormed(x) {
      SliceAscends(x.shas, low, high);
      SliceFinds(x, sha, low, high, place);
    }
    if place.None? { return None; }
    var i := low + place.value;
    var length := GetObjectLenAtOffset(x, x.offsets[i]);
    return Some((x.offsets[i], length.GetOr(65536)));
  }
}
