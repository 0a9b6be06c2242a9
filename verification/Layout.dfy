/** Byte strings laid end to end. */
module Layout {
  import opened Basics
  import opened Numbers

  function Concat(parts: seq<bytes>): bytes {
    if parts == [] then [] else Concat(parts[..|parts| - 1]) + parts[|parts| - 1]
  }

  lemma ConcatSnoc(parts: seq<bytes>, p: bytes)
    ensures Concat(parts + [p]) == Concat(parts) + p
  {
    assert (parts + [p])[..|parts|] == parts;
  }

  lemma DropFront(a: bytes, b: bytes)
    ensures (a + b)[|a|..] == b
  {
  }

  // ---- tables of entries of one width

  ghost predicate Wide(parts: seq<bytes>, k: nat) {
    forall i | 0 <= i < |parts| :: |parts[i]| == k
  }

  lemma {:induction false} TableSize(parts: seq<bytes>, k: nat)
    requires Wide(parts, k)
    ensures |Concat(parts)| == k * |parts|
    decreases |parts|
  {
    if parts != [] {
      TableSize(parts[..|parts| - 1], k);
      NextRow(k, |parts| - 1);
    }
  }

  lemma NextRow(k: nat, i: nat)
    ensures k * (i + 1) == k * i + k
  {
  }

  /** Row `i` of a table whose rows take `k` bytes. */
  lemma {:induction false} TableRow(parts: seq<bytes>, k: nat, i: nat)
    requires Wide(parts, k) && i < |parts|
    ensures k * i + k <= |Concat(parts)| && Concat(parts)[k * i..k * i + k] == parts[i]
    decreases |parts|
  {
    var front, last := parts[..|parts| - 1], parts[|parts| - 1];
    TableSize(front, k);
    if i < |front| {
      TableRow(front, k, i);
      TakeBefore(Concat(front), last, k * i, k * i + k);
    } else {
      TakeLast(Concat(front), last);
    }
  }

  lemma TakeBefore(a: bytes, b: bytes, i: nat, j: nat)
    requires i <= j <= |a|
    ensures (a + b)[i..j] == a[i..j]
  {
  }

  lemma TakeLast(a: bytes, b: bytes)
    ensures (a + b)[|a|..|a| + |b|] == b
  {
  }

  /** Row `i` of a table that stands between other bytes. */
  lemma RowWithin(before: bytes, parts: seq<bytes>, after: bytes, k: nat, i: nat)
    requires Wide(parts, k) && i < |parts|
    ensures
      var at := |before| + k * i;
      at + k <= |before + Concat(parts) + after| && (before + Concat(parts) + after)[at..at + k] == parts[i]
  {
    TableRow(parts, k, i);
    TakeWithin(before, Concat(parts), after, k * i, k * i + k);
  }

  lemma TakeWithin(a: bytes, b: bytes, c: bytes, i: nat, j: nat)
    requires i <= j <= |b|
    ensures (a + b + c)[|a| + i..|a| + j] == b[i..j]
  {
  }

  // ---- 32-bit words

  function Words(ns: seq<nat>): (parts: seq<bytes>)
    ensures |parts| == |ns| && forall i | 0 <= i < |ns| :: parts[i] == Be32(ns[i])
  {
    seq(|ns|, i requires 0 <= i < |ns| => Be32(ns[i]))
  }

  lemma WordsWide(ns: seq<nat>)
    ensures Wide(Words(ns), 4)
  {
  }

  function Word(d: bytes, at: nat): nat
    requires at + 4 <= |d|
  {
    FromBe32(d[at..at + 4])
  }

  lemma WordWithin(before: bytes, ns: seq<nat>, after: bytes, i: nat)
    requires i < |ns| && ns[i] < TWO_32
    ensures |before| + 4 * i + 4 <= |before + Concat(Words(ns)) + after|
    ensures Word(before + Concat(Words(ns)) + after, |before| + 4 * i) == ns[i]
  {
    WordsWide(ns);
    RowWithin(before, Words(ns), after, 4, i);
    Be32RoundTrip(ns[i]);
  }
}
