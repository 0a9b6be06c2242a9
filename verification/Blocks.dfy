/** Blocks of a remote pack, and a byte range stitched from them (src/cache/block.rs). */
module Blocks {
  import opened Basics

  /** The bytes of `r` from `lo` to `hi`, as far as there are any. */
  function Cut(r: bytes, lo: nat, hi: nat): bytes {
    if lo < Min(hi, |r|) then r[lo..Min(hi, |r|)] else []
  }

  function BlockOf(r: bytes, size: nat, b: nat): bytes {
    Cut(r, b * size, b * size + size)
  }

  function LastBlock(size: nat, offset: nat, len: nat): nat
    requires size > 0 && len > 0
  {
    (offset + len - 1) / size
  }

  /** What a block that lies at `at` adds to the range: the part of it that overlaps. */
  function Overlap(data: bytes, at: nat, offset: nat, len: nat): bytes
    requires at < offset + len
  {
    var start, end := Max(offset, at) - at, Min(offset + len, at + |data|) - at;
    if start < |data| then data[start..Min(end, |data|)] else []
  }

  /** Is block `b` the last one to read: the end of the range, or short because the pack ends? */
  predicate EndsAt(data: bytes, size: nat, b: nat, offset: nat, len: nat)
    requires size > 0 && len > 0
  {
    b >= LastBlock(size, offset, len) || |data| < size
  }

  /** What has been gathered before block `b`. */
  function Gathered(r: bytes, size: nat, b: nat, offset: nat, len: nat): bytes {
    Cut(r, offset, Min(offset + len, b * size))
  }

  lemma NextBlockAt(b: nat, size: nat)
    ensures (b + 1) * size == b * size + size
  {
  }

  lemma CutJoins(r: bytes, lo: nat, mid: nat, hi: nat)
    requires lo <= mid <= hi
    ensures Cut(r, lo, mid) + Cut(r, mid, hi) == Cut(r, lo, hi)
  {
  }

  lemma SliceOfSlice(r: bytes, a: nat, b: nat, i: nat, j: nat)
    requires a <= b <= |r| && i <= j <= b - a
    ensures r[a..b][i..j] == r[a + i..a + j]
  {
    forall k | 0 <= k < j - i ensures r[a..b][i..j][k] == r[a + i..a + j][k] { assert r[a..b][i + k] == r[a + i + k]; }
  }

  /** The overlap of a block is the range's share of its bytes. */
  lemma OverlapIs(r: bytes, at: nat, size: nat, offset: nat, len: nat)
    requires len > 0 && at < offset + len
    ensures Overlap(Cut(r, at, at + size), at, offset, len) == Cut(r, Max(offset, at), Min(offset + len, at + size))
  {
    var data := Cut(r, at, at + size);
    var start: nat := Max(offset, at) - at;
    if start < |data| { SliceOfSlice(r, at, at + |data|, start, Min(offset + len - at, |data|)); }
  }

  lemma JoinsAt(r: bytes, at: nat, size: nat, offset: nat, len: nat)
    requires at < offset + len && offset < at + size
    ensures Cut(r, offset, Min(offset + len, at)) + Cut(r, Max(offset, at), Min(offset + len, at + size)) ==
      Cut(r, offset, Min(offset + len, at + size))
  {
    if offset <= at { CutJoins(r, offset, at, Min(offset + len, at + size)); }
  }

  lemma GatherAt(r: bytes, at: nat, next: nat, size: nat, offset: nat, len: nat)
    requires len > 0 && at < offset + len && offset < next && next == at + size
    ensures Cut(r, offset, Min(offset + len, at)) + Overlap(Cut(r, at, at + size), at, offset, len) ==
      Cut(r, offset, Min(offset + len, next))
  {
    OverlapIs(r, at, size, offset, len);
    JoinsAt(r, at, size, offset, len);
  }

  /** One block further. */
  lemma GatherStep(r: bytes, size: nat, b: nat, offset: nat, len: nat)
    requires size > 0 && len > 0 && b * size < offset + len && offset < b * size + size
    ensures Gathered(r, size, b, offset, len) + Overlap(BlockOf(r, size, b), b * size, offset, len) ==
      Gathered(r, size, b + 1, offset, len)
  {
    NextBlockAt(b, size);
    GatherAt(r, b * size, (b + 1) * size, size, offset, len);
  }

  /** The first block of a range holds its start, the last its end. */
  lemma BlockBounds(size: nat, offset: nat, len: nat, b: nat)
    requires size > 0 && len > 0
    ensures b >= offset / size ==> offset < b * size + size
    ensures b <= LastBlock(size, offset, len) ==> b * size < offset + len
    ensures b >= LastBlock(size, offset, len) ==> offset + len <= b * size + size
    ensures b == offset / size ==> b * size <= offset && b <= LastBlock(size, offset, len)
  {
    DivBounds(offset, size);
    DivBounds(offset + len - 1, size);
    Bounds(size, offset, len, b, offset / size, LastBlock(size, offset, len));
  }

  lemma Bounds(size: nat, offset: nat, len: nat, b: nat, first: nat, last: nat)
    requires size > 0 && len > 0
    requires first * size <= offset < first * size + size && last * size <= offset + len - 1 < last * size + size
    ensures b >= first ==> offset < b * size + size
    ensures b <= last ==> b * size < offset + len
    ensures b >= last ==> offset + len <= b * size + size
    ensures b == first ==> b * size <= offset && b <= last
  {
    Within(offset, size, first, b);
    Within(offset + len - 1, size, last, b);
    Within(offset + len - 1, size, last, first);
    if last < first { Within(offset, size, first, last + 1); NextBlockAt(last, size); }
  }

  /** A block after one that meets the range, and not after the last, meets it too. */
  lemma BlockAfter(size: nat, offset: nat, len: nat, b: nat)
    requires size > 0 && len > 0 && offset < b * size + size && b < LastBlock(size, offset, len)
    ensures (b + 1) * size < offset + len && offset < (b + 1) * size + size
  {
    NextBlockAt(b, size);
    BlockBounds(size, offset, len, b + 1);
  }

  lemma DivBounds(n: nat, size: nat)
    requires size > 0
    ensures n / size * size <= n < n / size * size + size
  {
  }

  lemma Products(a: nat, b: nat, k: nat)
    requires a <= b
    ensures a * k <= b * k
  {
  }

  /** Of a byte `n` of block `q`: the blocks up to `q` start before it, those from `q` on end after it. */
  lemma Within(n: nat, size: nat, q: nat, b: nat)
    requires q * size <= n < q * size + size
    ensures b <= q ==> b * size <= n
    ensures b >= q ==> n < b * size + size
  {
    if b <= q { Products(b, q, size); } else { Products(q, b, size); }
  }

  /** When the last block has been added, the range is complete. */
  lemma GatherEnds(r: bytes, size: nat, b: nat, offset: nat, len: nat)
    requires size > 0 && len > 0 && offset < b * size + size && EndsAt(BlockOf(r, size, b), size, b, offset, len)
    ensures Gathered(r, size, b + 1, offset, len) == Cut(r, offset, offset + len)
  {
    NextBlockAt(b, size);
    BlockBounds(size, offset, len, b);
  }
}
