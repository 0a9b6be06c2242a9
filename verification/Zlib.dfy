/** The compressor, as any pair of functions that delimits its own streams. */
module Zlib {
  import opened Basics
  import opened Numbers

  /** `inflate` gives the data of the stream that starts its input, and the bytes it takes. */
  datatype Zlib = Zlib(deflate: bytes -> bytes, inflate: bytes -> Option<(bytes, nat)>)

  /** The stream at the start of `s` is known from its own bytes alone. */
  ghost predicate SelfDelimiting(z: Zlib, s: bytes, w: bytes) {
    z.inflate(s).Some? ==>
      var n := z.inflate(s).value.1;
      0 < n <= |s| && (n <= |w| && w[..n] == s[..n] ==> z.inflate(w) == z.inflate(s))
  }

  ghost predicate Lawful(z: Zlib) {
    && (forall d: bytes, rest: bytes :: z.inflate(z.deflate(d) + rest) == Some((d, |z.deflate(d)|)))
    && (forall s: bytes, w: bytes :: SelfDelimiting(z, s, w))
  }

  // ---- stored blocks, to show that a lawful codec exists

  /** RFC 1951, section 3.2.4: blocks of up to 65535 bytes, each with its length and the
      complement of its length. */
  function StoredBlocks(d: bytes): bytes {
    if |d| <= 0xffff then [1] + Length(|d|) + d
    else [0] + Length(0xffff) + d[..0xffff] + StoredBlocks(d[0xffff..])
  }

  function Length(n: nat): (r: bytes)
    requires n <= 0xffff
    ensures |r| == 4
  {
    [n % 256, n / 256, 255 - n % 256, 255 - n / 256]
  }

  /** The length of the block that starts `s`, when its header is sound and its data is there. */
  function BlockLength(s: bytes): (r: Option<nat>)
    ensures r.Some? ==> 5 + r.value <= |s|
  {
    if |s| < 5 || s[0] > 1 then None
    else
      var n := (s[1] as int) + (s[2] as int) * 256;
      if (s[1] as int) + s[3] != 255 || (s[2] as int) + s[4] != 255 || |s| < 5 + n then None else Some(n)
  }

  function ReadBlocks(s: bytes): (r: Option<(bytes, nat)>)
    ensures r.Some? ==> 0 < r.value.1 <= |s|
    decreases |s|
  {
    match BlockLength(s)
    case None => None
    case Some(n) =>
      if s[0] == 1 then Some((s[5..5 + n], 5 + n))
      else
        match ReadBlocks(s[5 + n..])
        case None => None
        case Some((d, m)) => Some((s[5..5 + n] + d, 5 + n + m))
  }

  /** RFC 1950: a two-byte header before the blocks. The checksum after them is left out. */
  const STORED := Zlib(
    d => [0x78, 0x01] + StoredBlocks(d),
    s => if |s| < 2 || s[0] != 0x78 || s[1] != 0x01 then None
         else match ReadBlocks(s[2..]) case None => None case Some((d, n)) => Some((d, n + 2)))

  lemma BlockReads(final: byte, d: bytes, rest: bytes)
    requires final <= 1 && |d| <= 0xffff
    ensures ReadBlocks([final] + Length(|d|) + d + rest) ==
      if final == 1 then Some((d, 5 + |d|))
      else match ReadBlocks(rest) case None => None case Some((e, m)) => Some((d + e, 5 + |d| + m))
  {
    var s := [final] + Length(|d|) + d + rest;
    assert s[5..5 + |d|] == d && s[5 + |d|..] == rest;
  }

  lemma {:induction false} BlocksRead(d: bytes, rest: bytes)
    ensures ReadBlocks(StoredBlocks(d) + rest) == Some((d, |StoredBlocks(d)|))
    decreases |d|
  {
    if |d| <= 0xffff {
      BlockReads(1, d, rest);
    } else {
      var first, more := d[..0xffff], d[0xffff..];
      BlocksRead(more, rest);
      BlockReads(0, first, StoredBlocks(more) + rest);
      Regroup([0] + Length(0xffff) + first, StoredBlocks(more), rest);
      Rejoin(d, 0xffff);
    }
  }

  lemma Regroup(a: bytes, b: bytes, c: bytes)
    ensures a + b + c == a + (b + c)
  {
  }

  lemma Rejoin(d: bytes, n: nat)
    requires n <= |d|
    ensures d[..n] + d[n..] == d
  {
  }

  lemma {:induction false} BlocksLocal(s: bytes, w: bytes, m: nat)
    requires ReadBlocks(s).Some? && ReadBlocks(s).value.1 == m <= |w| && w[..m] == s[..m]
    ensures ReadBlocks(w) == ReadBlocks(s)
    decreases |s|
  {
    SameStart(s, w, m);
    var k := 5 + BlockLength(s).value;
    if s[0] == 0 { BlocksLocal(s[k..], w[k..], m - k); }
  }

  lemma SameStart(s: bytes, w: bytes, m: nat)
    requires BlockLength(s).Some? && 5 + BlockLength(s).value <= m <= |s| && m <= |w| && w[..m] == s[..m]
    ensures BlockLength(w) == BlockLength(s) && w[0] == s[0]
    ensures
      var n := BlockLength(s).value;
      w[5..5 + n] == s[5..5 + n] && w[5 + n..][..m - (5 + n)] == s[5 + n..][..m - (5 + n)]
  {
    forall i | 0 <= i < m ensures w[i] == s[i] { assert w[..m][i] == s[..m][i]; }
  }

  lemma StoredDelimits(s: bytes, w: bytes)
    ensures SelfDelimiting(STORED, s, w)
  {
    if STORED.inflate(s).Some? {
      var n := STORED.inflate(s).value.1;
      if n <= |w| && w[..n] == s[..n] {
        assert w[0] == w[..n][0] == s[0] && w[1] == w[..n][1] == s[1];
        assert w[2..][..n - 2] == w[..n][2..] == s[..n][2..] == s[2..][..n - 2];
        BlocksLocal(s[2..], w[2..], n - 2);
      }
    }
  }

  lemma StoredReads(d: bytes, rest: bytes)
    ensures STORED.inflate(STORED.deflate(d) + rest) == Some((d, |STORED.deflate(d)|))
  {
    assert (STORED.deflate(d) + rest)[2..] == StoredBlocks(d) + rest;
    BlocksRead(d, rest);
  }

  lemma StoredIsLawful()
    ensures Lawful(STORED)
  {
    forall d: bytes, rest: bytes
      ensures STORED.inflate(STORED.deflate(d) + rest) == Some((d, |STORED.deflate(d)|))
    {
      StoredReads(d, rest);
    }
    forall s: bytes, w: bytes { StoredDelimits(s, w); }
  }
}
