/** Log frames: a 4-byte length before each encoded entry (src/wal/proto.rs). */
module Framing {
  import opened Basics
  import opened Numbers

  /** The message codec: any pair of functions. */
  datatype Codec<!E(==)> = Codec(encode: E -> bytes, decode: bytes -> Option<E>)

  ghost predicate Faithful<E(!new)>(c: Codec<E>) {
    forall e: E :: c.decode(c.encode(e)) == Some(e)
  }

  function Frame<E>(c: Codec<E>, e: E): bytes { Be32(|c.encode(e)|) + c.encode(e) }

  function Frames<E>(c: Codec<E>, es: seq<E>): bytes {
    if es == [] then [] else Frame(c, es[0]) + Frames(c, es[1..])
  }

  /** Each entry's length fits the prefix. */
  ghost predicate Fit<E>(c: Codec<E>, es: seq<E>) {
    forall e | e in es :: |c.encode(e)| < TWO_32
  }

  /** The entries of the whole frames at the start of `data`, and the bytes they take. */
  function DecodeFrames<E>(c: Codec<E>, data: bytes): (r: (seq<E>, nat))
    ensures r.1 <= |data|
    decreases |data|
  {
    if |data| < 4 then ([], 0)
    else
      var len := FromBe32(data[..4]);
      if |data| < 4 + len then ([], 0)
      else
        match c.decode(data[4..4 + len])
        case None => ([], 0)
        case Some(e) =>
          var (es, n) := DecodeFrames(c, data[4 + len..]);
          ([e] + es, 4 + len + n)
  }

  method DecodeAllFramed<E>(c: Codec<E>, input: bytes) returns (entries: seq<E>, consumed: nat)
    ensures (entries, consumed) == DecodeFrames(c, input)
  {
    var data := input;
    entries, consumed := [], 0;
    assert [] + DecodeFrames(c, data).0 == DecodeFrames(c, data).0;
    while |data| >= 4
      invariant DecodeFrames(c, input) ==
        (entries + DecodeFrames(c, data).0, consumed + DecodeFrames(c, data).1)
      decreases |data|
    {
      var len := FromBe32(data[..4]);
      if |data| < 4 + len { break; }
      match c.decode(data[4..4 + len]) {
        case None => break;
        case Some(e) =>
          assert entries + ([e] + DecodeFrames(c, data[4 + len..]).0)
              == (entries + [e]) + DecodeFrames(c, data[4 + len..]).0;
          entries := entries + [e];
          data := data[4 + len..];
          consumed := consumed + 4 + len;
      }
    }
    assert entries + [] == entries;
  }

  lemma DecodeWhole<E(!new)>(c: Codec<E>, e: E, rest: bytes)
    requires Faithful(c) && |c.encode(e)| < TWO_32
    ensures DecodeFrames(c, Frame(c, e) + rest)
            == ([e] + DecodeFrames(c, rest).0, |Frame(c, e)| + DecodeFrames(c, rest).1)
  {
    var data, len := Frame(c, e) + rest, |c.encode(e)|;
    assert data[..4] == Be32(len);
    Be32RoundTrip(len);
    assert data[4..4 + len] == c.encode(e);
    assert data[4 + len..] == rest;
    assert c.decode(c.encode(e)) == Some(e);
    DecodeStep(c, data, len, e);
  }

  lemma DecodeStep<E>(c: Codec<E>, data: bytes, len: nat, e: E)
    requires |data| >= 4 + len && FromBe32(data[..4]) == len && c.decode(data[4..4 + len]) == Some(e)
    ensures DecodeFrames(c, data)
            == ([e] + DecodeFrames(c, data[4 + len..]).0, 4 + len + DecodeFrames(c, data[4 + len..]).1)
  {
  }

  lemma DecodeCut<E>(c: Codec<E>, e: E, k: nat)
    requires |c.encode(e)| < TWO_32 && k < |Frame(c, e)|
    ensures DecodeFrames(c, Frame(c, e)[..k]) == ([], 0)
  {
    if k >= 4 {
      assert Frame(c, e)[..k][..4] == Be32(|c.encode(e)|);
      Be32RoundTrip(|c.encode(e)|);
    }
  }

  /** `got` is the longest run of entries whose frames lie wholly before the cut at `k`, and
      `consumed` is what those frames take. */
  ghost predicate Survives<E>(c: Codec<E>, es: seq<E>, k: nat, got: seq<E>, consumed: nat) {
    && |got| <= |es| && got == es[..|got|]
    && consumed == |Frames(c, es[..|got|])| <= k
    && (|got| < |es| ==> k < |Frames(c, es[..|got| + 1])|)
  }

  lemma SurvivesCons<E>(c: Codec<E>, es: seq<E>, k: nat, got: seq<E>, consumed: nat)
    requires es != [] && Survives(c, es[1..], k, got, consumed)
    ensures Survives(c, es, |Frame(c, es[0])| + k, [es[0]] + got, |Frame(c, es[0])| + consumed)
  {
    FramesCons(c, es, |got|);
    if |got| < |es[1..]| { FramesCons(c, es, |got| + 1); }
  }

  // ---- logs that are cut

  type Decoding<!E> = bytes -> (seq<E>, nat)

  /** One entry more in front. */
  ghost predicate Steps<E>(c: Codec<E>, decode: Decoding<E>, e: E, rest: bytes) {
    decode(Frame(c, e) + rest) == ([e] + decode(rest).0, |Frame(c, e)| + decode(rest).1)
  }

  /** Nothing is read of a frame that is cut. */
  ghost predicate Stops<E>(c: Codec<E>, decode: Decoding<E>, e: E, k: nat) {
    k < |Frame(c, e)| ==> decode(Frame(c, e)[..k]) == ([], 0)
  }

  ghost predicate ReadsFrames<E(!new)>(c: Codec<E>, decode: Decoding<E>) {
    && (forall e, rest | |c.encode(e)| < TWO_32 :: Steps(c, decode, e, rest))
    && (forall e, k | |c.encode(e)| < TWO_32 :: Stops(c, decode, e, k)) && decode([]) == ([], 0)
  }

  lemma CutFirst<E>(c: Codec<E>, es: seq<E>, k: nat)
    requires es != [] && k < |Frame(c, es[0])|
    ensures k <= |Frames(c, es)| && Frames(c, es)[..k] == Frame(c, es[0])[..k]
    ensures Survives(c, es, k, [], 0)
  {
    assert es[..1] == [es[0]] && es[..1][1..] == [];
    assert Frames(c, es[..1]) == Frame(c, es[0]);
  }

  lemma CutLater<E>(c: Codec<E>, es: seq<E>, k: nat)
    requires es != [] && |Frame(c, es[0])| <= k <= |Frames(c, es)|
    ensures k - |Frame(c, es[0])| <= |Frames(c, es[1..])|
    ensures Frames(c, es)[..k] == Frame(c, es[0]) + Frames(c, es[1..])[..k - |Frame(c, es[0])|]
  {
  }

  lemma {:induction false} Torn<E(!new)>(c: Codec<E>, decode: Decoding<E>, es: seq<E>, k: nat)
    requires ReadsFrames(c, decode) && Fit(c, es) && k <= |Frames(c, es)|
    ensures var (got, consumed) := decode(Frames(c, es)[..k]); Survives(c, es, k, got, consumed)
    decreases |es|
  {
    if es == [] {
    } else if k < |Frame(c, es[0])| {
      CutFirst(c, es, k);
      assert es[0] in es && Stops(c, decode, es[0], k);
    } else {
      var j := k - |Frame(c, es[0])|;
      CutLater(c, es, k);
      assert forall x | x in es[1..] :: x in es;
      Torn(c, decode, es[1..], j);
      var rest := Frames(c, es[1..])[..j];
      assert es[0] in es && Steps(c, decode, es[0], rest);
      SurvivesCons(c, es, j, decode(rest).0, decode(rest).1);
    }
  }

  lemma DecoderReads<E(!new)>(c: Codec<E>)
    requires Faithful(c)
    ensures ReadsFrames(c, data => DecodeFrames(c, data))
  {
    var decode: Decoding<E> := data => DecodeFrames(c, data);
    forall e, rest | |c.encode(e)| < TWO_32 ensures Steps(c, decode, e, rest) { DecodeWhole(c, e, rest); }
    forall e, k: nat | |c.encode(e)| < TWO_32 ensures Stops(c, decode, e, k) {
      if k < |Frame(c, e)| { DecodeCut(c, e, k); }
    }
  }

  /** A log cut anywhere decodes to exactly the entries that survive the cut. */
  lemma TornLog<E(!new)>(c: Codec<E>, es: seq<E>, k: nat)
    requires Faithful(c) && Fit(c, es) && k <= |Frames(c, es)|
    ensures var (got, consumed) := DecodeFrames(c, Frames(c, es)[..k]); Survives(c, es, k, got, consumed)
  {
    DecoderReads(c);
    Torn(c, data => DecodeFrames(c, data), es, k);
  }

  lemma FramesCons<E>(c: Codec<E>, es: seq<E>, n: nat)
    requires es != [] && n <= |es[1..]|
    ensures es[..n + 1] == [es[0]] + es[1..][..n]
    ensures Frames(c, es[..n + 1]) == Frame(c, es[0]) + Frames(c, es[1..][..n])
  {
    assert es[..n + 1][1..] == es[1..][..n];
  }

  lemma {:induction false} FramesPrefix<E>(c: Codec<E>, es: seq<E>, m: nat, n: nat)
    requires m <= n <= |es|
    ensures |Frames(c, es[..m])| <= |Frames(c, es[..n])|
    decreases m
  {
    if m > 0 {
      FramesCons(c, es, m - 1);
      FramesCons(c, es, n - 1);
      FramesPrefix(c, es[1..], m - 1, n - 1);
    }
  }

  /** What survives a shorter cut is the start of what survives a longer one. */
  lemma SurvivesMore<E>(c: Codec<E>, es: seq<E>, j: nat, k: nat, a: seq<E>, m: nat, b: seq<E>, n: nat)
    requires Survives(c, es, j, a, m) && Survives(c, es, k, b, n) && j <= k
    ensures a <= b
  {
    if |b| < |a| { FramesPrefix(c, es, |b| + 1, |a|); }
    assert es[..|b|][..|a|] == es[..|a|];
  }

  /** A longer surviving prefix of the log only extends what is decoded. */
  lemma LongerSurvives<E(!new)>(c: Codec<E>, es: seq<E>, j: nat, k: nat)
    requires Faithful(c) && Fit(c, es) && j <= k <= |Frames(c, es)|
    ensures DecodeFrames(c, Frames(c, es)[..j]).0 <= DecodeFrames(c, Frames(c, es)[..k]).0
  {
    TornLog(c, es, j);
    TornLog(c, es, k);
    var a, b := DecodeFrames(c, Frames(c, es)[..j]), DecodeFrames(c, Frames(c, es)[..k]);
    SurvivesMore(c, es, j, k, a.0, a.1, b.0, b.1);
  }

  /** A frame: the number of the bytes that follow, in four bytes, highest first; then these. */
  lemma FrameBytes<E>(c: Codec<E>, e: E)
    requires |c.encode(e)| < 4294967296
    ensures var n := |c.encode(e)|;
      Frame(c, e) == [n / 16777216, n / 65536 % 256, n / 256 % 256, n % 256] + c.encode(e)
  {
  }

  /** What is read of `data` whose first frame announces `n` bytes. */
  ghost predicate ReadsFrame<E>(c: Codec<E>, data: bytes, rest: bytes, n: nat) {
    DecodeFrames(c, data) ==
    if |rest| < n || c.decode(rest[..n]).None? then ([], 0)
    else ([c.decode(rest[..n]).value] + DecodeFrames(c, rest[n..]).0, 4 + n + DecodeFrames(c, rest[n..]).1)
  }

  lemma DecodeStop<E>(c: Codec<E>, data: bytes, len: nat)
    requires |data| >= 4 && FromBe32(data[..4]) == len && (|data| < 4 + len || c.decode(data[4..4 + len]).None?)
    ensures DecodeFrames(c, data) == ([], 0)
  {
  }

  lemma BehindFour(h: bytes, rest: bytes, n: nat)
    requires |h| == 4 && n <= |rest|
    ensures (h + rest)[4..4 + n] == rest[..n] && (h + rest)[4 + n..] == rest[n..]
  {
  }

  /** Data is read frame by frame: four bytes of length, and an entry of that length; a frame that
      is cut, or an entry that does not decode, ends it. */
  lemma DecodedBytes<E>(c: Codec<E>, h: bytes, rest: bytes)
    requires |h| == 4
    ensures
      ReadsFrame(c, h + rest, rest,
                 (h[0] as int) * 16777216 + (h[1] as int) * 65536 + (h[2] as int) * 256 + h[3])
  {
    WordBytes(h[0], h[1], h[2], h[3]);
    assert h == [h[0], h[1], h[2], h[3]];
    var data, n := h + rest, FromBe32(h);
    assert data[..4] == h;
    if n <= |rest| { BehindFour(h, rest, n); }
    if |rest| < n || c.decode(rest[..n]).None? {
      DecodeStop(c, data, n);
    } else {
      DecodeStep(c, data, n, c.decode(rest[..n]).value);
    }
  }
}
