/** The number encodings of packs, indexes and log frames. */
module Numbers {
  import opened Basics

  const TWO_32: nat := 0x1_0000_0000

  /** `u32::to_be_bytes` of a value truncated to 32 bits. */
  function Be32(n: nat): (r: bytes)
    ensures |r| == 4
  {
    [n / 0x100_0000 % 256, n / 0x1_0000 % 256, n / 256 % 256, n % 256]
  }

  function FromBe32(b: bytes): (n: nat)
    requires |b| == 4
    ensures n < TWO_32
  {
    (b[0] as int) * 0x100_0000 + (b[1] as int) * 0x1_0000 + (b[2] as int) * 256 + b[3]
  }

  lemma Be32RoundTrip(n: nat)
    ensures FromBe32(Be32(n)) == n % TWO_32
  {
    var a, b, c := n / 256, n / 256 / 256, n / 256 / 256 / 256;
    assert n / 0x1_0000 == b && n / 0x100_0000 == c;
  }

  // ---- little-endian base 128 (delta sizes, and object sizes above their first four bits)

  /** Four bytes are a number, highest first. */
  lemma WordBytes(a: byte, b: byte, c: byte, d: byte)
    ensures FromBe32([a, b, c, d]) == (a as int) * 16777216 + (b as int) * 65536 + (c as int) * 256 + d
  {
    var w: bytes := [a, b, c, d];
    assert w[0] == a && w[1] == b && w[2] == c && w[3] == d;
  }

  /** The value of the varint that starts `d`, and the bytes it takes. */
  function Varint(d: bytes): (r: Option<(nat, nat)>)
    ensures r.Some? ==> 0 < r.value.1 <= |d|
    decreases |d|
  {
    if d == [] then None
    else if d[0] < 128 then Some((d[0], 1))
    else
      match Varint(d[1..])
      case None => None
      case Some((v, n)) => Some((d[0] - 128 + 128 * v, n + 1))
  }

  function EncodeVarint(n: nat): (r: bytes)
    ensures |r| > 0
  {
    if n < 128 then [n] else [128 + n % 128] + EncodeVarint(n / 128)
  }

  lemma {:induction false} VarintRoundTrip(n: nat, rest: bytes)
    ensures Varint(EncodeVarint(n) + rest) == Some((n, |EncodeVarint(n)|))
    decreases n
  {
    if n >= 128 {
      VarintRoundTrip(n / 128, rest);
      assert (EncodeVarint(n) + rest)[1..] == EncodeVarint(n / 128) + rest;
    }
  }

  /** Only the bytes it takes matter. */
  lemma {:induction false} VarintLocal(d: bytes, w: bytes)
    requires Varint(d).Some? && Varint(d).value.1 <= |w| && w[..Varint(d).value.1] == d[..Varint(d).value.1]
    ensures Varint(w) == Varint(d)
    decreases |d|
  {
    var n := Varint(d).value.1;
    assert w[0] == w[..n][0] == d[..n][0] == d[0];
    if d[0] >= 128 {
      assert w[1..][..n - 1] == w[..n][1..] == d[..n][1..] == d[1..][..n - 1];
      VarintLocal(d[1..], w[1..]);
    }
  }

  /** The value once the bytes of `d` are shifted in above `val`, whose bits lie below `unit`. */
  function VarintFrom(d: bytes, val: nat, unit: nat): (r: Option<(nat, nat)>)
    ensures r.Some? ==> 0 < r.value.1 <= |d|
    decreases |d|
  {
    if d == [] then None
    else
      var v := val + (d[0] % 128) * unit;
      if d[0] < 128 then Some((v, 1))
      else
        match VarintFrom(d[1..], v, unit * 128)
        case None => None
        case Some((w, n)) => Some((w, n + 1))
  }

  lemma Distribute(val: nat, unit: nat, low: nat, v: nat)
    ensures val + unit * (low + 128 * v) == val + low * unit + unit * 128 * v
  {
  }

  lemma {:induction false} VarintShifts(d: bytes, val: nat, unit: nat)
    ensures VarintFrom(d, val, unit) == match Varint(d) case None => None case Some((v, n)) => Some((val + unit * v, n))
    decreases |d|
  {
    if d != [] && d[0] >= 128 {
      VarintShifts(d[1..], val + (d[0] % 128) * unit, unit * 128);
      if Varint(d[1..]).Some? { Distribute(val, unit, d[0] % 128, Varint(d[1..]).value.0); }
    }
  }

  lemma ShiftStep(data: bytes, pos: nat, val: nat, unit: nat)
    requires pos < |data|
    ensures
      var more := val + (data[pos] % 128) * unit;
      VarintFrom(data[pos..], val, unit) ==
        if data[pos] < 128 then Some((more, 1))
        else match VarintFrom(data[pos + 1..], more, unit * 128) case None => None case Some((v, n)) => Some((v, n + 1))
  {
    assert data[pos..][0] == data[pos] && data[pos..][1..] == data[pos + 1..];
  }

  /** The loop of `decode_varint`: `shift` is kept as the power of two it stands for. */
  method DecodeVarint(data: bytes, start: nat) returns (r: Option<(nat, nat)>)
    requires start <= |data|
    ensures r == match Varint(data[start..]) case None => None case Some((v, n)) => Some((v, start + n))
  {
    VarintShifts(data[start..], 0, 1);
    var pos := start;
    if pos >= |data| { return None; }
    var c := data[pos];
    assert data[start..][0] == c && data[start..][1..] == data[start + 1..];
    pos := pos + 1;
    var val: nat := c % 128;
    var unit: nat := 128;
    while c >= 128
      invariant start < pos <= |data|
      invariant VarintFrom(data[start..], 0, 1) ==
        if c < 128 then Some((val, pos - start))
        else match VarintFrom(data[pos..], val, unit) case None => None case Some((v, n)) => Some((v, pos - start + n))
      decreases |data| - pos
    {
      if pos >= |data| { return None; }
      c := data[pos];
      ShiftStep(data, pos, val, unit);
      pos := pos + 1;
      val := val + (c % 128) * unit;
      unit := unit * 128;
    }
    return Some((val, pos));
  }

  // ---- the OFS_DELTA distance

  /** The value after `acc` once the bytes of `d` have been shifted in, and the bytes taken. */
  function DistanceFrom(d: bytes, acc: nat): (r: Option<(nat, nat)>)
    ensures r.Some? ==> 0 < r.value.1 <= |d|
    decreases |d|
  {
    if d == [] then None
    else
      var v := (acc + 1) * 128 + d[0] % 128;
      if d[0] < 128 then Some((v, 1))
      else
        match DistanceFrom(d[1..], v)
        case None => None
        case Some((w, n)) => Some((w, n + 1))
  }

  function Distance(d: bytes): (r: Option<(nat, nat)>)
    ensures r.Some? ==> 0 < r.value.1 <= |d|
  {
    if d == [] then None
    else if d[0] < 128 then Some((d[0], 1))
    else
      match DistanceFrom(d[1..], d[0] - 128)
      case None => None
      case Some((w, n)) => Some((w, n + 1))
  }

  /** The loop that both pack readers contain. */
  method DecodeDistance(data: bytes, start: nat) returns (r: Option<(nat, nat)>)
    requires start <= |data|
    ensures r == match Distance(data[start..]) case None => None case Some((v, n)) => Some((v, start + n))
  {
    var pos := start;
    if pos >= |data| { return None; }
    var c := data[pos];
    assert data[start..][0] == c && data[start..][1..] == data[start + 1..];
    pos := pos + 1;
    var val: nat := c % 128;
    while c >= 128
      invariant start < pos <= |data| && c == data[pos - 1]
      invariant Distance(data[start..]) ==
        if c < 128 then Some((val, pos - start))
        else match DistanceFrom(data[pos..], val) case None => None case Some((v, n)) => Some((v, pos - start + n))
      decreases |data| - pos
    {
      if pos >= |data| { return None; }
      c := data[pos];
      assert data[pos..][0] == c && data[pos..][1..] == data[pos + 1..];
      pos := pos + 1;
      val := (val + 1) * 128 + c % 128;
    }
    return Some((val, pos));
  }

  /** All bytes but the last have their top bit set. */
  ghost predicate Terminated(bs: bytes) {
    bs != [] && bs[|bs| - 1] < 128 && forall i | 0 <= i < |bs| - 1 :: bs[i] >= 128
  }

  /** What a terminated string stands for, read from its last byte. */
  function DistanceOf(bs: bytes): nat
    requires bs != []
  {
    if |bs| == 1 then bs[0] % 128 else (DistanceOf(bs[..|bs| - 1]) + 1) * 128 + bs[|bs| - 1] % 128
  }

  /** The least distance that takes `k` bytes. */
  function Least(k: nat): nat {
    if k <= 1 then 0 else 128 * (Least(k - 1) + 1)
  }

  lemma TerminatedTail(bs: bytes)
    requires Terminated(bs)
    ensures |bs| == 1 <==> bs[0] < 128
    ensures |bs| > 1 ==> Terminated(bs[1..])
  {
  }

  lemma AppendFirst(front: bytes, bs: bytes, rest: bytes)
    requires bs != []
    ensures (front + [bs[0]])[..|front|] == front && front + [bs[0]] + bs[1..] == front + bs
    ensures bs + rest != [] && (bs + rest)[0] == bs[0] && (bs + rest)[1..] == bs[1..] + rest
    ensures |bs| == 1 ==> bs == [bs[0]]
  {
  }

  lemma {:induction false} DistanceFromPrefix(front: bytes, acc: nat, bs: bytes, rest: bytes)
    requires front != [] && acc == DistanceOf(front) && Terminated(bs)
    ensures DistanceFrom(bs + rest, acc) == Some((DistanceOf(front + bs), |bs|))
    decreases |bs|
  {
    AppendFirst(front, bs, rest);
    TerminatedTail(bs);
    if |bs| > 1 { DistanceFromPrefix(front + [bs[0]], (acc + 1) * 128 + bs[0] % 128, bs[1..], rest); }
  }

  lemma DistanceOfOne(b: byte)
    ensures DistanceOf([b]) == b % 128
  {
  }

  lemma DistanceDecodesLong(bs: bytes, rest: bytes)
    requires Terminated(bs) && |bs| > 1
    ensures DistanceFrom(bs[1..] + rest, bs[0] - 128) == Some((DistanceOf(bs), |bs| - 1))
  {
    TerminatedTail(bs);
    DistanceOfOne(bs[0]);
    DistanceFromPrefix([bs[0]], bs[0] - 128, bs[1..], rest);
    SplitFirst(bs, rest);
  }

  lemma SplitFirst(bs: bytes, rest: bytes)
    requires bs != []
    ensures [bs[0]] + bs[1..] == bs && bs + rest != [] && (bs + rest)[0] == bs[0] && (bs + rest)[1..] == bs[1..] + rest
  {
  }

  lemma DistanceUnfolds(d: bytes)
    requires d != []
    ensures Distance(d) ==
      if d[0] < 128 then Some((d[0], 1))
      else match DistanceFrom(d[1..], d[0] - 128) case None => None case Some((w, n)) => Some((w, n + 1))
  {
  }

  /** The decoder reads a terminated string to its end and no further. */
  lemma DistanceDecodes(bs: bytes, rest: bytes)
    requires Terminated(bs)
    ensures Distance(bs + rest) == Some((DistanceOf(bs), |bs|))
  {
    var d := bs + rest;
    SplitFirst(bs, rest);
    DistanceUnfolds(d);
    TerminatedTail(bs);
    if |bs| > 1 {
      DistanceDecodesLong(bs, rest);
    } else {
      assert [bs[0]] == bs;
      DistanceOfOne(bs[0]);
    }
  }

  /** Strings of `k` bytes cover one contiguous range of distances. */
  lemma {:induction false} DistanceRange(bs: bytes)
    requires bs != []
    ensures Least(|bs|) <= DistanceOf(bs) < Least(|bs| + 1)
    decreases |bs|
  {
    if |bs| > 1 { DistanceRange(bs[..|bs| - 1]); }
  }

  lemma {:induction false} LeastGrows(j: nat, k: nat)
    requires 1 <= j < k
    ensures Least(j + 1) <= Least(k)
    decreases k
  {
    if j + 1 < k { LeastGrows(j, k - 1); }
  }

  lemma {:induction false} DistanceInjective(a: bytes, b: bytes)
    requires a != [] && b != [] && |a| == |b| && DistanceOf(a) == DistanceOf(b)
    requires forall i | 0 <= i < |a| :: a[i] / 128 == b[i] / 128
    ensures a == b
    decreases |a|
  {
    var k := |a| - 1;
    assert a[k] % 128 == b[k] % 128;
    if k > 0 {
      DistanceInjective(a[..k], b[..k]);
      assert a == a[..k] + [a[k]] && b == b[..k] + [b[k]];
    }
  }

  /** A string for each distance: the bytes above the last carry the top bit. */
  function EncodeDistance(n: nat): (bs: bytes)
    ensures bs != []
    decreases n
  {
    if n < 128 then [n] else Continued(EncodeDistance(n / 128 - 1)) + [n % 128]
  }

  function Continued(bs: bytes): (r: bytes)
    ensures |r| == |bs| && forall i | 0 <= i < |bs| :: r[i] == 128 + bs[i] % 128
  {
    if bs == [] then [] else Continued(bs[..|bs| - 1]) + [128 + bs[|bs| - 1] % 128]
  }

  lemma {:induction false} ContinuedSame(bs: bytes)
    requires bs != []
    ensures DistanceOf(Continued(bs)) == DistanceOf(bs)
    decreases |bs|
  {
    if |bs| > 1 {
      ContinuedSame(bs[..|bs| - 1]);
      assert Continued(bs)[..|bs| - 1] == Continued(bs[..|bs| - 1]);
    }
  }

  lemma {:induction false} EncodeDistanceOk(n: nat)
    ensures Terminated(EncodeDistance(n)) && DistanceOf(EncodeDistance(n)) == n
    decreases n
  {
    if n >= 128 {
      var m := n / 128 - 1;
      EncodeDistanceOk(m);
      ContinuedSame(EncodeDistance(m));
      var bs := EncodeDistance(n);
      assert bs[..|bs| - 1] == Continued(EncodeDistance(m));
    }
  }

  /** Each distance is the value of exactly one terminated string. */
  lemma DistanceUnique(n: nat, bs: bytes)
    requires Terminated(bs)
    ensures DistanceOf(bs) == n <==> bs == EncodeDistance(n)
  {
    EncodeDistanceOk(n);
    if DistanceOf(bs) == n { SameDistance(bs, EncodeDistance(n)); }
  }

  lemma SameDistance(a: bytes, b: bytes)
    requires Terminated(a) && Terminated(b) && DistanceOf(a) == DistanceOf(b)
    ensures a == b
  {
    DistanceRange(a);
    SameRange(a, b);
    DistanceInjective(a, b);
  }

  /** The length of a distance's string tells which range it lies in. */
  lemma SameRange(a: bytes, b: bytes)
    requires a != [] && b != []
    ensures |a| == |b| <==> Least(|a|) <= DistanceOf(b) < Least(|a| + 1)
  {
    DistanceRange(b);
    if |a| < |b| { LeastGrows(|a|, |b|); }
    if |b| < |a| { LeastGrows(|b|, |a|); }
  }

  lemma {:induction false} DistanceFromLocal(d: bytes, w: bytes, acc: nat)
    requires DistanceFrom(d, acc).Some? && DistanceFrom(d, acc).value.1 <= |w|
    requires w[..DistanceFrom(d, acc).value.1] == d[..DistanceFrom(d, acc).value.1]
    ensures DistanceFrom(w, acc) == DistanceFrom(d, acc)
    decreases |d|
  {
    var n := DistanceFrom(d, acc).value.1;
    assert w[0] == w[..n][0] == d[..n][0] == d[0];
    if d[0] >= 128 {
      assert w[1..][..n - 1] == w[..n][1..] == d[..n][1..] == d[1..][..n - 1];
      DistanceFromLocal(d[1..], w[1..], (acc + 1) * 128 + d[0] % 128);
    }
  }

  lemma DistanceLocal(d: bytes, w: bytes)
    requires Distance(d).Some? && Distance(d).value.1 <= |w| && w[..Distance(d).value.1] == d[..Distance(d).value.1]
    ensures Distance(w) == Distance(d)
  {
    var n := Distance(d).value.1;
    assert w[0] == w[..n][0] == d[..n][0] == d[0];
    if d[0] >= 128 {
      assert w[1..][..n - 1] == w[..n][1..] == d[..n][1..] == d[1..][..n - 1];
      DistanceFromLocal(d[1..], w[1..], d[0] - 128);
    }
  }
}
