/** Result types and byte strings shared by every module of the model. */
module Basics {

  datatype Option<+T> = None | Some(value: T) {
    function GetOr(default: T): T {
      match this
      case Some(v) => v
      case None => default
    }
  }

  datatype Result<+T, +E> = Ok(value: T) | Err(error: E)

  type byte = b: int | 0 <= b < 256

  /** A Rust `String` or `Vec<u8>`: strings are modelled by their UTF-8 bytes. */
  type bytes = seq<byte>

  /** An object id. The empty sequence is the empty string that a node created in this
      session carries until it is committed. */
  type Oid = bytes

  /** The position of the first `b` in `s`, or |s| when there is none. */
  function IndexOf(s: bytes, b: byte): (i: nat)
    ensures i <= |s|
    ensures b !in s[..i]
    ensures i < |s| ==> s[i] == b
    ensures i < |s| <==> b in s
  {
    if s == [] then 0
    else if s[0] == b then 0
    else
      var i := IndexOf(s[1..], b) + 1;
      assert s == [s[0]] + s[1..];
      assert s[..i] == [s[0]] + s[1..][..i - 1];
      i
  }

  /** The index found does not depend on what follows it. */
  lemma {:induction false} IndexOfPrefix(a: bytes, b: byte, rest: bytes)
    requires b !in a
    ensures IndexOf(a + [b] + rest, b) == |a|
  {
    if a != [] {
      IndexOfPrefix(a[1..], b, rest);
      assert a[0] in a;
      assert (a + [b] + rest)[1..] == a[1..] + [b] + rest;
    }
  }

  function Min(a: int, b: int): int { if a < b then a else b }

  function Max(a: int, b: int): int { if a < b then b else a }

  lemma Associate<T>(a: seq<T>, b: seq<T>, c: seq<T>)
    ensures (a + b) + c == a + (b + c)
  {
  }
}
