/** Git tree objects: one entry after another, each "<mode> <name>\0<20-byte id>"
    (src/git/tree.rs; written by src/git/builder.rs). */
module GitTree {
  import opened Basics
  import opened Numbers
  import opened GitData

  const SPACE: byte := 32

  // ---- modes

  const TEXT_FILE: bytes := [49, 48, 48, 54, 52, 52]        // 100644
  const TEXT_EXECUTABLE: bytes := [49, 48, 48, 55, 53, 53]  // 100755
  const TEXT_DIRECTORY: bytes := [52, 48, 48, 48, 48]       // 40000
  const TEXT_DIRECTORY_PADDED: bytes := [48] + TEXT_DIRECTORY
  const TEXT_SYMLINK: bytes := [49, 50, 48, 48, 48, 48]     // 120000
  const TEXT_SUBMODULE: bytes := [49, 54, 48, 48, 48, 48]   // 160000

  /** The number `0o100644`. */
  const PLAIN: nat := 33188

  /** `{m:o}` */
  function Octal(m: nat): (s: bytes)
    ensures s != [] && forall b | b in s :: 48 <= b < 56
  {
    if m < 8 then [48 + m] else Octal(m / 8) + [48 + m % 8]
  }

  /** The value of a string of octal digits, unless it exceeds 32 bits on the way. */
  function OctalValue(s: bytes): Option<nat> {
    if s == [] then Some(0)
    else
      match OctalValue(s[..|s| - 1])
      case None => None
      case Some(v) =>
        var digit := s[|s| - 1];
        if digit < 48 || digit >= 56 || v * 8 + digit - 48 >= TWO_32 then None else Some(v * 8 + digit - 48)
  }

  /** `u32::from_str_radix(s, 8)`: a sign is allowed before the digits. */
  function FromOctal(s: bytes): Option<nat> {
    var digits := if |s| > 1 && s[0] == 43 then s[1..] else s;
    if digits == [] then None else OctalValue(digits)
  }

  function ModeText(m: TreeEntryMode): bytes {
    match m
    case RegularFile => TEXT_FILE
    case ExecutableFile => TEXT_EXECUTABLE
    case Directory => TEXT_DIRECTORY
    case Symlink => TEXT_SYMLINK
    case Submodule => TEXT_SUBMODULE
    case Other(v) => Octal(v)
  }

  function FromModeText(s: bytes): TreeEntryMode {
    if s == TEXT_FILE then RegularFile
    else if s == TEXT_EXECUTABLE then ExecutableFile
    else if s == TEXT_DIRECTORY || s == TEXT_DIRECTORY_PADDED then Directory
    else if s == TEXT_SYMLINK then Symlink
    else if s == TEXT_SUBMODULE then Submodule
    else Other(FromOctal(s).GetOr(PLAIN))
  }

  /** A number that prints like one of the five named modes. */
  predicate Named(v: nat) {
    v == 33188 || v == 33261 || v == 16384 || v == 40960 || v == 57344
  }

  lemma {:induction false} OctalRoundTrip(m: nat)
    requires m < TWO_32
    ensures OctalValue(Octal(m)) == Some(m)
    decreases m
  {
    if m >= 8 {
      OctalRoundTrip(m / 8);
      assert Octal(m)[..|Octal(m)| - 1] == Octal(m / 8);
    }
  }

  lemma OctalInjective(a: nat, b: nat)
    requires a < TWO_32 && b < TWO_32 && Octal(a) == Octal(b)
    ensures a == b
  {
    OctalRoundTrip(a);
    OctalRoundTrip(b);
  }

  lemma FileText()
    ensures Octal(33188) == TEXT_FILE && Octal(33261) == TEXT_EXECUTABLE
  {
    assert Octal(8) == [49, 48] && Octal(64) == [49, 48, 48];
    assert Octal(518) == [49, 48, 48, 54] && Octal(4148) == [49, 48, 48, 54, 52];
    assert Octal(519) == [49, 48, 48, 55] && Octal(4157) == [49, 48, 48, 55, 53];
  }

  lemma DirectoryText()
    ensures Octal(16384) == TEXT_DIRECTORY
  {
    assert Octal(32) == [52, 48] && Octal(256) == [52, 48, 48] && Octal(2048) == [52, 48, 48, 48];
  }

  lemma SymlinkText()
    ensures Octal(40960) == TEXT_SYMLINK
  {
    assert Octal(10) == [49, 50] && Octal(80) == [49, 50, 48] && Octal(640) == [49, 50, 48, 48]
      && Octal(5120) == [49, 50, 48, 48, 48];
  }

  lemma SubmoduleText()
    ensures Octal(57344) == TEXT_SUBMODULE
  {
    assert Octal(14) == [49, 54] && Octal(112) == [49, 54, 48] && Octal(896) == [49, 54, 48, 48]
      && Octal(7168) == [49, 54, 48, 48, 48];
  }

  /** No number prints with a leading zero and more digits. */
  lemma {:induction false} NoPadding(m: nat)
    ensures |Octal(m)| > 1 ==> Octal(m)[0] != 48
    decreases m
  {
    if m >= 8 {
      NoPadding(m / 8);
      assert Octal(m)[0] == Octal(m / 8)[0];
    }
  }

  /** A mode is read back as it was written, except a number that has a name. */
  lemma ModeRoundTrip(m: TreeEntryMode)
    requires m.Other? ==> m.m < TWO_32
    ensures FromModeText(ModeText(m)) == m <==> !(m.Other? && Named(m.m))
  {
    if m.Other? {
      FileText();
      DirectoryText();
      SymlinkText();
      SubmoduleText();
      NoPadding(m.m);
      OctalRoundTrip(m.m);
      assert Octal(m.m)[0] in Octal(m.m);
      var t := Octal(m.m);
      if t == TEXT_FILE { OctalInjective(m.m, 33188); }
      if t == TEXT_EXECUTABLE { OctalInjective(m.m, 33261); }
      if t == TEXT_DIRECTORY { OctalInjective(m.m, 16384); }
      if t == TEXT_SYMLINK { OctalInjective(m.m, 40960); }
      if t == TEXT_SUBMODULE { OctalInjective(m.m, 57344); }
    }
  }

  lemma ModeTextPlain(m: TreeEntryMode)
    ensures forall b | b in ModeText(m) :: 48 <= b < 56
  {
  }

  // ---- UTF-8 (RFC 3629, section 4)

  predicate Tail(s: bytes, i: nat) {
    i < |s| && 0x80 <= s[i] <= 0xbf
  }

  /** The length of the character that starts `s`; 0 when there is none. */
  function CharLength(s: bytes): (n: nat)
    ensures n <= |s|
  {
    if s == [] then 0
    else if s[0] < 0x80 then 1
    else if 0xc2 <= s[0] <= 0xdf && Tail(s, 1) then 2
    else if |s| < 3 || !Tail(s, 1) || !Tail(s, 2) then 0
    else if s[0] == 0xe0 then if s[1] >= 0xa0 then 3 else 0
    else if s[0] == 0xed then if s[1] <= 0x9f then 3 else 0
    else if 0xe1 <= s[0] <= 0xef then 3
    else if !Tail(s, 3) then 0
    else if s[0] == 0xf0 then if s[1] >= 0x90 then 4 else 0
    else if s[0] == 0xf4 then if s[1] <= 0x8f then 4 else 0
    else if 0xf1 <= s[0] <= 0xf3 then 4
    else 0
  }

  predicate ValidUtf8(s: bytes) {
    s == [] || (CharLength(s) > 0 && ValidUtf8(s[CharLength(s)..]))
  }

  lemma {:induction false} AsciiValid(s: bytes)
    requires forall b | b in s :: b < 0x80
    ensures ValidUtf8(s)
    decreases |s|
  {
    if s != [] {
      assert s[0] in s;
      assert forall b | b in s[1..] :: b in s;
      AsciiValid(s[1..]);
    }
  }

  // ---- entries

  function EntryBytes(e: TreeEntry): bytes {
    ModeText(e.mode) + [SPACE] + e.name + [0] + e.oid
  }

  function TreeBytes(es: Entries): bytes {
    if es == [] then [] else TreeBytes(es[..|es| - 1]) + EntryBytes(es[|es| - 1])
  }

  /** What lies before the first `b`, and after it. */
  function SplitAt(d: bytes, b: byte): (r: Option<(bytes, bytes)>)
    ensures r.Some? ==> |r.value.0| + 1 + |r.value.1| == |d|
  {
    var i := IndexOf(d, b);
    if i == |d| then None else Some((d[..i], d[i + 1..]))
  }

  /** The entry that starts `d`, and what follows it. */
  function ReadEntry(d: bytes): (r: Option<(TreeEntry, bytes)>)
    ensures r.Some? ==> |r.value.1| < |d|
  {
    match SplitAt(d, SPACE)
    case None => None
    case Some((mode, rest)) =>
      if !ValidUtf8(mode) then None
      else
        match SplitAt(rest, 0)
        case None => None
        case Some((name, tail)) =>
          if !ValidUtf8(name) || |tail| < 20 then None
          else Some((TreeEntry(FromModeText(mode), name, tail[..20]), tail[20..]))
  }

  function ReadTree(d: bytes): Option<Entries>
    decreases |d|
  {
    if d == [] then Some([])
    else
      match ReadEntry(d)
      case None => None
      case Some((e, rest)) =>
        match ReadTree(rest)
        case None => None
        case Some(es) => Some([e] + es)
  }

  /** Entries that a tree object can hold: a name without NUL, and a mode that is read back. */
  predicate Writable(e: TreeEntry) {
    0 !in e.name && ValidUtf8(e.name) && |e.oid| == 20 && FromModeText(ModeText(e.mode)) == e.mode
  }

  ghost predicate AllWritable(es: Entries) {
    forall i | 0 <= i < |es| :: Writable(es[i])
  }

  lemma SplitAfter(a: bytes, b: byte, rest: bytes)
    requires b !in a
    ensures SplitAt(a + [b] + rest, b) == Some((a, rest))
  {
    IndexOfPrefix(a, b, rest);
    assert (a + [b] + rest)[..|a|] == a && (a + [b] + rest)[|a| + 1..] == rest;
  }

  lemma TakeTwenty(oid: bytes, rest: bytes)
    requires |oid| == 20
    ensures (oid + rest)[..20] == oid && (oid + rest)[20..] == rest
  {
  }

  lemma ModeTextValid(m: TreeEntryMode)
    ensures SPACE !in ModeText(m) && ValidUtf8(ModeText(m))
  {
    ModeTextPlain(m);
    AsciiValid(ModeText(m));
  }

  lemma Regroup(mode: bytes, name: bytes, oid: bytes, rest: bytes)
    ensures mode + [SPACE] + name + [0] + oid + rest == mode + [SPACE] + (name + [0] + (oid + rest))
  {
  }

  /** A written entry is read back, whatever follows it. */
  lemma EntryRoundTrip(e: TreeEntry, rest: bytes)
    requires Writable(e)
    ensures ReadEntry(EntryBytes(e) + rest) == Some((e, rest))
  {
    Regroup(ModeText(e.mode), e.name, e.oid, rest);
    ModeTextValid(e.mode);
    SplitAfter(ModeText(e.mode), SPACE, e.name + [0] + (e.oid + rest));
    SplitAfter(e.name, 0, e.oid + rest);
    TakeTwenty(e.oid, rest);
  }

  lemma {:induction false} TreeBytesCons(e: TreeEntry, es: Entries)
    ensures TreeBytes([e] + es) == EntryBytes(e) + TreeBytes(es)
    decreases |es|
  {
    if es == [] {
      assert [e] + es == [e] && [e][..0] == [];
      assert TreeBytes([e]) == [] + EntryBytes(e);
    } else {
      var front, last := es[..|es| - 1], es[|es| - 1];
      TreeBytesCons(e, front);
      assert ([e] + es)[..|es|] == [e] + front;
      Associate(EntryBytes(e), TreeBytes(front), EntryBytes(last));
    }
  }

  /** A written tree is read back as the entries that were written. */
  lemma {:induction false} TreeRoundTrip(es: Entries)
    requires AllWritable(es)
    ensures ReadTree(TreeBytes(es)) == Some(es)
    decreases |es|
  {
    if es != [] {
      var e, rest := es[0], es[1..];
      assert es == [e] + rest;
      TreeBytesCons(e, rest);
      EntryRoundTrip(e, TreeBytes(rest));
      TreeRoundTrip(rest);
      assert EntryBytes(e) + TreeBytes(rest) != [];
    }
  }

  /** Different writable trees have different bytes. */
  lemma TreeBytesInjective(a: Entries, b: Entries)
    requires AllWritable(a) && AllWritable(b) && TreeBytes(a) == TreeBytes(b)
    ensures a == b
  {
    TreeRoundTrip(a);
    TreeRoundTrip(b);
  }

  // ---- the parsing loop

  /** What the rest of the bytes adds to the entries read. */
  function Continued(done: Entries, more: Option<Entries>): Option<Entries> {
    match more case None => None case Some(es) => Some(done + es)
  }

  lemma ContinuedStep(done: Entries, d: bytes)
    requires d != []
    ensures Continued(done, ReadTree(d)) ==
      match ReadEntry(d) case None => None case Some((e, rest)) => Continued(done + [e], ReadTree(rest))
  {
    var r := ReadEntry(d);
    if r.Some? && ReadTree(r.value.1).Some? {
      var es := ReadTree(r.value.1).value;
      assert done + ([r.value.0] + es) == done + [r.value.0] + es;
    }
  }

  /** The next `b` from `start` on: the text before it, and the position after it. */
  method TakeUntil(data: bytes, start: nat, b: byte) returns (r: Option<(bytes, nat)>)
    requires start <= |data|
    ensures r.None? <==> SplitAt(data[start..], b) == None
    ensures r.Some? ==> r.value.1 <= |data| && SplitAt(data[start..], b) == Some((r.value.0, data[r.value.1..]))
  {
    var i := IndexOf(data[start..], b);
    if i == |data| - start { return None; }
    assert data[start..][i + 1..] == data[start + i + 1..];
    return Some((data[start..][..i], start + i + 1));
  }

  lemma ReadEntryIs(d: bytes, mode: bytes, rest: bytes)
    requires SplitAt(d, SPACE) == Some((mode, rest))
    ensures ReadEntry(d) ==
      if !ValidUtf8(mode) then None
      else
        match SplitAt(rest, 0)
        case None => None
        case Some((name, tail)) =>
          if !ValidUtf8(name) || |tail| < 20 then None
            else Some((TreeEntry(FromModeText(mode), name, tail[..20]), tail[20..]))
  {
  }

  /** The raw object id at `at`, and the position after it. */
  method TakeSha(data: bytes, at: nat) returns (r: Option<(Oid, nat)>)
    requires at <= |data|
    ensures r.None? <==> |data[at..]| < 20
    ensures r.Some? ==> r.value.1 <= |data| && r.value.0 == data[at..][..20] && data[r.value.1..] == data[at..][20..]
  {
    if at + 20 > |data| { return None; }
    return Some((data[at..at + 20], at + 20));
  }

  /** One turn of the loop: the entry at `start` and the position after it. */
  method ParseEntry(data: bytes, start: nat) returns (r: Option<(TreeEntry, nat)>)
    requires start < |data|
    ensures r.None? <==> ReadEntry(data[start..]) == None
    ensures r.Some? ==> r.value.1 <= |data| && ReadEntry(data[start..]) == Some((r.value.0, data[r.value.1..]))
  {
    var mode := TakeUntil(data, start, SPACE);
    if mode.None? { return None; }
    ReadEntryIs(data[start..], mode.value.0, data[mode.value.1..]);
    if !ValidUtf8(mode.value.0) { return None; }
    var name := TakeUntil(data, mode.value.1, 0);
    if name.None? || !ValidUtf8(name.value.0) { return None; }
    var sha := TakeSha(data, name.value.1);
    if sha.None? { return None; }
    return Some((TreeEntry(FromModeText(mode.value.0), name.value.0, sha.value.0), sha.value.1));
  }

  method Parse(data: bytes) returns (r: Option<Entries>)
    ensures r == ReadTree(data)
  {
    var pos, entries := 0, [];
    assert data[0..] == data;
    assert ReadTree(data).Some? ==> [] + ReadTree(data).value == ReadTree(data).value;
    while pos < |data|
      invariant pos <= |data|
      invariant Continued(entries, ReadTree(data[pos..])) == ReadTree(data)
    {
      ContinuedStep(entries, data[pos..]);
      var e := ParseEntry(data, pos);
      if e.None? { return None; }
      entries, pos := entries + [e.value.0], e.value.1;
    }
    assert data[pos..] == [] && entries + [] == entries;
    return Some(entries);
  }
}
