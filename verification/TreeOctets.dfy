/** What the bytes of tree objects are (src/git/tree.rs, src/git/builder.rs): modes digit by digit,
    entries byte by byte, UTF-8 by code points, and the names that are never written. */
module TreeOctets {
  import opened Basics
  import opened Paths
  import opened GitData
  import opened GitTree
  import opened TreeBuilder
  import opened TreeOrder
  import opened VfsInvariant

  /** A string of characters below 256 as bytes. */
  function Ascii(s: string): bytes
    requires forall i | 0 <= i < |s| :: s[i] as int < 256
  {
    seq(|s|, i requires 0 <= i < |s| => s[i] as int)
  }

  // ---- modes

  function Power8(k: nat): nat {
    if k == 0 then 1 else 8 * Power8(k - 1)
  }

  predicate OctalDigits(s: bytes) {
    s != [] && forall b | b in s :: 48 <= b < 56
  }

  /** The digits of an octal number, highest first. */
  function OctalSum(s: bytes): int {
    if s == [] then 0 else (s[0] as int - 48) * Power8(|s| - 1) + OctalSum(s[1..])
  }

  lemma Eightfold(digit: int, power: nat)
    ensures digit * (8 * power) == 8 * (digit * power)
  {
  }

  lemma {:induction false} OctalSnoc(s: bytes, b: byte)
    ensures OctalSum(s + [b]) == 8 * OctalSum(s) + b as int - 48
    decreases |s|
  {
    var t := s + [b];
    if s == [] {
      assert t[1..] == [] && Power8(0) == 1;
    } else {
      assert t[1..] == s[1..] + [b];
      OctalSnoc(s[1..], b);
      Eightfold(s[0] as int - 48, Power8(|s| - 1));
    }
  }

  /** Reading octal digits gives the sum, as long as it has 32 bits. */
  lemma {:induction false} OctalReads(s: bytes)
    requires OctalDigits(s)
    ensures 0 <= OctalSum(s)
    ensures OctalValue(s) == if OctalSum(s) < 4294967296 then Some(OctalSum(s)) else None
    decreases |s|
  {
    var front, last := s[..|s| - 1], s[|s| - 1];
    assert s == front + [last] && last in s;
    forall b | b in front ensures 48 <= b < 56 { assert b in s; }
    OctalSnoc(front, last);
    if front != [] { OctalReads(front); }
  }

  /** How modes are written: five by their text, and a number by its octal digits, without a zero
      in front. */
  lemma ModesWritten(v: nat)
    requires v < 4294967296
    ensures ModeText(RegularFile) == Ascii("100644") && ModeText(ExecutableFile) == Ascii("100755")
    ensures ModeText(Directory) == Ascii("40000") && ModeText(Symlink) == Ascii("120000")
    ensures ModeText(Submodule) == Ascii("160000")
    ensures
      var t := ModeText(Other(v));
      OctalDigits(t) && OctalSum(t) == v && (|t| > 1 ==> t[0] != 48)
  {
    OctalRoundTrip(v);
    OctalReads(Octal(v));
    NoPadding(v);
  }

  lemma {:induction false} NotOctal(s: bytes)
    requires s != [] && !OctalDigits(s)
    ensures OctalValue(s) == None
    decreases |s|
  {
    var front, last := s[..|s| - 1], s[|s| - 1];
    assert s == front + [last];
    if 48 <= last < 56 {
      assert front != [];
      NotOctal(front);
    }
  }

  /** The five texts, a directory's also with a zero in front. */
  lemma NamesRead()
    ensures FromModeText(Ascii("100644")) == RegularFile && FromModeText(Ascii("100755")) == ExecutableFile
    ensures FromModeText(Ascii("40000")) == Directory && FromModeText(Ascii("040000")) == Directory
    ensures FromModeText(Ascii("120000")) == Symlink && FromModeText(Ascii("160000")) == Submodule
  {
    assert Ascii("100644") == TEXT_FILE && Ascii("100755") == TEXT_EXECUTABLE && Ascii("40000") == TEXT_DIRECTORY;
    assert TEXT_EXECUTABLE[3] != TEXT_FILE[3] && TEXT_SYMLINK[1] == 50 && TEXT_SUBMODULE[1] == 54;
    assert Ascii("040000") == TEXT_DIRECTORY_PADDED && TEXT_DIRECTORY_PADDED[0] == 48;
    assert Ascii("120000") == TEXT_SYMLINK && Ascii("160000") == TEXT_SUBMODULE;
  }

  predicate NamedText(s: bytes) {
    s == TEXT_FILE || s == TEXT_EXECUTABLE || s == TEXT_DIRECTORY || s == TEXT_DIRECTORY_PADDED || s == TEXT_SYMLINK ||
    s == TEXT_SUBMODULE
  }

  /** Any other octal number is read as it is, a plus sign allowed; and what is none, as the number
      of a plain file. */
  lemma NumbersRead(s: bytes)
    ensures OctalDigits(s) && 0 <= OctalSum(s) < 4294967296 ==>
      FromModeText([43] + s) == Other(OctalSum(s)) && (!NamedText(s) ==> FromModeText(s) == Other(OctalSum(s)))
    ensures s != [] && s[0] != 43 && !OctalDigits(s) ==> FromModeText(s) == Other(33188)
  {
    if OctalDigits(s) {
      OctalReads(s);
      assert s[0] in s;
      assert ([43] + s)[1..] == s && ([43] + s)[0] == 43;
    } else if s != [] {
      assert TEXT_FILE[0] == 49;
      TextsAreOctal();
      NotOctal(s);
    }
  }

  lemma TextsAreOctal()
    ensures forall s | NamedText(s) :: OctalDigits(s)
  {
  }

  // ---- entries

  /** An entry is its mode's text, a space, its name, a NUL and its twenty bytes of id; entries
      stand one after another. */
  lemma EntryAppends(es: Entries, e: TreeEntry)
    ensures TreeBytes(es + [e]) == TreeBytes(es) + ModeText(e.mode) + [32] + e.name + [0] + e.oid
    ensures TreeBytes([]) == []
  {
    assert (es + [e])[..|es|] == es;
    var a, b, c, d := TreeBytes(es), ModeText(e.mode), [SPACE], e.name;
    Associate(a, b + c + d + [0], e.oid);
    Associate(a, b + c + d, [0]);
    Associate(a, b + c, d);
    Associate(a, b, c);
  }

  /** What is read as one entry, and what is left. */
  ghost predicate EntryText(d: bytes, mode: bytes, name: bytes, oid: bytes, rest: bytes) {
    d == mode + [32] + name + [0] + oid + rest && 32 !in mode && 0 !in name && |oid| == 20
  }

  lemma EntryRead(d: bytes, mode: bytes, name: bytes, oid: bytes, rest: bytes)
    requires EntryText(d, mode, name, oid, rest)
    ensures ReadEntry(d) ==
      if ValidUtf8(mode) && ValidUtf8(name) then Some((TreeEntry(FromModeText(mode), name, oid), rest)) else None
  {
    var tail := name + [0] + oid + rest;
    assert d == mode + [SPACE] + tail;
    SplitAfter(mode, SPACE, tail);
    assert tail == name + [0] + (oid + rest);
    SplitAfter(name, 0, oid + rest);
    TakeTwenty(oid, rest);
  }

  lemma SplitBack(d: bytes, b: byte)
    requires SplitAt(d, b).Some?
    ensures d == SplitAt(d, b).value.0 + [b] + SplitAt(d, b).value.1 && b !in SplitAt(d, b).value.0
  {
  }

  lemma EntryJoins(mode: bytes, name: bytes, tail: bytes)
    requires |tail| >= 20 && 32 !in mode && 0 !in name
    ensures EntryText(mode + [32] + (name + [0] + tail), mode, name, tail[..20], tail[20..])
  {
    assert tail == tail[..20] + tail[20..];
    var d := mode + [32] + (name + [0] + tail);
    assert d == mode + [32] + name + [0] + tail[..20] + tail[20..];
  }

  /** Nothing else is an entry. */
  lemma EntryReadOnly(d: bytes) returns (mode: bytes, name: bytes)
    requires ReadEntry(d).Some?
    ensures EntryText(d, mode, name, ReadEntry(d).value.0.oid, ReadEntry(d).value.1)
  {
    SplitBack(d, SPACE);
    mode := SplitAt(d, SPACE).value.0;
    var after := SplitAt(d, SPACE).value.1;
    SplitBack(after, 0);
    name := SplitAt(after, 0).value.0;
    EntryJoins(mode, name, SplitAt(after, 0).value.1);
  }

  // ---- UTF-8 by code points (RFC 3629, section 3)

  /** A Unicode scalar value. */
  predicate Scalar(c: nat) {
    c < 0xd800 || 0xe000 <= c < 0x11_0000
  }

  function Encoded(c: nat): (r: bytes)
    requires Scalar(c)
    ensures 1 <= |r| <= 4
  {
    if c < 0x80 then [c]
    else if c < 0x800 then [192 + c / 64, 128 + c % 64]
    else if c < 0x1_0000 then [224 + c / 4096, 128 + c / 64 % 64, 128 + c % 64]
    else [240 + c / 262144, 128 + c / 4096 % 64, 128 + c / 64 % 64, 128 + c % 64]
  }

  lemma OneByte(a: byte, rest: bytes)
    requires a < 0x80
    ensures CharLength([a] + rest) == 1
  {
  }

  lemma TwoBytes(a: byte, b: byte, rest: bytes)
    requires 0xc2 <= a <= 0xdf && 0x80 <= b <= 0xbf
    ensures CharLength([a, b] + rest) == 2
  {
    var s := [a, b] + rest;
    assert s[0] == a && s[1] == b;
  }

  lemma ThreeBytes(a: byte, b: byte, c: byte, rest: bytes)
    requires 0xe0 <= a <= 0xef && 0x80 <= b <= 0xbf && 0x80 <= c <= 0xbf
    requires (a == 0xe0 ==> b >= 0xa0) && (a == 0xed ==> b <= 0x9f)
    ensures CharLength([a, b, c] + rest) == 3
  {
    var s := [a, b, c] + rest;
    assert s[0] == a && s[1] == b && s[2] == c;
  }

  lemma FourBytes(a: byte, b: byte, c: byte, d: byte, rest: bytes)
    requires 0xf0 <= a <= 0xf4 && 0x80 <= b <= 0xbf && 0x80 <= c <= 0xbf && 0x80 <= d <= 0xbf
    requires (a == 0xf0 ==> b >= 0x90) && (a == 0xf4 ==> b <= 0x8f)
    ensures CharLength([a, b, c, d] + rest) == 4
  {
    var s := [a, b, c, d] + rest;
    assert s[0] == a && s[1] == b && s[2] == c && s[3] == d;
  }

  /** A character in front is seen, with its length. */
  lemma CharSeen(c: nat, rest: bytes)
    requires Scalar(c)
    ensures CharLength(Encoded(c) + rest) == |Encoded(c)|
  {
    if c < 0x80 {
      OneByte(c, rest);
    } else if c < 0x800 {
      TwoBytes(192 + c / 64, 128 + c % 64, rest);
    } else if c < 0x1_0000 {
      ThreeBytes(224 + c / 4096, 128 + c / 64 % 64, 128 + c % 64, rest);
    } else {
      FourBytes(240 + c / 262144, 128 + c / 4096 % 64, 128 + c / 64 % 64, 128 + c % 64, rest);
    }
  }

  lemma TwoDecode(a: byte, b: byte) returns (c: nat)
    requires 0xc2 <= a <= 0xdf && 0x80 <= b <= 0xbf
    ensures Scalar(c) && Encoded(c) == [a, b]
  {
    c := (a as int - 192) * 64 + (b as int - 128);
  }

  lemma ThreeDecode(a: byte, b: byte, d: byte) returns (c: nat)
    requires 0xe0 <= a <= 0xef && 0x80 <= b <= 0xbf && 0x80 <= d <= 0xbf
    requires (a == 0xe0 ==> b >= 0xa0) && (a == 0xed ==> b <= 0x9f)
    ensures Scalar(c) && Encoded(c) == [a, b, d]
  {
    var high := (a as int - 224) * 64 + (b as int - 128);
    c := high * 64 + (d as int - 128);
    assert c / 64 == high && c % 64 == d as int - 128;
    assert high / 64 == a as int - 224 && high % 64 == b as int - 128;
    assert c / 4096 == high / 64;
  }

  lemma FourDecode(a: byte, b: byte, d: byte, e: byte) returns (c: nat)
    requires 0xf0 <= a <= 0xf4 && 0x80 <= b <= 0xbf && 0x80 <= d <= 0xbf && 0x80 <= e <= 0xbf
    requires (a == 0xf0 ==> b >= 0x90) && (a == 0xf4 ==> b <= 0x8f)
    ensures Scalar(c) && Encoded(c) == [a, b, d, e]
  {
    var top := (a as int - 240) * 64 + (b as int - 128);
    var high := top * 64 + (d as int - 128);
    c := high * 64 + (e as int - 128);
    assert c / 64 == high && c % 64 == e as int - 128;
    assert high / 64 == top && high % 64 == d as int - 128;
    assert top / 64 == a as int - 240 && top % 64 == b as int - 128;
    assert c / 4096 == top && c / 262144 == top / 64;
  }

  /** What is seen as a character is one. */
  lemma CharDecodes(s: bytes) returns (c: nat)
    requires CharLength(s) > 0
    ensures Scalar(c) && Encoded(c) == s[..CharLength(s)]
  {
    var n := CharLength(s);
    if n == 1 {
      c := s[0];
      assert s[..1] == [s[0]];
    } else if n == 2 {
      c := TwoDecode(s[0], s[1]);
      assert s[..2] == [s[0], s[1]];
    } else if n == 3 {
      c := ThreeDecode(s[0], s[1], s[2]);
      assert s[..3] == [s[0], s[1], s[2]];
    } else {
      c := FourDecode(s[0], s[1], s[2], s[3]);
      assert s[..4] == [s[0], s[1], s[2], s[3]];
    }
  }

  predicate Scalars(cs: seq<nat>) {
    forall i | 0 <= i < |cs| :: Scalar(cs[i])
  }

  /** The UTF-8 of a string of characters. */
  function Text(cs: seq<nat>): bytes
    requires Scalars(cs)
  {
    if cs == [] then [] else Encoded(cs[0]) + Text(cs[1..])
  }

  lemma {:induction false} TextValid(cs: seq<nat>)
    requires Scalars(cs)
    ensures ValidUtf8(Text(cs))
    decreases |cs|
  {
    if cs != [] {
      var rest := Text(cs[1..]);
      TextValid(cs[1..]);
      CharSeen(cs[0], rest);
      assert (Encoded(cs[0]) + rest)[|Encoded(cs[0])|..] == rest;
    }
  }

  lemma {:induction false} ValidIsText(s: bytes) returns (cs: seq<nat>)
    requires ValidUtf8(s)
    ensures Scalars(cs) && Text(cs) == s
    decreases |s|
  {
    if s == [] {
      cs := [];
    } else {
      var c := CharDecodes(s);
      var more := ValidIsText(s[CharLength(s)..]);
      cs := [c] + more;
      assert cs[1..] == more;
    }
  }

  /** A name or mode is accepted exactly when it is the UTF-8 of some characters. */
  lemma Utf8Exactly(s: bytes)
    ensures ValidUtf8(s) <==> exists cs :: Scalars(cs) && Text(cs) == s
  {
    if ValidUtf8(s) {
      var cs := ValidIsText(s);
    }
    forall cs | Scalars(cs) && Text(cs) == s ensures ValidUtf8(s) { TextValid(cs); }
  }

  // ---- names that are never written

  lemma ShortTexts()
    ensures Ascii(".DS_Store") == [46, 68, 83, 95, 83, 116, 111, 114, 101]
    ensures Ascii(".localized") == [46, 108, 111, 99, 97, 108, 105, 122, 101, 100]
    ensures Ascii(".Trashes") == [46, 84, 114, 97, 115, 104, 101, 115]
    ensures Ascii(".fseventsd") == [46, 102, 115, 101, 118, 101, 110, 116, 115, 100]
  {
  }

  lemma SpotlightText()
    ensures Ascii(".Spotlight-V100") == [46, 83, 112, 111, 116, 108, 105, 103, 104, 116, 45, 86, 49, 48, 48]
  {
  }

  lemma ItemsText()
    ensures Ascii(".TemporaryItems") == [46, 84, 101, 109, 112, 111, 114, 97, 114, 121, 73, 116, 101, 109, 115]
  {
  }

  lemma IconText()
    ensures Ascii(".VolumeIcon.icns") == [46, 86, 111, 108, 117, 109, 101, 73, 99, 111, 110, 46, 105, 99, 110, 115]
  {
  }

  /** The names that no commit holds. */
  predicate DesktopName(n: Name) {
    || (|n| >= 2 && n[..2] == Ascii("._"))
    || n == Ascii(".DS_Store") || n == Ascii(".localized") || n == Ascii(".Trashes") || n == Ascii(".fseventsd")
    || n == Ascii(".Spotlight-V100") || n == Ascii(".TemporaryItems") || n == Ascii(".VolumeIcon.icns")
  }

  lemma MetadataNames(n: Name)
    ensures AppleMetadata(n) <==> DesktopName(n)
  {
    ShortTexts();
    SpotlightText();
    ItemsText();
    IconText();
    if |n| >= 2 { assert n[..2][0] == n[0] && n[..2][1] == n[1]; }
  }

  /** No tree that is written names a file of the desktop's. */
  lemma NeverWritten(x: Build, d: nat, i: nat)
    requires Inv(x.s) && GoodRepo(x.repo) && i < |NewEntries(x, d)|
    ensures !DesktopName(NewEntries(x, d)[i].name)
  {
    NewEntriesAre(x, d);
    var e := NewEntries(x, d)[i];
    assert e in NewEntries(x, d);
    var k :| WrittenKid(x, d, k, e);
    MetadataNames(e.name);
  }
}
