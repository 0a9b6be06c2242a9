/** The text of a commit, and what is read from it (src/git/builder.rs; src/git/mod.rs,
    `initialize`; git-commit-tree(1)). */
module CommitText {
  import opened Basics
  import opened Staging

  const NEWLINE: byte := 10

  function HexDigit(v: nat): byte
    requires v < 16
  {
    if v < 10 then 48 + v else 87 + v
  }

  /** `hex::encode` */
  function Hex(oid: Oid): (r: bytes)
    ensures |r| == 2 * |oid|
  {
    if oid == [] then [] else [HexDigit(oid[0] / 16), HexDigit(oid[0] % 16)] + Hex(oid[1..])
  }

  const TREE_WORD: bytes := [116, 114, 101, 101, 32]
  const PARENT_WORD: bytes := [112, 97, 114, 101, 110, 116, 32]
  const AUTHOR_WORD: bytes := [97, 117, 116, 104, 111, 114, 32]
  const COMMITTER_WORD: bytes := [99, 111, 109, 109, 105, 116, 116, 101, 114, 32]

  /** `time` is the digits of the seconds. */
  function Signed(author: bytes, time: bytes): bytes {
    author + [32] + time + [32, 43, 48, 48, 48, 48, NEWLINE]
  }

  /** The lines that follow the first. */
  function AfterTree(parent: bytes, author: bytes, time: bytes, message: bytes): bytes {
    PARENT_WORD + parent + [NEWLINE] +
    (AUTHOR_WORD + Signed(author, time) + COMMITTER_WORD + Signed(author, time) + [NEWLINE] + message + [NEWLINE])
  }

  function TextOf(root: Oid, parent: bytes, author: bytes, time: bytes, message: bytes): bytes {
    TREE_WORD + Hex(root) + [NEWLINE] + AfterTree(parent, author, time, message)
  }

  // ---- reading

  /** `trim_start_matches`: the word is taken away as often as it stands in front. */
  function Without(line: bytes, word: bytes): bytes
    requires word != []
    decreases |line|
  {
    if word <= line then Without(line[|word|..], word) else line
  }

  /** The lines of a text end in a newline, or in a return and a newline. */
  function LineEnd(line: bytes): bytes {
    if line != [] && line[|line| - 1] == 13 then line[..|line| - 1] else line
  }

  /** What follows the word on the first line that starts with it. */
  function FirstField(text: bytes, word: bytes): Option<bytes>
    requires word != []
    decreases |text|
  {
    if text == [] then None
    else
      var i := IndexOf(text, NEWLINE);
      var line := LineEnd(text[..i]);
      if word <= line then Some(TrimSpace(Without(line, word)))
      else if i == |text| then None else FirstField(text[i + 1..], word)
  }

  // ---- what is written is read

  lemma {:induction false} HexPlain(oid: Oid)
    ensures forall b | b in Hex(oid) :: 48 <= b < 58 || 97 <= b < 103
    decreases |oid|
  {
    if oid != [] { HexPlain(oid[1..]); }
  }

  /** Different ids print differently. */
  lemma {:induction false} HexInjective(a: Oid, b: Oid)
    requires Hex(a) == Hex(b)
    ensures a == b
    decreases |a|
  {
    if a != [] && b != [] {
      var p, q := Hex(a), Hex(b);
      assert p[0] == HexDigit(a[0] / 16) && p[1] == HexDigit(a[0] % 16);
      assert q[0] == HexDigit(b[0] / 16) && q[1] == HexDigit(b[0] % 16);
      assert a[0] == a[0] / 16 * 16 + a[0] % 16 && b[0] == b[0] / 16 * 16 + b[0] % 16;
      assert p[2..] == Hex(a[1..]) && q[2..] == Hex(b[1..]);
      HexInjective(a[1..], b[1..]);
      assert a == [a[0]] + a[1..] && b == [b[0]] + b[1..];
    }
  }

  /** A value that is printed after a word: one line, not blank at its ends, and not starting
      with the word again. */
  predicate Plain(value: bytes, word: bytes) {
    && value != [] && NEWLINE !in value && !(word <= value)
    && !IsSpace(value[0]) && !IsSpace(value[|value| - 1])
  }

  lemma FieldHere(word: bytes, value: bytes, rest: bytes)
    requires word != [] && NEWLINE !in word && Plain(value, word)
    ensures FirstField(word + value + [NEWLINE] + rest, word) == Some(value)
  {
    var line := word + value;
    IndexOfPrefix(line, NEWLINE, rest);
    var text := line + [NEWLINE] + rest;
    assert text[..|line|] == line && line[|line| - 1] == value[|value| - 1];
    assert word <= line && line[|word|..] == value && LineEnd(line) == line;
    assert Without(value, word) == value && TrimSpace(value) == value;
    assert Without(line, word) == value;
  }

  lemma FieldLater(line: bytes, rest: bytes, word: bytes)
    requires word != [] && NEWLINE !in line && !(word <= LineEnd(line))
    ensures FirstField(line + [NEWLINE] + rest, word) == FirstField(rest, word)
  {
    IndexOfPrefix(line, NEWLINE, rest);
    var text := line + [NEWLINE] + rest;
    assert text[..|line|] == line && text[|line| + 1..] == rest;
  }

  lemma RootRead(root: Oid, rest: bytes)
    requires root != []
    ensures FirstField(TREE_WORD + Hex(root) + [NEWLINE] + rest, TREE_WORD) == Some(Hex(root))
    ensures FirstField(TREE_WORD + Hex(root) + [NEWLINE] + rest, PARENT_WORD) == FirstField(rest, PARENT_WORD)
  {
    var hex := Hex(root);
    HexPlain(root);
    assert hex[0] in hex && hex[|hex| - 1] in hex;
    FieldHere(TREE_WORD, hex, rest);
    var line := TREE_WORD + hex;
    assert line[0] == 116 && line[|line| - 1] == hex[|hex| - 1];
    FieldLater(line, rest, PARENT_WORD);
  }

  lemma ParentRead(parent: bytes, author: bytes, time: bytes, message: bytes)
    requires Plain(parent, PARENT_WORD)
    ensures FirstField(AfterTree(parent, author, time, message), PARENT_WORD) == Some(parent)
  {
    var rest := AUTHOR_WORD + Signed(author, time) + COMMITTER_WORD + Signed(author, time) +
      [NEWLINE] + message + [NEWLINE];
    FieldHere(PARENT_WORD, parent, rest);
  }

  /** From the commit that is written, the next server reads the root that was rebuilt; and its
      parent is the one that recovery named. */
  lemma CommitRead(root: Oid, parent: bytes, author: bytes, time: bytes, message: bytes)
    requires root != [] && Plain(parent, [112, 97, 114, 101, 110, 116, 32])
    ensures FirstField(TextOf(root, parent, author, time, message), [116, 114, 101, 101, 32]) == Some(Hex(root))
    ensures
      FirstField(TextOf(root, parent, author, time, message), [112, 97, 114, 101, 110, 116, 32]) == Some(parent)
  {
    RootRead(root, AfterTree(parent, author, time, message));
    ParentRead(parent, author, time, message);
  }
}
