/** Git deltas: copy and insert instructions over a base (src/git/pack.rs). */
module Delta {
  import opened Basics
  import opened Numbers

  datatype Instr = Copy(offset: nat, size: nat) | Insert(data: bytes)

  // ---- what a delta means

  predicate InBounds(base: bytes, i: Instr) {
    i.Copy? ==> i.offset + i.size <= |base|
  }

  function Denotes(base: bytes, i: Instr): bytes
    requires InBounds(base, i)
  {
    match i
    case Copy(offset, size) => base[offset..offset + size]
    case Insert(data) => data
  }

  /** The concatenation of what the instructions denote; None when one reads past the base. */
  function Run(base: bytes, code: seq<Instr>): Option<bytes> {
    if code == [] then Some([])
    else
      var last := code[|code| - 1];
      match Run(base, code[..|code| - 1])
      case None => None
      case Some(out) => if InBounds(base, last) then Some(out + Denotes(base, last)) else None
  }

  // ---- how instructions are written

  /** A value gathered from the bytes that an opcode's flags announce, and where they end. */
  datatype Cursor = Truncated | Cursor(value: nat, pos: nat)

  /** One optional byte: present when the flag `bit` of `op` is set, worth `unit`. */
  function Field(op: byte, bit: nat, unit: nat, d: bytes, c: Cursor): (r: Cursor)
    requires bit > 0
    ensures r.Cursor? ==> c.Cursor? && c.pos <= r.pos && (c.pos <= |d| ==> r.pos <= |d|)
  {
    if c.Truncated? || op / bit % 2 == 0 then c
    else if c.pos >= |d| then Truncated
    else Cursor(c.value + (d[c.pos] as int) * unit, c.pos + 1)
  }

  function CopyOffset(op: byte, d: bytes, pos: nat): Cursor {
    Field(op, 8, 0x100_0000, d, Field(op, 4, 0x1_0000, d, Field(op, 2, 256, d, Field(op, 1, 1, d, Cursor(0, pos)))))
  }

  function CopySize(op: byte, d: bytes, pos: nat): Cursor {
    Field(op, 64, 0x1_0000, d, Field(op, 32, 256, d, Field(op, 16, 1, d, Cursor(0, pos))))
  }

  /** The instruction at `pos` and the position after it. A copy of size 0 means 65536. */
  function ReadInstr(d: bytes, pos: nat): (r: Option<(Instr, nat)>)
    requires pos < |d|
    ensures r.Some? ==> pos < r.value.1 <= |d|
  {
    var op := d[pos];
    if op >= 128 then
      var off := CopyOffset(op, d, pos + 1);
      if off.Truncated? then None
      else
        var size := CopySize(op, d, off.pos);
        if size.Truncated? then None
        else Some((Copy(off.value, if size.value == 0 then 0x1_0000 else size.value), size.pos))
    else if op > 0 then
      if pos + 1 + op > |d| then None else Some((Insert(d[pos + 1..pos + 1 + op]), pos + 1 + op))
    else None
  }

  function ReadInstrs(d: bytes, pos: nat): Option<seq<Instr>>
    requires pos <= |d|
    decreases |d| - pos
  {
    if pos == |d| then Some([])
    else
      match ReadInstr(d, pos)
      case None => None
      case Some((i, next)) =>
        match ReadInstrs(d, next)
        case None => None
        case Some(code) => Some([i] + code)
  }

  /** The declared result length and where the instructions start. The declared base length
      is read but not compared with the base. */
  function ReadHeader(d: bytes): (r: Option<(nat, nat)>)
    ensures r.Some? ==> r.value.1 <= |d|
  {
    match Varint(d)
    case None => None
    case Some((_, n)) =>
      match Varint(d[n..])
      case None => None
      case Some((len, m)) => Some((len, n + m))
  }

  /** The result of a delta: what its instructions denote, if that has the declared length. */
  function Apply(base: bytes, d: bytes): Option<bytes> {
    match ReadHeader(d)
    case None => None
    case Some((len, pos)) =>
      match ReadInstrs(d, pos)
      case None => None
      case Some(code) =>
        match Run(base, code)
        case None => None
        case Some(out) => if |out| == len then Some(out) else None
  }

  // ---- applying as it runs

  /** Instructions that fail stay failed, whatever follows. */
  lemma {:induction false} RunFails(base: bytes, code: seq<Instr>, more: seq<Instr>)
    requires Run(base, code).None?
    ensures Run(base, code + more).None?
    decreases |more|
  {
    if more == [] {
      assert code + more == code;
    } else {
      RunFails(base, code, more[..|more| - 1]);
      assert (code + more)[..|code + more| - 1] == code + more[..|more| - 1];
    }
  }

  /** What is left to do after `done` has produced `out`. */
  function Rest(base: bytes, done: seq<Instr>, d: bytes, pos: nat): Option<bytes>
    requires pos <= |d|
  {
    match ReadInstrs(d, pos)
    case None => None
    case Some(code) => Run(base, done + code)
  }

  lemma RestStep(base: bytes, done: seq<Instr>, d: bytes, pos: nat)
    requires pos < |d|
    ensures match ReadInstr(d, pos)
            case None => Rest(base, done, d, pos) == None
            case Some((i, next)) => Rest(base, done, d, pos) == Rest(base, done + [i], d, next)
  {
    var r := ReadInstr(d, pos);
    if r.Some? && ReadInstrs(d, r.value.1).Some? {
      var code := ReadInstrs(d, r.value.1).value;
      assert done + ([r.value.0] + code) == done + [r.value.0] + code;
    }
  }

  /** One optional byte, as the source tests and reads it. */
  method ReadField(op: byte, bit: nat, unit: nat, d: bytes, c: Cursor) returns (r: Cursor)
    requires bit > 0
    ensures r == Field(op, bit, unit, d, c)
  {
    if c.Truncated? || op / bit % 2 == 0 { return c; }
    if c.pos >= |d| { return Truncated; }
    return Cursor(c.value + (d[c.pos] as int) * unit, c.pos + 1);
  }

  /** The copy instruction whose opcode stands at `start`, appended to nothing yet. */
  method ReadCopy(d: bytes, start: nat) returns (r: Option<(Instr, nat)>)
    requires start < |d| && d[start] >= 128
    ensures r == ReadInstr(d, start)
  {
    var op := d[start];
    var c := ReadField(op, 1, 1, d, Cursor(0, start + 1));
    c := ReadField(op, 2, 256, d, c);
    c := ReadField(op, 4, 0x1_0000, d, c);
    c := ReadField(op, 8, 0x100_0000, d, c);
    if c.Truncated? { return None; }
    var offset := c.value;
    c := ReadField(op, 16, 1, d, Cursor(0, c.pos));
    c := ReadField(op, 32, 256, d, c);
    c := ReadField(op, 64, 0x1_0000, d, c);
    if c.Truncated? { return None; }
    var size := c.value;
    if size == 0 { size := 0x1_0000; }
    return Some((Copy(offset, size), c.pos));
  }

  /** The instruction loop. */
  method RunInstrs(base: bytes, delta: bytes, start: nat) returns (r: Option<bytes>)
    requires start <= |delta|
    ensures r == Rest(base, [], delta, start)
  {
    var pos := start;
    var out: bytes := [];
    ghost var done: seq<Instr> := [];
    while pos < |delta|
      invariant start <= pos <= |delta|
      invariant Run(base, done) == Some(out)
      invariant Rest(base, [], delta, start) == Rest(base, done, delta, pos)
      decreases |delta| - pos
    {
      var op := delta[pos];
      RestStep(base, done, delta, pos);
      if op >= 128 {
        var c := ReadCopy(delta, pos);
        if c.None? { return None; }
        var copy := c.value.0;
        Extend(base, done, copy);
        if copy.offset + copy.size > |base| {
          Stuck(base, done + [copy], delta, c.value.1);
          return None;
        }
        out := out + base[copy.offset..copy.offset + copy.size];
        done, pos := done + [copy], c.value.1;
      } else if op > 0 {
        if pos + 1 + op > |delta| { return None; }
        Extend(base, done, Insert(delta[pos + 1..pos + 1 + op]));
        out := out + delta[pos + 1..pos + 1 + op];
        done, pos := done + [Insert(delta[pos + 1..pos + 1 + op])], pos + 1 + op;
      } else {
        return None;
      }
    }
    assert done + [] == done;
    return Some(out);
  }

  lemma RestOfNothing(base: bytes, d: bytes, pos: nat)
    requires pos <= |d|
    ensures Rest(base, [], d, pos) == match ReadInstrs(d, pos) case None => None case Some(code) => Run(base, code)
  {
    if ReadInstrs(d, pos).Some? { assert [] + ReadInstrs(d, pos).value == ReadInstrs(d, pos).value; }
  }

  method ApplyGitDelta(base: bytes, delta: bytes) returns (r: Option<bytes>)
    ensures r == Apply(base, delta)
  {
    assert delta[0..] == delta;
    var baseLen := DecodeVarint(delta, 0);
    if baseLen.None? { return None; }
    var resLen := DecodeVarint(delta, baseLen.value.1);
    if resLen.None? { return None; }
    assert ReadHeader(delta) == Some(resLen.value);
    RestOfNothing(base, delta, resLen.value.1);
    var out := RunInstrs(base, delta, resLen.value.1);
    if out.None? || |out.value| != resLen.value.0 { return None; }
    return out;
  }

  lemma Extend(base: bytes, done: seq<Instr>, i: Instr)
    ensures Run(base, done + [i]) ==
      match Run(base, done)
      case None => None
      case Some(out) => if InBounds(base, i) then Some(out + Denotes(base, i)) else None
  {
    assert (done + [i])[..|done|] == done;
  }

  lemma Stuck(base: bytes, done: seq<Instr>, d: bytes, pos: nat)
    requires pos <= |d| && Run(base, done).None?
    ensures Rest(base, done, d, pos).None?
  {
    if ReadInstrs(d, pos).Some? { RunFails(base, done, ReadInstrs(d, pos).value); }
  }

  // ---- encoding

  predicate Encodable(i: Instr) {
    match i
    case Copy(offset, size) => offset < TWO_32 && 0 < size < 0x100_0000
    case Insert(data) => 0 < |data| < 128
  }

  function Flag(b: byte): nat { if b == 0 then 0 else 1 }

  function Present(b: byte): bytes { if b == 0 then [] else [b] }

  /** The bytes of a copy's offset and size, lowest first. */
  function OffsetByte(n: nat, k: nat): byte
    requires k < 4
  {
    if k == 0 then n % 256 else if k == 1 then n / 256 % 256
    else if k == 2 then n / 0x1_0000 % 256 else n / 0x100_0000 % 256
  }

  function CopyOp(offset: nat, size: nat): byte {
    128 + Flag(OffsetByte(offset, 0)) + 2 * Flag(OffsetByte(offset, 1)) + 4 * Flag(OffsetByte(offset, 2))
    + 8 * Flag(OffsetByte(offset, 3)) + 16 * Flag(OffsetByte(size, 0)) + 32 * Flag(OffsetByte(size, 1))
    + 64 * Flag(OffsetByte(size, 2))
  }

  function EncodeInstr(i: Instr): (r: bytes)
    requires Encodable(i)
    ensures |r| > 0
  {
    match i
    case Copy(offset, size) =>
      [CopyOp(offset, size)]
      + Present(OffsetByte(offset, 0)) + Present(OffsetByte(offset, 1))
      + Present(OffsetByte(offset, 2)) + Present(OffsetByte(offset, 3))
      + Present(OffsetByte(size, 0)) + Present(OffsetByte(size, 1)) + Present(OffsetByte(size, 2))
    case Insert(data) => [|data|] + data
  }

  function EncodeInstrs(code: seq<Instr>): bytes
    requires forall i | i in code :: Encodable(i)
  {
    if code == [] then [] else EncodeInstr(code[0]) + EncodeInstrs(code[1..])
  }

  function EncodeDelta(baseLen: nat, resLen: nat, code: seq<Instr>): bytes
    requires forall i | i in code :: Encodable(i)
  {
    EncodeVarint(baseLen) + EncodeVarint(resLen) + EncodeInstrs(code)
  }

  lemma OpBits(b0: nat, b1: nat, b2: nat, b3: nat, b4: nat, b5: nat, b6: nat)
    requires b0 < 2 && b1 < 2 && b2 < 2 && b3 < 2 && b4 < 2 && b5 < 2 && b6 < 2
    ensures var op := 128 + b0 + 2 * b1 + 4 * b2 + 8 * b3 + 16 * b4 + 32 * b5 + 64 * b6;
      && op / 1 % 2 == b0 && op / 2 % 2 == b1 && op / 4 % 2 == b2 && op / 8 % 2 == b3
      && op / 16 % 2 == b4 && op / 32 % 2 == b5 && op / 64 % 2 == b6
  {
    var o1 := 64 + b1 + 2 * b2 + 4 * b3 + 8 * b4 + 16 * b5 + 32 * b6;
    var o2 := 32 + b2 + 2 * b3 + 4 * b4 + 8 * b5 + 16 * b6;
    var o3 := 16 + b3 + 2 * b4 + 4 * b5 + 8 * b6;
    var o4 := 8 + b4 + 2 * b5 + 4 * b6;
    var o5 := 4 + b5 + 2 * b6;
    var op := b0 + 2 * o1;
    assert op / 2 == o1 && op / 4 == o2 && op / 8 == o3 && op / 16 == o4 && op / 32 == o5 && op / 64 == 2 + b6;
  }

  /** Reading a field that was written: the byte itself when present, zero when not. */
  lemma FieldReads(op: byte, bit: nat, unit: nat, front: bytes, b: byte, rest: bytes, value: nat)
    requires bit > 0 && op / bit % 2 == Flag(b)
    ensures Field(op, bit, unit, front + Present(b) + rest, Cursor(value, |front|))
            == Cursor(value + (b as int) * unit, |front| + |Present(b)|)
  {
    if b != 0 { assert (front + Present(b) + rest)[|front|] == b; }
  }

  lemma CopyOffsetReads(op: byte, front: bytes, b0: byte, b1: byte, b2: byte, b3: byte, rest: bytes)
    requires op / 1 % 2 == Flag(b0) && op / 2 % 2 == Flag(b1) && op / 4 % 2 == Flag(b2) && op / 8 % 2 == Flag(b3)
    ensures CopyOffset(op, front + Present(b0) + Present(b1) + Present(b2) + Present(b3) + rest, |front|)
            == Cursor((b0 as int) + (b1 as int) * 256 + (b2 as int) * 0x1_0000 + (b3 as int) * 0x100_0000,
                      |front + Present(b0) + Present(b1) + Present(b2) + Present(b3)|)
  {
    var d := front + Present(b0) + Present(b1) + Present(b2) + Present(b3) + rest;
    var f1, f2, f3 := front + Present(b0), front + Present(b0) + Present(b1), front + Present(b0) + Present(b1) +
      Present(b2);
    assert d == front + Present(b0) + (Present(b1) + Present(b2) + Present(b3) + rest);
    FieldReads(op, 1, 1, front, b0, Present(b1) + Present(b2) + Present(b3) + rest, 0);
    assert d == f1 + Present(b1) + (Present(b2) + Present(b3) + rest);
    FieldReads(op, 2, 256, f1, b1, Present(b2) + Present(b3) + rest, b0);
    assert d == f2 + Present(b2) + (Present(b3) + rest);
    FieldReads(op, 4, 0x1_0000, f2, b2, Present(b3) + rest, (b0 as int) + (b1 as int) * 256);
    FieldReads(op, 8, 0x100_0000, f3, b3, rest, (b0 as int) + (b1 as int) * 256 + (b2 as int) * 0x1_0000);
  }

  lemma CopySizeReads(op: byte, front: bytes, b0: byte, b1: byte, b2: byte, rest: bytes)
    requires op / 16 % 2 == Flag(b0) && op / 32 % 2 == Flag(b1) && op / 64 % 2 == Flag(b2)
    ensures CopySize(op, front + Present(b0) + Present(b1) + Present(b2) + rest, |front|)
            == Cursor((b0 as int) + (b1 as int) * 256 + (b2 as int) * 0x1_0000,
                      |front + Present(b0) + Present(b1) + Present(b2)|)
  {
    var d := front + Present(b0) + Present(b1) + Present(b2) + rest;
    var f1, f2 := front + Present(b0), front + Present(b0) + Present(b1);
    assert d == front + Present(b0) + (Present(b1) + Present(b2) + rest);
    FieldReads(op, 16, 1, front, b0, Present(b1) + Present(b2) + rest, 0);
    assert d == f1 + Present(b1) + (Present(b2) + rest);
    FieldReads(op, 32, 256, f1, b1, Present(b2) + rest, b0);
    FieldReads(op, 64, 0x1_0000, f2, b2, rest, (b0 as int) + (b1 as int) * 256);
  }

  lemma OffsetBytes(n: nat)
    ensures n < TWO_32 ==> n == (OffsetByte(n, 0) as int) + (OffsetByte(n, 1) as int) * 256
                              + (OffsetByte(n, 2) as int) * 0x1_0000 + (OffsetByte(n, 3) as int) * 0x100_0000
    ensures n < 0x100_0000 ==> OffsetByte(n, 3) == 0
  {
    var a := n / 256;
    var b := a / 256;
    assert n / 0x1_0000 == b && n / 0x100_0000 == b / 256;
  }

  /** Reading the encoding of an instruction gives it back and stops at its end. */
  lemma InstrReads(front: bytes, i: Instr, rest: bytes)
    requires Encodable(i)
    ensures ReadInstr(front + EncodeInstr(i) + rest, |front|) == Some((i, |front + EncodeInstr(i)|))
  {
    var d := front + EncodeInstr(i) + rest;
    match i
    case Insert(data) =>
      assert d[|front|] == |data|;
      assert d[|front| + 1..|front| + 1 + |data|] == data;
    case Copy(offset, size) =>
      CopyReads(front, offset, size, rest);
  }

  lemma CopyReads(front: bytes, offset: nat, size: nat, rest: bytes)
    requires Encodable(Copy(offset, size))
    ensures ReadInstr(front + EncodeInstr(Copy(offset, size)) + rest, |front|)
            == Some((Copy(offset, size), |front + EncodeInstr(Copy(offset, size))|))
  {
    var op := CopyOp(offset, size);
    var o0, o1, o2, o3 := OffsetByte(offset, 0), OffsetByte(offset, 1), OffsetByte(offset, 2), OffsetByte(offset, 3);
    var s0, s1, s2 := OffsetByte(size, 0), OffsetByte(size, 1), OffsetByte(size, 2);
    OpBits(Flag(o0), Flag(o1), Flag(o2), Flag(o3), Flag(s0), Flag(s1), Flag(s2));
    OffsetBytes(offset);
    OffsetBytes(size);
    Regroup(front, [op], Present(o0), Present(o1), Present(o2), Present(o3), Present(s0), Present(s1), Present(s2),
      rest);
    CopyFieldsRead(front, op, o0, o1, o2, o3, s0, s1, s2, rest);
  }

  lemma CopyFieldsRead(front: bytes, op: byte, o0: byte, o1: byte, o2: byte, o3: byte, s0: byte, s1: byte, s2: byte,
                       rest: bytes)
    requires op / 1 % 2 == Flag(o0) && op / 2 % 2 == Flag(o1) && op / 4 % 2 == Flag(o2) && op / 8 % 2 == Flag(o3)
    requires op / 16 % 2 == Flag(s0) && op / 32 % 2 == Flag(s1) && op / 64 % 2 == Flag(s2) && op >= 128
    ensures var offset := (o0 as int) + (o1 as int) * 256 + (o2 as int) * 0x1_0000 + (o3 as int) * 0x100_0000;
      var size := (s0 as int) + (s1 as int) * 256 + (s2 as int) * 0x1_0000;
      var head := front + [op] + Present(o0) + Present(o1) + Present(o2) + Present(o3) + Present(s0) + Present(s1) +
        Present(s2);
      ReadInstr(head + rest, |front|) == Some((Copy(offset, if size == 0 then 0x1_0000 else size), |head|))
  {
    Regroup(front, [op], Present(o0), Present(o1), Present(o2), Present(o3), Present(s0), Present(s1), Present(s2),
      rest);
    CopyOffsetReads(op, front + [op], o0, o1, o2, o3, Present(s0) + Present(s1) + Present(s2) + rest);
    CopySizeReads(op, front + [op] + Present(o0) + Present(o1) + Present(o2) + Present(o3), s0, s1, s2, rest);
  }

  lemma Regroup(front: bytes, a: bytes, b: bytes, c: bytes, d: bytes, e: bytes, f: bytes, g: bytes, h: bytes,
                rest: bytes)
    ensures front + (a + b + c + d + e + f + g + h) + rest == front + a + b + c + d + e + f + g + h + rest
    ensures front + (a + b + c + d + e + f + g + h) == front + a + b + c + d + e + f + g + h
    ensures front + a + b + c + d + e + f + g + h + rest == front + a + b + c + d + e + (f + g + h + rest)
    ensures a != [] ==> (front + a + b + c + d + e + f + g + h + rest)[|front|] == a[0]
  {
  }

  lemma {:induction false} InstrsRead(front: bytes, code: seq<Instr>)
    requires forall i | i in code :: Encodable(i)
    ensures ReadInstrs(front + EncodeInstrs(code), |front|) == Some(code)
    decreases |code|
  {
    if code == [] {
      assert front + [] == front;
    } else {
      assert code[0] in code && forall i | i in code[1..] :: i in code;
      var f := front + EncodeInstr(code[0]);
      assert front + EncodeInstrs(code) == f + EncodeInstrs(code[1..]);
      InstrReads(front, code[0], EncodeInstrs(code[1..]));
      InstrsRead(f, code[1..]);
      InstrsCons(front + EncodeInstrs(code), |front|, code, |f|);
    }
  }

  lemma InstrsCons(d: bytes, pos: nat, code: seq<Instr>, next: nat)
    requires pos < |d| && code != [] && ReadInstr(d, pos) == Some((code[0], next))
    requires next <= |d| && ReadInstrs(d, next) == Some(code[1..])
    ensures ReadInstrs(d, pos) == Some(code)
  {
    assert [code[0]] + code[1..] == code;
  }

  /** Encoding instructions and applying the delta gives what they denote. */
  lemma EncodedApplies(base: bytes, code: seq<Instr>)
    requires forall i | i in code :: Encodable(i)
    ensures match Run(base, code)
            case None => forall len: nat :: Apply(base, EncodeDelta(|base|, len, code)) == None
            case Some(out) => forall len: nat ::
              Apply(base, EncodeDelta(|base|, len, code)) == if len == |out| then Some(out) else None
  {
    forall len: nat
      ensures Apply(base, EncodeDelta(|base|, len, code)) ==
        match Run(base, code) case None => None case Some(out) => if |out| == len then Some(out) else None
    {
      HeaderReads(|base|, len, EncodeInstrs(code));
      InstrsRead(EncodeVarint(|base|) + EncodeVarint(len), code);
    }
  }

  lemma HeaderReads(baseLen: nat, len: nat, rest: bytes)
    ensures ReadHeader(EncodeVarint(baseLen) + EncodeVarint(len) + rest)
            == Some((len, |EncodeVarint(baseLen) + EncodeVarint(len)|))
  {
    var a, b := EncodeVarint(baseLen), EncodeVarint(len);
    VarintRoundTrip(baseLen, b + rest);
    VarintRoundTrip(len, rest);
    TwoVarints(a, b, rest, baseLen, len);
  }

  lemma TwoVarints(a: bytes, b: bytes, rest: bytes, v: nat, len: nat)
    requires Varint(a + (b + rest)) == Some((v, |a|)) && Varint(b + rest) == Some((len, |b|))
    ensures ReadHeader(a + b + rest) == Some((len, |a + b|))
  {
    assert a + b + rest == a + (b + rest);
    assert (a + b + rest)[|a|..] == b + rest;
  }
}
