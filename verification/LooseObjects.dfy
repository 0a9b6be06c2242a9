/** A loose object, once inflated: its type, its length in digits, a NUL, and its bytes
    (src/git/gcs_storage.rs, `read_object_raw`). */
module LooseObjects {
  import opened Basics
  import opened PackFormat

  /** The words that the header may start with, each with the space that follows it. */
  const COMMIT_WORD: bytes := [99, 111, 109, 109, 105, 116, 32]
  const TREE_WORD: bytes := [116, 114, 101, 101, 32]
  const BLOB_WORD: bytes := [98, 108, 111, 98, 32]
  const TAG_WORD: bytes := [116, 97, 103, 32]

  function KindIn(header: bytes): Option<Kind> {
    if COMMIT_WORD <= header then Some(CommitKind)
    else if TREE_WORD <= header then Some(TreeKind)
    else if BLOB_WORD <= header then Some(BlobKind)
    else if TAG_WORD <= header then Some(TagKind)
    else None
  }

  /** The object, or nothing where the NUL or a known type is missing. The length is not
      compared. */
  function ParseLoose(d: bytes): Option<Obj> {
    var i := IndexOf(d, 0);
    if i == |d| then None
    else
      match KindIn(d[..i])
      case None => None
      case Some(kind) => Some(Obj(kind, d[i + 1..]))
  }

  /** What the loose files hold, inflated, as objects. */
  function LooseFrom(files: Oid -> Option<bytes>): Oid -> Option<Obj> {
    oid => match files(oid) case None => None case Some(d) => ParseLoose(d)
  }

  /** The header starts with the type's name and a space. */
  predicate Names(header: bytes, kind: Kind) {
    match kind
    case CommitKind => |header| >= 7 && header[..7] == [99, 111, 109, 109, 105, 116, 32]
    case TreeKind => |header| >= 5 && header[..5] == [116, 114, 101, 101, 32]
    case BlobKind => |header| >= 5 && header[..5] == [98, 108, 111, 98, 32]
    case TagKind => |header| >= 4 && header[..4] == [116, 97, 103, 32]
  }

  lemma KindIsNamed(header: bytes, kind: Kind)
    ensures KindIn(header) == Some(kind) <==> Names(header, kind)
  {
    if COMMIT_WORD <= header { assert header[0] == 99; }
    if TREE_WORD <= header { assert header[0] == 116 && header[1] == 114; }
    if BLOB_WORD <= header { assert header[0] == 98; }
    if TAG_WORD <= header { assert header[0] == 116 && header[1] == 97; }
    if Names(header, kind) {
      if kind.CommitKind? { assert header[0] == header[..7][0]; }
      else if kind.TreeKind? { assert header[0] == header[..5][0] && header[1] == header[..5][1]; }
      else if kind.BlobKind? { assert header[0] == header[..5][0]; }
      else { assert header[0] == header[..4][0] && header[1] == header[..4][1]; }
    }
  }

  lemma ParseSplit(header: bytes, data: bytes)
    requires 0 !in header
    ensures ParseLoose(header + [0] + data) ==
      match KindIn(header) case None => None case Some(kind) => Some(Obj(kind, data))
  {
    var d := header + [0] + data;
    IndexOfPrefix(header, 0, data);
    assert d[..|header|] == header && d[|header| + 1..] == data;
  }

  ghost predicate Splits(d: bytes, header: bytes, data: bytes) {
    d == header + [0] + data && 0 !in header
  }

  /** Which object a text is read as: the bytes after its first NUL, under the type whose name and
      a space it starts with. */
  lemma LooseExactly(d: bytes, o: Obj)
    ensures ParseLoose(d) == Some(o) <==> exists header :: Splits(d, header, o.data) && Names(header, o.kind)
  {
    var i := IndexOf(d, 0);
    if i < |d| {
      assert d == d[..i] + [0] + d[i + 1..];
      KindIsNamed(d[..i], o.kind);
      assert ParseLoose(d) == Some(o) ==> Splits(d, d[..i], o.data);
    }
    forall header | Splits(d, header, o.data) && Names(header, o.kind) ensures ParseLoose(d) == Some(o) {
      ParseSplit(header, o.data);
      KindIsNamed(header, o.kind);
    }
  }
}
