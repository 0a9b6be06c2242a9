/** The entries of the write-ahead log (src/wal/proto.rs). */
module Wal {
  import opened Basics
  import opened Paths
  import opened GitData
  import opened TreeView

  datatype InodeType = FileInode | DirectoryInode | SymlinkInode | ExecutableInode

  datatype Payload =
    | Header(baseCommit: Oid, author: bytes, message: bytes, walSeq: nat)
    | CreateEntry(path: bytes, kind: InodeType)
    | MkdirEntry(path: bytes)
    | WriteEntry(path: bytes, offset: nat, data: bytes)
    | TruncateEntry(path: bytes, size: nat)
    | RemoveEntry(path: bytes)
    | RenameEntry(fromPath: bytes, toPath: bytes)

  datatype WalEntry = WalEntry(number: nat, payload: Option<Payload>)

  /** How a change of the tree of paths is logged. */
  function Printed(c: Change): Payload {
    match c
    case Create(p) => CreateEntry(Join(p), FileInode)
    case MakeDir(p) => MkdirEntry(Join(p))
    case Write(p, offset, data) => WriteEntry(Join(p), offset, data)
    case Resize(p, size) => TruncateEntry(Join(p), size)
    case Delete(p) => RemoveEntry(Join(p))
    case Move(p, to) => RenameEntry(Join(p), Join(to))
  }

  /** `log` records the changes `cs` in order, possibly among headers and empty entries. */
  ghost predicate Records(log: seq<WalEntry>, cs: seq<Change>)
    decreases |log|
  {
    if log == [] then cs == []
    else
      var last := log[|log| - 1].payload;
      if last.None? || last.value.Header? then Records(log[..|log| - 1], cs)
      else cs != [] && last.value == Printed(cs[|cs| - 1]) && Records(log[..|log| - 1], cs[..|cs| - 1])
  }

  lemma RecordsSnoc(log: seq<WalEntry>, cs: seq<Change>, seqNo: nat, c: Change)
    requires Records(log, cs)
    ensures Records(log + [WalEntry(seqNo, Some(Printed(c)))], cs + [c])
  {
    var log2 := log + [WalEntry(seqNo, Some(Printed(c)))];
    assert log2[..|log2| - 1] == log;
    assert (cs + [c])[..|cs|] == cs;
  }
}
