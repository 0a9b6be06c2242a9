/** The copy-on-write overlay of file contents (src/staging/mod.rs). */
module Staging {
  import opened Basics
  import opened Paths
  import opened TreeView

  /** `sizes` is `staged_nodes`; `files` is what lies in the staging directory, by inode. */
  datatype Staging = Staging(
    sizes: map<nat, nat>,
    files: map<nat, bytes>,
    deleted: set<nat>,
    changed: set<bytes>
  )

  const EMPTY := Staging(map[], map[], {}, {})

  /** Each staged inode has a file of the recorded size, and no file is left over. */
  ghost predicate StagingOk(st: Staging) {
    st.sizes.Keys == st.files.Keys && forall id | id in st.sizes :: st.sizes[id] == |st.files[id]|
  }

  predicate IsStaged(st: Staging, id: nat) { id in st.sizes }

  function StageNew(st: Staging, id: nat): Staging {
    st.(files := st.files[id := []], sizes := st.sizes[id := 0])
  }

  /** The file a write or truncate starts from: the staged one, or the base it brings along. */
  function StartFrom(st: Staging, id: nat, initial: Option<bytes>): bytes {
    if id in st.files then st.files[id] else initial.GetOr([])
  }

  function WriteAt(st: Staging, id: nat, offset: nat, data: bytes, initial: Option<bytes>): Staging {
    var content := Overwrite(StartFrom(st, id, initial), offset, data);
    st.(files := st.files[id := content], sizes := st.sizes[id := |content|])
  }

  function Truncate(st: Staging, id: nat, size: nat, initial: Option<bytes>): Staging {
    st.(files := st.files[id := Resized(StartFrom(st, id, initial), size)], sizes := st.sizes[id := size])
  }

  function MarkDeleted(st: Staging, id: nat): Staging {
    st.(deleted := st.deleted + {id})
  }

  /** The bytes [offset, offset + count) of `content`, and whether they reach its end. */
  function Slice(content: bytes, offset: nat, count: nat): (r: (bytes, bool))
    ensures r.0 == content[Min(offset, |content|)..Min(offset + count, |content|)]
    ensures r.1 <==> offset + count >= |content|
  {
    if offset >= |content| then ([], true)
    else
      var n := Min(count, |content| - offset);
      (content[offset..offset + n], offset + n >= |content|)
  }

  function ReadAt(st: Staging, id: nat, offset: nat, count: nat): Option<(bytes, bool)> {
    if !IsStaged(st, id) || id !in st.files then None else Some(Slice(st.files[id], offset, count))
  }

  predicate IsSpace(b: byte) { b == 32 || 9 <= b <= 13 }

  function TrimSpace(s: bytes): bytes {
    if s != [] && IsSpace(s[0]) then TrimSpace(s[1..])
    else if s != [] && IsSpace(s[|s| - 1]) then TrimSpace(s[..|s| - 1])
    else s
  }

  function Record(st: Staging, path: bytes): Staging {
    var clean := Trim(TrimSpace(path));
    if clean == [] then st else st.(changed := st.changed + {clean})
  }

  predicate HasModifications(st: Staging) {
    st.sizes != map[] || st.deleted != {} || st.changed != {}
  }
}
