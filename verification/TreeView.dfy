/** The tree of paths a file system shows, and what each logged change makes of it. */
module TreeView {
  import opened Basics
  import opened Paths
  import opened GitData

  /** What a reader sees at a path. `None` content: a blob that Git cannot supply. */
  datatype Entry = Dir | File(mode: TreeEntryMode, content: Option<bytes>)

  type View = imap<Path, Entry>

  // ---- file contents

  function Zeros(n: nat): (z: bytes)
    ensures |z| == n && forall i | 0 <= i < n :: z[i] == 0
  {
    seq(n, _ => 0)
  }

  /** Seek and write: a gap is filled with zeros, and writing nothing changes nothing. */
  function Overwrite(content: bytes, offset: nat, data: bytes): (r: bytes)
    ensures data != [] ==>
      && |r| == Max(|content|, offset + |data|)
      && r[offset..offset + |data|] == data
      && (forall i | 0 <= i < |r| && !(offset <= i < offset + |data|) ::
            r[i] == if i < |content| then content[i] else 0)
    ensures data == [] ==> r == content
  {
    if data == [] then content
    else if offset > |content| then content + Zeros(offset - |content|) + data
    else content[..offset] + data + (if offset + |data| < |content| then content[offset + |data|..] else [])
  }

  /** `set_len`: cut, or extend with zeros. */
  function Resized(content: bytes, n: nat): (r: bytes)
    ensures |r| == n
    ensures forall i | 0 <= i < n :: r[i] == if i < |content| then content[i] else 0
  {
    if n <= |content| then content[..n] else content + Zeros(n - |content|)
  }

  // ---- changes

  datatype Change =
    | Create(path: Path)
    | MakeDir(path: Path)
    | Write(path: Path, offset: nat, data: bytes)
    | Resize(path: Path, size: nat)
    | Delete(path: Path)
    | Move(path: Path, to: Path)

  ghost predicate IsDir(v: View, p: Path) { p in v && v[p].Dir? }

  ghost predicate IsFile(v: View, p: Path) { p in v && v[p].File? }

  /** `p` can be the name of a child: its parent is a directory. */
  ghost predicate HasPlace(v: View, p: Path) {
    p != [] && GoodPath(p) && IsDir(v, p[..|p| - 1])
  }

  /** The change can be made where it is logged. A directory is made on a free name, and a
      rename goes neither onto itself nor into its own subtree. */
  ghost predicate Applicable(v: View, c: Change) {
    match c
    case Create(p) => HasPlace(v, p)
    case MakeDir(p) => HasPlace(v, p) && p !in v
    case Write(p, _, _) => GoodPath(p) && IsFile(v, p)
    case Resize(p, _) => GoodPath(p) && IsFile(v, p)
    case Delete(p) => p != [] && GoodPath(p) && p in v
    case Move(p, to) => p != [] && GoodPath(p) && p in v && HasPlace(v, to) && !(p <= to)
  }

  /** Creating over a file empties it and keeps its mode; over a directory it does nothing. */
  ghost function Created(v: View, p: Path): View {
    if IsDir(v, p) then v
    else v[p := File(if p in v then v[p].mode else RegularFile, Some([]))]
  }

  ghost function Put(v: View, p: Path, content: bytes): View
    requires IsFile(v, p)
  {
    v[p := File(v[p].mode, Some(content))]
  }

  /** `p` and everything below it is gone. */
  ghost function Deleted(v: View, p: Path): View {
    imap q: Path | q in v && !(p <= q) :: v[q]
  }

  /** The subtree at `p` replaces whatever was at `to`. */
  ghost function Moved(v: View, p: Path, to: Path): View {
    imap q: Path | (if to <= q then p + q[|to|..] in v else q in v && !(p <= q)) ::
      if to <= q then v[p + q[|to|..]] else v[q]
  }

  ghost function Apply(v: View, c: Change): View
    requires Applicable(v, c)
  {
    match c
    case Create(p) => Created(v, p)
    case MakeDir(p) => v[p := Dir]
    case Write(p, offset, data) => Put(v, p, Overwrite(v[p].content.GetOr([]), offset, data))
    case Resize(p, size) => Put(v, p, Resized(v[p].content.GetOr([]), size))
    case Delete(p) => Deleted(v, p)
    case Move(p, to) => Moved(v, p, to)
  }

  ghost predicate AllApplicable(v: View, cs: seq<Change>)
    decreases |cs|
  {
    cs == [] || (Applicable(v, cs[0]) && AllApplicable(Apply(v, cs[0]), cs[1..]))
  }

  ghost function ApplyAll(v: View, cs: seq<Change>): View
    requires AllApplicable(v, cs)
    decreases |cs|
  {
    if cs == [] then v else ApplyAll(Apply(v, cs[0]), cs[1..])
  }

  lemma ApplyNone(v: View, cs: seq<Change>)
    requires cs == []
    ensures AllApplicable(v, cs) && ApplyAll(v, cs) == v
  {
  }

  lemma {:induction false} ApplyAllSnoc(v: View, cs: seq<Change>, c: Change)
    requires AllApplicable(v, cs) && Applicable(ApplyAll(v, cs), c)
    ensures AllApplicable(v, cs + [c])
    ensures ApplyAll(v, cs + [c]) == Apply(ApplyAll(v, cs), c)
    decreases |cs|
  {
    if cs == [] {
      assert (cs + [c])[1..] == [];
    } else {
      assert (cs + [c])[1..] == cs[1..] + [c];
      ApplyAllSnoc(Apply(v, cs[0]), cs[1..], c);
    }
  }
}
