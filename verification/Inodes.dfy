/** The inode graph of src/vfs/inode.rs as a value, and what each operation of `VfsManager`
    makes of it. The class in VfsManager.dfy is proved against these functions; what they
    mean for the tree of paths is proved in VfsOperations.dfy and VfsChanges.dfy. */
module Inodes {
  import opened Basics
  import opened Paths
  import opened GitData

  const ROOT: nat := 1

  datatype Node = Node(
    parent: nat,
    name: Name,
    oid: Oid,
    mode: TreeEntryMode,
    isDir: bool,
    deleted: bool
  )

  /** The four tables of `VfsManager`. */
  datatype Vfs = Vfs(
    nodes: map<nat, Node>,
    childMap: map<(nat, Name), nat>,
    dirChildren: map<nat, seq<nat>>,
    next: nat
  )

  function Unpopulated(rootOid: Oid): Vfs {
    Vfs(map[ROOT := Node(ROOT, [SLASH], rootOid, Directory, true, false)], map[], map[], 2)
  }

  // ---- lazy population

  /** What the loop of `ensure_dir_populated` collects before it writes the tables. */
  datatype Batch = Batch(
    nodes: map<nat, Node>,
    children: map<(nat, Name), nat>,
    ids: seq<nat>,
    next: nat
  )

  function EntryNode(d: nat, e: TreeEntry): Node {
    Node(d, e.name, e.oid, e.mode, e.mode.Directory?, false)
  }

  function Collect(s: Vfs, d: nat, entries: Entries): Batch {
    if entries == [] then Batch(map[], map[], [], s.next)
    else
      var b := Collect(s, d, entries[..|entries| - 1]);
      var e := entries[|entries| - 1];
      if (d, e.name) in s.childMap then
        b.(ids := b.ids + [s.childMap[(d, e.name)]])
      else
        Batch(
          b.nodes[b.next := EntryNode(d, e)],
          b.children[(d, e.name) := b.next],
          b.ids + [b.next],
          b.next + 1)
  }

  predicate CanPopulate(s: Vfs, d: nat) {
    d in s.dirChildren || (d in s.nodes && s.nodes[d].isDir)
  }

  function Populate(repo: Repo, s: Vfs, d: nat): Vfs {
    if d in s.dirChildren || !CanPopulate(s, d) then s
    else
      var b := Collect(s, d, EntriesOf(repo, s.nodes[d].oid));
      Vfs(s.nodes + b.nodes, s.childMap + b.children, s.dirChildren[d := b.ids], b.next)
  }

  // ---- lookups

  function LiveChild(s: Vfs, d: nat, name: Name): Option<nat> {
    if (d, name) in s.childMap && s.childMap[(d, name)] in s.nodes
       && !s.nodes[s.childMap[(d, name)]].deleted
    then Some(s.childMap[(d, name)]) else None
  }

  function Lookup(repo: Repo, s: Vfs, d: nat, name: Name): (Vfs, Option<nat>) {
    if name == DOT then (s, Some(d))
    else if name == DOT_DOT then
      (s, if d in s.nodes then Some(s.nodes[d].parent) else None)
    else if LiveChild(s, d, name).Some? then (s, LiveChild(s, d, name))
    else if !CanPopulate(s, d) then (s, None)
    else
      var s1 := Populate(repo, s, d);
      (s1, LiveChild(s1, d, name))
  }

  /** The loop of `lookup_path`. */
  function LookupParts(repo: Repo, s: Vfs, from: nat, parts: seq<bytes>): (Vfs, Option<nat>)
    decreases |parts|
  {
    if parts == [] then (s, Some(from))
    else if parts[0] == [] || parts[0] == DOT then LookupParts(repo, s, from, parts[1..])
    else
      var (s1, child) := Lookup(repo, s, from, parts[0]);
      if child.None? then (s1, None) else LookupParts(repo, s1, child.value, parts[1..])
  }

  function LookupPath(repo: Repo, s: Vfs, path: bytes): (Vfs, Option<nat>) {
    var clean := Trim(path);
    if clean == [] then (s, Some(ROOT)) else LookupParts(repo, s, ROOT, Split(clean))
  }

  /** `get_node` hides deleted nodes. */
  function GetNode(s: Vfs, id: nat): Option<Node> {
    if id in s.nodes && !s.nodes[id].deleted then Some(s.nodes[id]) else None
  }

  function LiveIds(s: Vfs, ids: seq<nat>): seq<nat> {
    if ids == [] then []
    else
      LiveIds(s, ids[..|ids| - 1])
      + (if GetNode(s, ids[|ids| - 1]).Some? then [ids[|ids| - 1]] else [])
  }

  function ListDir(repo: Repo, s: Vfs, d: nat): (Vfs, Option<seq<nat>>) {
    if !CanPopulate(s, d) then (s, None)
    else
      var s1 := Populate(repo, s, d);
      (s1, Some(LiveIds(s1, s1.dirChildren[d])))
  }

  // ---- mutations

  /** Hangs a new node under the populated directory `node.parent`. */
  function Link(s: Vfs, node: Node): Vfs
    requires node.parent in s.dirChildren
  {
    Vfs(
      s.nodes[s.next := node],
      s.childMap[(node.parent, node.name) := s.next],
      s.dirChildren[node.parent := s.dirChildren[node.parent] + [s.next]],
      s.next + 1)
  }

  function CreateFile(repo: Repo, s: Vfs, d: nat, name: Name, mode: TreeEntryMode): (Vfs, Option<nat>) {
    if !CanPopulate(s, d) then (s, None)
    else
      var s1 := Populate(repo, s, d);
      if (d, name) in s1.childMap && s1.childMap[(d, name)] in s1.nodes then
        var id := s1.childMap[(d, name)];
        (s1.(nodes := s1.nodes[id := s1.nodes[id].(deleted := false)]), Some(id))
      else
        (Link(s1, Node(d, name, [], mode, false, false)), Some(s1.next))
  }

  function Mkdir(repo: Repo, s: Vfs, d: nat, name: Name): (Vfs, Option<nat>) {
    if !CanPopulate(s, d) then (s, None)
    else
      var s1 := Populate(repo, s, d);
      var s2 := Link(s1, Node(d, name, [], Directory, true, false));
      (s2.(dirChildren := s2.dirChildren[s1.next := []]), Some(s1.next))
  }

  /** `children.retain(|c| c != id)` */
  function Without(ids: seq<nat>, id: nat): (r: seq<nat>)
    ensures forall x :: x in r <==> x in ids && x != id
  {
    if ids == [] then []
    else
      Without(ids[..|ids| - 1], id) + (if ids[|ids| - 1] == id then [] else [ids[|ids| - 1]])
  }

  function Remove(repo: Repo, s: Vfs, d: nat, name: Name): (Vfs, Option<nat>) {
    if !CanPopulate(s, d) then (s, None)
    else
      var s1 := Populate(repo, s, d);
      if (d, name) !in s1.childMap || s1.childMap[(d, name)] !in s1.nodes then (s1, None)
      else
        var id := s1.childMap[(d, name)];
        (Vfs(
          s1.nodes[id := s1.nodes[id].(deleted := true)],
          s1.childMap - {(d, name)},
          s1.dirChildren[d := Without(s1.dirChildren[d], id)],
          s1.next), Some(id))
  }

  /** The table updates at the end of `rename`. */
  function Rehang(s: Vfs, id: nat, fromDir: nat, fromName: Name, toDir: nat, toName: Name): Vfs
    requires id in s.nodes
  {
    var cut := if fromDir in s.dirChildren
               then s.dirChildren[fromDir := Without(s.dirChildren[fromDir], id)]
               else s.dirChildren;
    Vfs(
      s.nodes[id := s.nodes[id].(parent := toDir, name := toName)],
      (s.childMap - {(fromDir, fromName)})[(toDir, toName) := id],
      cut[toDir := (if toDir in cut then cut[toDir] else []) + [id]],
      s.next)
  }

  function Rename(repo: Repo, s: Vfs, fromDir: nat, fromName: Name, toDir: nat, toName: Name): (Vfs, bool) {
    if !CanPopulate(s, fromDir) then (s, false)
    else
      var s1 := Populate(repo, s, fromDir);
      if !CanPopulate(s1, toDir) then (s1, false)
      else
        var s2 := Populate(repo, s1, toDir);
        if (fromDir, fromName) !in s2.childMap || s2.childMap[(fromDir, fromName)] !in s2.nodes then (s2, false)
        else
          var id := s2.childMap[(fromDir, fromName)];
          var s3 := Remove(repo, s2, toDir, toName).0;
          (Rehang(s3, id, fromDir, fromName, toDir, toName), true)
  }

  /** The loop of `ensure_parent_dirs` over all parts but the last. */
  function EnsureDirs(repo: Repo, s: Vfs, from: nat, parts: seq<bytes>): (Vfs, Option<nat>)
    decreases |parts|
  {
    if parts == [] then (s, Some(from))
    else
      var (s1, child) := Lookup(repo, s, from, parts[0]);
      if child.Some? then EnsureDirs(repo, s1, child.value, parts[1..])
      else
        var (s2, made) := Mkdir(repo, s1, from, parts[0]);
        if made.None? then (s2, None) else EnsureDirs(repo, s2, made.value, parts[1..])
  }

  function EnsureParentDirs(repo: Repo, s: Vfs, path: bytes): (Vfs, Option<(nat, Name)>) {
    var parts := NonEmpty(Split(Trim(path)));
    if parts == [] then (s, None)
    else
      var (s1, dir) := EnsureDirs(repo, s, ROOT, parts[..|parts| - 1]);
      (s1, if dir.None? then None else Some((dir.value, parts[|parts| - 1])))
  }

  // ---- printing a path

  /** The parent chain of `id` ends, at the root or where `get_path` gives up, within `k` steps. */
  ghost predicate Climbs(s: Vfs, id: nat, k: nat)
    decreases k
  {
    || id == ROOT
    || id !in s.nodes
    || s.nodes[id].parent == id
    || (k > 0 && Climbs(s, s.nodes[id].parent, k - 1))
  }

  ghost predicate Ends(s: Vfs, id: nat) {
    exists k: nat :: Climbs(s, id, k)
  }

  /** The names `get_path` collects, topmost first; None when an inode on the way is missing. */
  ghost function NamesUp(s: Vfs, id: nat, k: nat): Option<Path>
    requires Climbs(s, id, k)
    decreases k
  {
    if id == ROOT then Some([])
    else if id !in s.nodes then None
    else if s.nodes[id].parent == id then Some([s.nodes[id].name])
    else
      match NamesUp(s, s.nodes[id].parent, k - 1)
      case None => None
      case Some(p) => Some(p + [s.nodes[id].name])
  }

  ghost function GetPath(s: Vfs, id: nat): Option<bytes> {
    if k: nat :| Climbs(s, id, k) then
      match NamesUp(s, id, k)
      case None => None
      case Some(p) => Some(Join(p))
    else None
  }

  lemma {:induction false} NamesUpUnique(s: Vfs, id: nat, k: nat, j: nat)
    requires Climbs(s, id, k) && Climbs(s, id, j)
    ensures NamesUp(s, id, k) == NamesUp(s, id, j)
    decreases k
  {
    if id != ROOT && id in s.nodes && s.nodes[id].parent != id {
      NamesUpUnique(s, s.nodes[id].parent, k - 1, j - 1);
    }
  }
}
