/** The class whose tables the NFS layer and the replay share (src/vfs/inode.rs). Each method
    is proved to make of the tables exactly what the functions of Inodes.dfy say. */
module VfsManager {
  import opened Basics
  import opened Paths
  import opened GitData
  import opened Inodes

  class VfsManager {
    const repo: Repo
    var nodes: map<nat, Node>
    var childMap: map<(nat, Name), nat>
    var dirChildren: map<nat, seq<nat>>
    var nextInode: nat

    function State(): Vfs
      reads this
    {
      Vfs(nodes, childMap, dirChildren, nextInode)
    }

    constructor (repo: Repo, rootOid: Oid)
      ensures this.repo == repo && State() == Unpopulated(rootOid)
    {
      this.repo := repo;
      nodes := map[ROOT := Node(ROOT, [SLASH], rootOid, Directory, true, false)];
      childMap, dirChildren, nextInode := map[], map[], 2;
    }

    method EnsureDirPopulated(dir: nat) returns (ok: bool)
      modifies this
      ensures ok <==> CanPopulate(old(State()), dir)
      ensures State() == Populate(repo, old(State()), dir)
    {
      if dir in dirChildren { return true; }
      if dir !in nodes || !nodes[dir].isDir { return false; }
      var entries := EntriesOf(repo, nodes[dir].oid);
      var newNodes: map<nat, Node> := map[];
      var newChildren: map<(nat, Name), nat> := map[];
      var ids: seq<nat> := [];
      for i := 0 to |entries|
        invariant nodes == old(nodes) && childMap == old(childMap) && dirChildren == old(dirChildren)
        invariant Batch(newNodes, newChildren, ids, nextInode) == Collect(old(State()), dir, entries[..i])
      {
        assert entries[..i + 1][..i] == entries[..i];
        var e := entries[i];
        if (dir, e.name) in childMap {
          ids := ids + [childMap[(dir, e.name)]];
        } else {
          var id := nextInode;
          nextInode := nextInode + 1;
          newNodes := newNodes[id := Node(dir, e.name, e.oid, e.mode, e.mode.Directory?, false)];
          newChildren := newChildren[(dir, e.name) := id];
          ids := ids + [id];
        }
      }
      assert entries[..|entries|] == entries;
      nodes := nodes + newNodes;
      childMap := childMap + newChildren;
      dirChildren := dirChildren[dir := ids];
      return true;
    }

    method Lookup(dir: nat, name: Name) returns (r: Option<nat>)
      modifies this
      ensures (State(), r) == Inodes.Lookup(repo, old(State()), dir, name)
    {
      if name == DOT { return Some(dir); }
      if name == DOT_DOT {
        return if dir in nodes then Some(nodes[dir].parent) else None;
      }
      if (dir, name) in childMap {
        var id := childMap[(dir, name)];
        if id in nodes && !nodes[id].deleted { return Some(id); }
      }
      var ok := EnsureDirPopulated(dir);
      if !ok { return None; }
      if (dir, name) in childMap {
        var id := childMap[(dir, name)];
        if id in nodes && !nodes[id].deleted { return Some(id); }
      }
      return None;
    }

    method ListDir(dir: nat) returns (r: Option<seq<nat>>)
      modifies this
      ensures (State(), r) == Inodes.ListDir(repo, old(State()), dir)
    {
      var ok := EnsureDirPopulated(dir);
      if !ok { return None; }
      var ids := dirChildren[dir];
      var list: seq<nat> := [];
      for i := 0 to |ids|
        invariant list == LiveIds(State(), ids[..i])
      {
        assert ids[..i + 1][..i] == ids[..i];
        if ids[i] in nodes && !nodes[ids[i]].deleted { list := list + [ids[i]]; }
      }
      assert ids[..|ids|] == ids;
      return Some(list);
    }

    /** The builder gives a staged file the id of its blob. */
    method SetOid(id: nat, oid: Oid)
      requires id in nodes
      modifies this`nodes
      ensures nodes == old(nodes)[id := old(nodes)[id].(oid := oid)]
    {
      nodes := nodes[id := nodes[id].(oid := oid)];
    }

    method CreateFile(dir: nat, name: Name, mode: TreeEntryMode) returns (r: Option<nat>)
      modifies this
      ensures (State(), r) == Inodes.CreateFile(repo, old(State()), dir, name, mode)
    {
      var ok := EnsureDirPopulated(dir);
      if !ok { return None; }
      if (dir, name) in childMap && childMap[(dir, name)] in nodes {
        var id := childMap[(dir, name)];
        nodes := nodes[id := nodes[id].(deleted := false)];
        return Some(id);
      }
      var id := nextInode;
      nextInode := nextInode + 1;
      nodes := nodes[id := Node(dir, name, [], mode, false, false)];
      childMap := childMap[(dir, name) := id];
      dirChildren := dirChildren[dir := dirChildren[dir] + [id]];
      return Some(id);
    }

    method Mkdir(dir: nat, name: Name) returns (r: Option<nat>)
      modifies this
      ensures (State(), r) == Inodes.Mkdir(repo, old(State()), dir, name)
    {
      var ok := EnsureDirPopulated(dir);
      if !ok { return None; }
      var id := nextInode;
      nextInode := nextInode + 1;
      nodes := nodes[id := Node(dir, name, [], Directory, true, false)];
      childMap := childMap[(dir, name) := id];
      dirChildren := dirChildren[dir := dirChildren[dir] + [id]];
      dirChildren := dirChildren[id := []];
      return Some(id);
    }

    method Remove(dir: nat, name: Name) returns (r: Option<nat>)
      modifies this
      ensures (State(), r) == Inodes.Remove(repo, old(State()), dir, name)
    {
      var ok := EnsureDirPopulated(dir);
      if !ok { return None; }
      if (dir, name) !in childMap || childMap[(dir, name)] !in nodes { return None; }
      var id := childMap[(dir, name)];
      nodes := nodes[id := nodes[id].(deleted := true)];
      dirChildren := dirChildren[dir := Without(dirChildren[dir], id)];
      childMap := childMap - {(dir, name)};
      return Some(id);
    }

    method Rename(fromDir: nat, fromName: Name, toDir: nat, toName: Name) returns (ok: bool)
      modifies this
      ensures (State(), ok) == Inodes.Rename(repo, old(State()), fromDir, fromName, toDir, toName)
    {
      ok := EnsureDirPopulated(fromDir);
      if !ok { return; }
      ok := EnsureDirPopulated(toDir);
      if !ok { return; }
      if (fromDir, fromName) !in childMap || childMap[(fromDir, fromName)] !in nodes { return false; }
      var id := childMap[(fromDir, fromName)];
      var _ := Remove(toDir, toName);
      nodes := nodes[id := nodes[id].(parent := toDir, name := toName)];
      childMap := childMap - {(fromDir, fromName)};
      childMap := childMap[(toDir, toName) := id];
      if fromDir in dirChildren {
        dirChildren := dirChildren[fromDir := Without(dirChildren[fromDir], id)];
      }
      dirChildren := dirChildren[toDir := (if toDir in dirChildren then dirChildren[toDir] else []) + [id]];
      return true;
    }

    /** Ends because the caller knows that the parent chain does. */
    method GetPath(id: nat) returns (r: Option<bytes>)
      requires Ends(State(), id)
      ensures r == Inodes.GetPath(State(), id)
    {
      ghost var k: nat :| Climbs(State(), id, k);
      ghost var start := k;
      Printed(State(), id, start);
      var components: seq<Name> := [];
      var curr := id;
      PrependNothing(NamesUp(State(), id, start));
      while curr != ROOT
        invariant Climbs(State(), curr, k)
        invariant NamesUp(State(), id, start) == Prepend(NamesUp(State(), curr, k), Reversed(components))
        decreases k, curr != ROOT
      {
        if curr !in nodes { return None; }
        ghost var rest := Reversed(components);
        ReversedSnoc(components, nodes[curr].name);
        components := components + [nodes[curr].name];
        var parent := nodes[curr].parent;
        if parent == curr { break; }
        PrependStep(NamesUp(State(), parent, k - 1), nodes[curr].name, rest);
        curr, k := parent, k - 1;
      }
      assert [] + Reversed(components) == Reversed(components);
      assert NamesUp(State(), id, start) == Some(Reversed(components));
      return Some(Join(Reversed(components)));
    }

    method LookupPath(path: bytes) returns (r: Option<nat>)
      modifies this
      ensures (State(), r) == Inodes.LookupPath(repo, old(State()), path)
    {
      var clean := Trim(path);
      if clean == [] { return Some(ROOT); }
      var parts := Split(clean);
      var curr := ROOT;
      for i := 0 to |parts|
        invariant LookupParts(repo, State(), curr, parts[i..]) == LookupParts(repo, old(State()), ROOT, parts)
      {
        assert parts[i..][1..] == parts[i + 1..];
        if parts[i] == [] || parts[i] == DOT { continue; }
        var child := Lookup(curr, parts[i]);
        if child.None? { return None; }
        curr := child.value;
      }
      return Some(curr);
    }

    method EnsureParentDirs(path: bytes) returns (r: Option<(nat, Name)>)
      modifies this
      ensures (State(), r) == Inodes.EnsureParentDirs(repo, old(State()), path)
    {
      var parts := NonEmpty(Split(Trim(path)));
      if parts == [] { return None; }
      var dirs := parts[..|parts| - 1];
      var curr := ROOT;
      for i := 0 to |dirs|
        invariant EnsureDirs(repo, State(), curr, dirs[i..]) == EnsureDirs(repo, old(State()), ROOT, dirs)
      {
        assert dirs[i..][1..] == dirs[i + 1..];
        var child := Lookup(curr, dirs[i]);
        if child.Some? {
          curr := child.value;
        } else {
          var made := Mkdir(curr, dirs[i]);
          if made.None? { return None; }
          curr := made.value;
        }
      }
      return Some((curr, parts[|parts| - 1]));
    }
  }

  // ---- printing

  function Reversed(p: Path): (r: Path)
    ensures |r| == |p|
  {
    if p == [] then [] else [p[|p| - 1]] + Reversed(p[..|p| - 1])
  }

  function Prepend(front: Option<Path>, rest: Path): Option<Path> {
    match front
    case None => None
    case Some(p) => Some(p + rest)
  }

  lemma ReversedSnoc(p: Path, n: Name)
    ensures Reversed(p + [n]) == [n] + Reversed(p)
  {
    assert (p + [n])[..|p|] == p;
  }

  lemma PrependNothing(front: Option<Path>)
    ensures Prepend(front, []) == front
  {
    if front.Some? { assert front.value + [] == front.value; }
  }

  lemma PrependStep(front: Option<Path>, n: Name, rest: Path)
    ensures front.Some? ==> Prepend(Some(front.value + [n]), rest) == Prepend(front, [n] + rest)
  {
    if front.Some? { assert front.value + [n] + rest == front.value + ([n] + rest); }
  }

  /** Any bound on the chain gives the path that is printed. */
  lemma Printed(s: Vfs, id: nat, k: nat)
    requires Climbs(s, id, k)
    ensures Inodes.GetPath(s, id) == match NamesUp(s, id, k) case None => None case Some(p) => Some(Join(p))
  {
    forall j: nat | Climbs(s, id, j) { NamesUpUnique(s, id, k, j); }
  }
}
