/** The staging store as the class that owns the staged files (src/staging/mod.rs). */
module StagingStore {
  import opened Basics
  import opened Paths
  import opened TreeView
  import S = Staging

  class StagingStore {
    var stagedNodes: map<nat, nat>
    var deletedNodes: set<nat>
    var changedPaths: set<bytes>
    /** The files `node_<id>.bin` of the staging directory. */
    var files: map<nat, bytes>

    function State(): S.Staging
      reads this
    {
      S.Staging(stagedNodes, files, deletedNodes, changedPaths)
    }

    constructor ()
      ensures State() == S.EMPTY
    {
      stagedNodes, files, deletedNodes, changedPaths := map[], map[], {}, {};
    }

    method CreateFile(id: nat)
      modifies this
      ensures State() == S.StageNew(old(State()), id)
    {
      files := files[id := []];
      stagedNodes := stagedNodes[id := 0];
    }

    /** The file is created with the base content when it is not there yet. */
    method OpenStaged(id: nat, initial: Option<bytes>)
      modifies `files
      ensures files == old(files)[id := S.StartFrom(old(State()), id, initial)]
    {
      if id !in files {
        files := files[id := []];
        if initial.Some? { files := files[id := initial.value]; }
      }
    }

    method WriteAt(id: nat, offset: nat, data: bytes, initial: Option<bytes>) returns (newLen: nat)
      modifies this
      ensures State() == S.WriteAt(old(State()), id, offset, data, initial)
      ensures newLen == |files[id]|
    {
      OpenStaged(id, initial);
      files := files[id := Overwrite(files[id], offset, data)];
      newLen := |files[id]|;
      stagedNodes := stagedNodes[id := newLen];
    }

    method Truncate(id: nat, newSize: nat, initial: Option<bytes>)
      modifies this
      ensures State() == S.Truncate(old(State()), id, newSize, initial)
    {
      OpenStaged(id, initial);
      files := files[id := Resized(files[id], newSize)];
      stagedNodes := stagedNodes[id := newSize];
    }

    method ReadAt(id: nat, offset: nat, count: nat) returns (r: Option<(bytes, bool)>)
      ensures r == S.ReadAt(State(), id, offset, count)
    {
      if id !in stagedNodes || id !in files { return None; }
      var len := |files[id]|;
      if offset >= len { return Some(([], true)); }
      var toRead := Min(count, len - offset);
      return Some((files[id][offset..offset + toRead], offset + toRead >= len));
    }

    method GetStagedContent(id: nat) returns (r: Option<bytes>)
      requires S.StagingOk(State())
      ensures r == if id in stagedNodes then Some(files[id]) else None
    {
      if id !in stagedNodes { return None; }
      return Some(files[id]);
    }

    method MarkDeleted(id: nat)
      modifies this
      ensures State() == S.MarkDeleted(old(State()), id)
    {
      deletedNodes := deletedNodes + {id};
    }

    method RecordChangedPath(path: bytes)
      modifies this
      ensures State() == S.Record(old(State()), path)
    {
      var clean := Trim(S.TrimSpace(path));
      if clean != [] { changedPaths := changedPaths + {clean}; }
    }

    method HasModifications() returns (r: bool)
      ensures r <==> S.HasModifications(State())
    {
      r := stagedNodes != map[] || deletedNodes != {} || changedPaths != {};
    }

    method Reset()
      modifies this
      ensures State() == S.EMPTY
    {
      stagedNodes, deletedNodes, changedPaths, files := map[], {}, {}, map[];
    }
  }
}
