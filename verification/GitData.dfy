/** What the file system reads from Git: parsed trees and blobs by object id (src/git/tree.rs). */
module GitData {
  import opened Basics
  import opened Paths

  datatype TreeEntryMode =
    | RegularFile
    | ExecutableFile
    | Directory
    | Symlink
    | Submodule
    | Other(m: nat)

  datatype TreeEntry = TreeEntry(mode: TreeEntryMode, name: Name, oid: Oid)

  type Entries = seq<TreeEntry>

  datatype Repo = Repo(trees: map<Oid, Entries>, blobs: map<Oid, bytes>)

  /** The entries of a tree; a tree that was never loaded lists as empty. */
  function EntriesOf(repo: Repo, oid: Oid): Entries {
    if oid in repo.trees then repo.trees[oid] else []
  }

  function FindEntry(entries: Entries, name: Name): (r: Option<TreeEntry>)
    ensures r.Some? ==> r.value in entries && r.value.name == name
    ensures r.None? ==> forall e | e in entries :: e.name != name
  {
    if entries == [] then None
    else if entries[0].name == name then Some(entries[0])
    else FindEntry(entries[1..], name)
  }

  ghost predicate DistinctNames(entries: Entries) {
    forall i, j | 0 <= i < j < |entries| :: entries[i].name != entries[j].name
  }

  ghost predicate GoodEntries(entries: Entries) {
    && DistinctNames(entries)
    && forall i | 0 <= i < |entries| :: GoodName(entries[i].name)
  }

  /** Git never writes a tree with two entries of one name, or with a name that is empty,
      "." or "..", or holds a slash. */
  ghost predicate GoodRepo(repo: Repo) {
    forall oid | oid in repo.trees :: GoodEntries(repo.trees[oid])
  }

  lemma FindEntryAt(entries: Entries, i: nat)
    requires DistinctNames(entries) && i < |entries|
    ensures FindEntry(entries, entries[i].name) == Some(entries[i])
  {
    var r := FindEntry(entries, entries[i].name);
    assert entries[i] in entries;
    var j :| 0 <= j < |entries| && entries[j] == r.value;
  }
}
