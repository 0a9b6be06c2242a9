/** The active log of a session (src/wal/mod.rs). The log object is represented by the entries
    appended to it; appending and flushing succeed. */
module WalManager {
  import opened Basics
  import opened Wal

  class WalManager {
    var activeSeq: nat
    var entrySeq: nat
    /** The entries of the open log, or None when no writer is active. */
    var writer: Option<seq<WalEntry>>

    constructor (activeSeq: nat)
      ensures this.activeSeq == activeSeq && entrySeq == 1 && writer == None
    {
      this.activeSeq, entrySeq, writer := activeSeq, 1, None;
    }

    method AdvanceSeq() returns (next: nat)
      modifies this
      ensures next == activeSeq == old(activeSeq) + 1 && entrySeq == 1 && writer == old(writer)
    {
      entrySeq := 1;
      activeSeq := activeSeq + 1;
      return activeSeq;
    }

    method StartActiveWal(header: Payload)
      modifies this
      ensures writer == Some([WalEntry(old(entrySeq), Some(header))])
      ensures entrySeq == old(entrySeq) + 1 && activeSeq == old(activeSeq)
    {
      var entry := WalEntry(entrySeq, Some(header));
      entrySeq := entrySeq + 1;
      writer := Some([entry]);
    }

    /** Without a writer the entry is dropped, but its number is used up. */
    method LogMutation(payload: Payload)
      modifies this
      ensures entrySeq == old(entrySeq) + 1 && activeSeq == old(activeSeq)
      ensures writer == match old(writer)
                        case None => None
                        case Some(log) => Some(log + [WalEntry(old(entrySeq), Some(payload))])
    {
      var entry := WalEntry(entrySeq, Some(payload));
      entrySeq := entrySeq + 1;
      if writer.Some? { writer := Some(writer.value + [entry]); }
    }

    method FinalizeActiveWal()
      modifies this
      ensures writer == None && entrySeq == old(entrySeq) && activeSeq == old(activeSeq)
    {
      writer := None;
    }
  }
}
