/** The storage object of a node: the store, the log writer, and the apply position. */
module Storage {
  import opened Bytes
  import opened Store
  import opened ShardedStore
  import opened Recovery
  import opened WalRecord
  import opened WalFile
  import opened WalLog
  import W = WalWriter

  class DurableStorage {
    const kv: ShardedKV
    const wal: W.Writer
    var lastApplied: nat
    /** Whether recovery met no corruption. */
    const recovered: bool

    /** Open the log file and replay it. */
    constructor (contents: Bytes, hash: Bytes -> nat)
      ensures fresh(kv) && fresh(kv.shards) && fresh(wal) && kv.Valid() && wal.file == contents
      ensures var found := Scan(contents);
        && recovered == found.clean && lastApplied == LastIndex(found.records)
        && kv.Contents() == Replay(Entries(found.records))
        && wal.usable == found.clean && wal.lastIndex == LastIndex(found.records)
        && (found.clean && EncodeAll(found.records) == contents ==>
            wal.Holds(found.records) && wal.syncedIndex == wal.lastIndex)
    {
      hide Scan, Replay, Entries, EncodeAll;
      var writer := new W.Writer(contents);
      var store := new ShardedKV(hash);
      var file := new File(contents);
      assert file.Rest() == contents;
      var clean, last := RecoverFromWal(file, store);
      wal, kv, lastApplied, recovered := writer, store, last, clean;
    }

    /** Apply a record that is already in the log. */
    method ApplyCommitted(r: Record)
      requires kv.Valid()
      modifies `lastApplied, kv.shards
      ensures kv.Valid() && kv.Contents() == ApplyEntry(old(kv.Contents()), EntryOf(r)) && lastApplied == r.index
    {
      ApplyRecord(kv, r);
      lastApplied := r.index;
    }
  }
}
