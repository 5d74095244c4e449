/** Replaying the log file into an empty store at start-up. */
module Recovery {
  import opened Bytes
  import opened Store
  import opened ShardedStore
  import opened WalRecord
  import opened WalFile
  import opened WalLog

  function LastIndex(rs: seq<Record>): nat {
    if rs == [] then 0 else rs[|rs| - 1].index
  }

  /** One recovered record goes into the store as its command says. */
  method ApplyRecord(kv: ShardedKV, r: Record)
    requires kv.Valid()
    modifies kv.shards
    ensures kv.Valid() && kv.Contents() == ApplyEntry(old(kv.Contents()), EntryOf(r))
    ensures r.op.Set? && r.key != [] ==> kv.Contents() == old(kv.Contents())[r.key := r.value]
    ensures r.op.Delete? ==> kv.Contents() == map k | k in old(kv.Contents()) && k != r.key :: old(kv.Contents())[k]
    ensures r.key == [] ==> kv.Contents() == old(kv.Contents())
  {
    match r.op
    case Set => var _ := kv.Set(r.key, r.value);
    case Delete => var _ := kv.Delete(r.key);
  }

  /** The read loop: apply record after record until the log ends or is corrupt. */
  method RecoverFromWal(file: File, kv: ShardedKV) returns (clean: bool, lastApplied: nat)
    requires file.Valid() && kv.Valid() && kv.Contents() == map[]
    modifies file`pos, kv.shards
    ensures kv.Valid()
    ensures var found := Scan(old(file.Rest()));
      && clean == found.clean && lastApplied == LastIndex(found.records)
      && kv.Contents() == Replay(Entries(found.records))
  {
    hide ReadNext, Scan, Replay, Entries, Apply, ShardedKV.Valid, ShardedKV.Contents;
    lastApplied := 0;
    ghost var all := Scan(file.Rest());
    ghost var done: seq<Record> := [];
    NothingReplayed();
    while true
      invariant file.Valid() && kv.Valid() && kv.Contents() == Replay(Entries(done))
      invariant all == Scanned(done + Scan(file.Rest()).records, Scan(file.Rest()).clean)
      invariant lastApplied == LastIndex(done)
      decreases |file.Rest()|
    {
      ghost var s := file.Rest();
      ScanStep(s);
      var reading := ReadNextRecord(file);
      match reading
      case Got(r, _) =>
        assert file.Rest() == s[reading.size..];
        ApplyRecord(kv, r);
        lastApplied := r.index;
        ReplayRecord(done, r);
        OneMore(done, r, Scan(file.Rest()).records);
        done := done + [r];
      case End =>
        assert done + [] == done;
        return true, lastApplied;
      case Corrupt(_) =>
        assert done + [] == done;
        return false, lastApplied;
    }
  }

  lemma NothingReplayed()
    ensures Replay(Entries([])) == map[]
  {
  }

  /** Recovery from a log cut at any byte: no error, and a store that holds exactly what the whole
      records before the cut say, with as many keys. */
  method RecoverAfterCut(hash: Bytes -> nat, rs: seq<Record>, cut: nat)
      returns (clean: bool, lastApplied: nat, kv: ShardedKV, size: nat)
    requires AllValid(rs) && cut <= |EncodeAll(rs)|
    ensures var kept := rs[..Whole(rs, cut)];
      && clean && lastApplied == LastIndex(kept)
      && kv.Valid() && kv.Contents() == Replay(Entries(kept)) && size == |Replay(Entries(kept))|
  {
    hide Scan, Encode, EncodeAll, Replay, Entries;
    CutAnywhere(rs, cut);
    var file := new File(EncodeAll(rs)[..cut]);
    assert file.Rest() == EncodeAll(rs)[..cut];
    kv := new ShardedKV(hash);
    clean, lastApplied := RecoverFromWal(file, kv);
    size := kv.Size();
  }
}
