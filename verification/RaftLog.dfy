/** A node's replicated log: entries in memory, each written through to the log file. */
module RaftLog {
  import opened Bytes
  import opened Options
  import opened WalRecord
  import opened WalFile
  import opened WalLog
  import Logs
  import W = WalWriter

  /** The entries are numbered 1, 2, 3, ... */
  ghost predicate Numbered(rs: seq<Record>) {
    forall i | 0 <= i < |rs| :: rs[i].index == i + 1
  }

  class Log {
    const wal: W.Writer
    var entries: seq<Record>

    /** Memory and file agree: the file is exactly the entries, all of it flushed. */
    ghost predicate Valid()
      reads this, wal
    {
      && Numbered(entries) && wal.Holds(entries)
      && wal.lastIndex == |entries| && wal.syncedIndex == |entries|
    }

    /** The log as the protocol sees it. */
    ghost function Value(): Logs.Log
      reads this
    {
      Entries(entries)
    }

    constructor (wal: W.Writer)
      ensures this.wal == wal && entries == []
      ensures wal.Holds([]) ==> Valid() && Value() == []
    {
      this.wal := wal;
      entries := [];
    }

    /** Read the file back into memory. */
    method Load() returns (ok: bool)
      modifies `entries
      ensures ok == Scan(wal.file).clean && entries == Scan(wal.file).records
      ensures old(Valid() && AllValid(entries)) ==> ok && entries == old(entries) && Valid()
      ensures wal.Holds(entries) && Numbered(entries) && wal.syncedIndex == wal.lastIndex ==> Valid()
    {
      hide ReadNext, Scan, EncodeAll;
      ghost var before := entries;
      var file := new File(wal.file);
      assert file.Rest() == wal.file;
      entries := [];
      ok := true;
      while true
        invariant file.Valid() && ok
        invariant Scan(wal.file) == Scanned(entries + Scan(file.Rest()).records, Scan(file.Rest()).clean)
        decreases |file.Rest()|
      {
        ghost var s := file.Rest();
        ScanStep(s);
        var reading := ReadNextRecord(file);
        match reading
        case Got(r, _) =>
          assert file.Rest() == s[reading.size..];
          OneMore(entries, r, Scan(file.Rest()).records);
          entries := entries + [r];
        case End =>
          assert entries + [] == entries;
          break;
        case Corrupt(_) =>
          assert entries + [] == entries;
          ok := false;
          break;
      }
      if AllValid(before) && wal.file == EncodeAll(before) { LoadIsIdentity(before); }
    }

    /** Append, assigning the next index. */
    method Append(entry: Record) returns (ok: bool)
      requires Valid()
      modifies `entries, wal
      ensures Valid() && ok && Value() == old(Value()) + [EntryOf(entry)]
      ensures entries == old(entries) + [entry.(index := |old(entries)| + 1)]
    {
      hide Encode, EncodeAll, Entries;
      var appended := wal.Append(entry);
      W.QuietTick(wal.lastIndex, wal.lastIndex - wal.syncedIndex);
      ok := wal.Sync(appended.index, None, [[]]);
      var numbered := entry.(index := appended.index);
      EncodeAllSplit(entries, [numbered]);
      EncodeAllOne(numbered);
      EntriesNext(entries, numbered);
      assert EntryOf(numbered) == EntryOf(entry);
      entries := entries + [numbered];
    }

    /** Drop every entry from `from` on and rewrite the file. */
    method TruncateFrom(from: nat) returns (ok: bool)
      requires Valid()
      modifies `entries, wal
      ensures Valid()
      ensures ok <==> from > 0
      ensures !ok ==> entries == old(entries)
      ensures ok ==> entries == if from <= |old(entries)| then old(entries)[..from - 1] else old(entries)
    {
      hide Encode, EncodeAll;
      if from == 0 { return false; }
      while entries != [] && entries[|entries| - 1].index >= from
        invariant |entries| <= |old(entries)| && entries == old(entries)[..|entries|]
        invariant |entries| >= from - 1 || entries == old(entries)
        invariant wal.usable
      {
        entries := entries[..|entries| - 1];
      }
      ok := wal.RewriteAll(entries);
    }

    method Get(index: nat) returns (r: Option<Record>)
      requires Valid()
      ensures r == if 1 <= index <= |entries| then Some(entries[index - 1]) else None
    {
      if index == 0 || index > |entries| { return None; }
      var entry := entries[index - 1];
      if entry.index != index { return None; }
      return Some(entry);
    }

    method EntriesFrom(index: nat) returns (r: seq<Record>)
      ensures r == if 1 <= index <= |entries| then entries[index - 1..] else []
    {
      if index == 0 || index > |entries| { return []; }
      return entries[index - 1..];
    }

    method LastIndex() returns (index: nat)
      requires Numbered(entries)
      ensures index == |entries| == |Value()|
    {
      return if entries == [] then 0 else entries[|entries| - 1].index;
    }

    method LastTerm() returns (term: nat)
      ensures term == Logs.LastTerm(Value())
    {
      return if entries == [] then 0 else entries[|entries| - 1].term;
    }
  }

  /** Scanning the encodings of valid records gives exactly those records. */
  lemma LoadIsIdentity(rs: seq<Record>)
    requires AllValid(rs)
    ensures Scan(EncodeAll(rs)) == Scanned(rs, true)
  {
    hide Encode, EncodeAll, ReadNext;
    ScanReadsBack(rs, []);
    assert EncodeAll(rs) + [] == EncodeAll(rs) && rs + [] == rs;
    EmptyIsEnd();
  }

  /** A restart: the log is what a scan of the file finds. If the file is nothing but those records,
      log and file agree. */
  method Reopen(file: Bytes) returns (ok: bool, log: Log)
    ensures ok == Scan(file).clean && log.entries == Scan(file).records && log.wal.file == file
    ensures ok && Numbered(log.entries) && EncodeAll(log.entries) == file ==> log.Valid()
  {
    hide Scan, Encode, EncodeAll;
    var wal := new W.Writer(file);
    log := new Log(wal);
    ok := log.Load();
  }

  /** In particular a restart on the file of a log in agreement with it brings that log back. */
  method ReopenWhole(rs: seq<Record>) returns (ok: bool, log: Log)
    requires AllValid(rs) && Numbered(rs)
    ensures ok && log.Valid() && log.entries == rs
  {
    hide Scan, Encode, EncodeAll;
    LoadIsIdentity(rs);
    ok, log := Reopen(EncodeAll(rs));
  }
}
