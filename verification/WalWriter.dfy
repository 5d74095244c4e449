/** The append-only writer of the log file, as one caller sees it while others use it as well. */
module WalWriter {
  import opened Bytes
  import opened Crc32
  import opened Options
  import opened Recovery
  import opened WalRecord
  import opened WalFile
  import opened WalLog

  /** Push the encoding of `r` onto `out`. */
  method EncodeRecord(r: Record, out: Bytes) returns (r': Bytes)
    ensures r' == out + Encode(r)
  {
    hide BE, Crc;
    var body: Bytes := [];
    body := WriteBE(body, r.term, 8);
    body := WriteBE(body, r.index, 8);
    body := body + [OpCode(r.op)];
    body := WriteBE(body, |r.key|, 4);
    body := body + r.key;
    body := WriteBE(body, |r.value|, 4);
    body := body + r.value;
    assert body == Body(r);
    var crc := Compute(body);
    r' := WriteBE(out, crc, 4);
    r' := r' + body;
  }

  /** The loop that scans an existing file for the index of its last record. */
  method ScanIndex(contents: Bytes) returns (clean: bool, last: nat)
    ensures clean == Scan(contents).clean && last == LastIndex(Scan(contents).records)
  {
    hide ReadNext, Scan;
    var reader := new File(contents);
    assert reader.Rest() == contents;
    last := 0;
    ghost var done: seq<Record> := [];
    while true
      invariant reader.Valid() && last == LastIndex(done)
      invariant Scan(contents) == Scanned(done + Scan(reader.Rest()).records, Scan(reader.Rest()).clean)
      decreases |reader.Rest()|
    {
      ghost var s := reader.Rest();
      ScanStep(s);
      var reading := ReadNextRecord(reader);
      match reading
      case Got(r, _) =>
        assert reader.Rest() == s[reading.size..];
        last := r.index;
        OneMore(done, r, Scan(reader.Rest()).records);
        done := done + [r];
      case End =>
        assert done + [] == done;
        return true, last;
      case Corrupt(_) =>
        assert done + [] == done;
        return false, last;
    }
  }

  datatype Appended = At(index: nat) | NotOpen

  // ----- Batching

  /** A window ends once this many records await the flush. */
  const MAX_BATCH := 16

  /** The records as a writer numbers them whose last index is `last`. */
  function Number(last: nat, rs: seq<Record>): (n: seq<Record>)
    ensures |n| == |rs|
  {
    if rs == [] then [] else Number(last, rs[..|rs| - 1]) + [rs[|rs| - 1].(index := last + |rs|)]
  }

  function Flat(ticks: seq<seq<Record>>): seq<Record> {
    if ticks == [] then [] else Flat(ticks[..|ticks| - 1]) + ticks[|ticks| - 1]
  }

  /** How many ticks a window lasts that opens with `pending` records unflushed, if `ticks` is what
      others write in each tick and the deadline passes after the last. */
  function Window(pending: int, ticks: seq<seq<Record>>): (n: nat)
    ensures n <= |ticks|
    ensures 0 <= pending <= MAX_BATCH ==> pending + n <= MAX_BATCH
    decreases |ticks|
  {
    if pending >= MAX_BATCH || ticks == [] then 0
    else if ticks[0] == [] then 1
    else 1 + Window(pending + |ticks[0]|, ticks[1..])
  }

  /** A window that goes on saw new records in every tick before, and not yet a full batch. */
  lemma {:induction false} WindowGoesOn(pending: int, ticks: seq<seq<Record>>, k: nat)
    requires k < Window(pending, ticks)
    ensures pending + |Flat(ticks[..k])| < MAX_BATCH && (k > 0 ==> ticks[k - 1] != [])
    decreases k
  {
    if k > 0 {
      WindowGoesOn(pending + |ticks[0]|, ticks[1..], k - 1);
      assert ticks[..k] == [ticks[0]] + ticks[1..][..k - 1];
      FlatSplit([ticks[0]], ticks[1..][..k - 1]);
      assert [ticks[0]][..0] == [];
    }
  }

  /** It goes on past tick `k` exactly if there is another tick, fewer than 16 records are pending, and
      each tick so far brought some. */
  lemma {:induction false} WindowIff(pending: int, ticks: seq<seq<Record>>, k: nat)
    ensures k < Window(pending, ticks) <==>
      && k < |ticks| && pending + |Flat(ticks[..k])| < 16
      && forall j | 0 <= j < k :: ticks[j] != []
    decreases k
  {
    if k == 0 {
      assert ticks[..0] == [];
    } else if ticks != [] {
      WindowIff(pending + |ticks[0]|, ticks[1..], k - 1);
      if k < |ticks| {
        assert ticks[..k] == [ticks[0]] + ticks[1..][..k - 1];
        FlatSplit([ticks[0]], ticks[1..][..k - 1]);
        FlatOne(ticks[0]);
      }
      assert forall j | 0 <= j < |ticks| - 1 :: ticks[1..][j] == ticks[j + 1];
    }
  }

  lemma FlatOne(rs: seq<Record>)
    ensures Flat([rs]) == rs
  {
    assert [rs][..0] == [];
  }

  lemma {:induction false} FlatSplit(a: seq<seq<Record>>, b: seq<seq<Record>>)
    ensures Flat(a + b) == Flat(a) + Flat(b)
    decreases |b|
  {
    if b == [] {
      assert a + b == a;
    } else {
      var init, last := b[..|b| - 1], b[|b| - 1];
      assert (a + b)[..|a + b| - 1] == a + init;
      FlatSplit(a, init);
      calc {
        Flat(a + b);
        Flat(a + init) + last;
        Flat(a) + (Flat(init) + last);
      }
    }
  }

  /** What others write, and how often the file is flushed, during a Sync for `index` that finds the
      last and the flushed index as given. If another caller is leading a flush, `ahead` is what is
      written before that flush is done. A written index never needs a flush of its own then. */
  function Batch(last: nat, synced: nat, index: nat, ahead: Option<seq<Record>>, ticks: seq<seq<Record>>)
      : (b: (seq<Record>, nat))
    ensures index <= last ==> b.1 <= 1
    ensures synced < index && ahead.Some? && b.1 == 1 ==> index <= last + |b.0|
  {
    if synced >= index then ([], 0)
    else match ahead
      case None => (Flat(ticks[..Window(last - synced, ticks)]), 1)
      case Some(rs) =>
        if last + |rs| >= index then (rs, 1) else (rs + Flat(ticks[..Window(0, ticks)]), 2)
  }

  /** Each record gets the next index and is otherwise the one given. */
  lemma {:induction false} NumberAt(last: nat, rs: seq<Record>, i: nat)
    requires i < |rs|
    ensures Number(last, rs)[i] == rs[i].(index := last + 1 + i)
    decreases |rs|
  {
    if i < |rs| - 1 { NumberAt(last, rs[..|rs| - 1], i); }
  }

  lemma {:induction false} NumberSplit(last: nat, a: seq<Record>, b: seq<Record>)
    ensures Number(last, a + b) == Number(last, a) + Number(last + |a|, b)
    decreases |b|
  {
    if b == [] {
      assert a + b == a;
    } else {
      assert (a + b)[..|a + b| - 1] == a + b[..|b| - 1];
      NumberSplit(last, a, b[..|b| - 1]);
    }
  }

  class Writer {
    /** Whether the scan at start-up found no corruption. */
    var usable: bool
    var file: Bytes
    /** How much of the file is known to be on stable storage. */
    var durable: nat
    var lastIndex: nat
    var syncedIndex: nat
    /** How often the file has been flushed. */
    var flushes: nat

    /** The file holds exactly the records `rs`. */
    ghost predicate Holds(rs: seq<Record>)
      reads this
    {
      && usable && file == EncodeAll(rs) && lastIndex == LastIndex(rs)
      && syncedIndex <= lastIndex && durable <= |file|
      && (syncedIndex == lastIndex ==> durable == |file|)
    }

    /** Learn the last index by scanning the existing file. */
    constructor (contents: Bytes)
      ensures file == contents && durable == |contents| && flushes == 0
      ensures var found := Scan(contents);
        usable == found.clean && lastIndex == LastIndex(found.records) && (usable ==> syncedIndex == lastIndex)
      ensures usable && EncodeAll(Scan(contents).records) == contents ==> Holds(Scan(contents).records)
    {
      hide Scan, Encode, EncodeAll;
      var clean, last := ScanIndex(contents);
      file, durable, lastIndex, usable, flushes := contents, |contents|, last, clean, 0;
      syncedIndex := if clean then last else 0;
    }

    /** Give the record the next index and write it; nothing is flushed. */
    method Append(r: Record) returns (result: Appended)
      modifies `file, `lastIndex
      ensures !usable ==> result == NotOpen && file == old(file) && lastIndex == old(lastIndex)
      ensures usable ==> result == At(old(lastIndex) + 1) && lastIndex == old(lastIndex) + 1
      ensures usable ==> file == old(file) + Encode(r.(index := lastIndex))
    {
      hide Encode;
      if !usable { return NotOpen; }
      var numbered := r.(index := lastIndex + 1);
      var encoded := EncodeRecord(numbered, []);
      assert [] + Encode(numbered) == Encode(numbered);
      file := file + encoded;
      lastIndex := numbered.index;
      return At(lastIndex);
    }

    /** What other callers append while this one waits. */
    method Others(rs: seq<Record>)
      requires usable
      modifies `file, `lastIndex
      ensures lastIndex == old(lastIndex) + |rs| && file == old(file) + EncodeAll(Number(old(lastIndex), rs))
    {
      hide Encode, EncodeAll;
      NoBytes();
      for i := 0 to |rs|
        invariant lastIndex == old(lastIndex) + i
        invariant file == old(file) + EncodeAll(Number(old(lastIndex), rs[..i]))
      {
        var _ := Append(rs[i]);
        var before, numbered := Number(old(lastIndex), rs[..i]), rs[i].(index := lastIndex);
        assert rs[..i + 1][..i] == rs[..i];
        EncodeAllSplit(before, [numbered]);
        EncodeAllOne(numbered);
      }
      assert rs[..|rs|] == rs;
    }

    /** Everything written becomes durable. */
    method Flush()
      modifies `durable, `syncedIndex, `flushes
      ensures durable == |file| && syncedIndex == lastIndex && flushes == old(flushes) + 1
    {
      durable := |file|;
      flushes := flushes + 1;
      syncedIndex := lastIndex;
    }

    /** The window of a batch leader, who waits for more records to flush along with its own. */
    method Gather(ticks: seq<seq<Record>>)
      requires usable
      modifies `file, `lastIndex
      ensures var joined := Flat(ticks[..Window(old(lastIndex) - syncedIndex, ticks)]);
        lastIndex == old(lastIndex) + |joined| && file == old(file) + EncodeAll(Number(old(lastIndex), joined))
    {
      hide Encode, EncodeAll, Number, Flat, Window;
      NoneJoined(lastIndex, ticks);
      var observed, tick := lastIndex, 0;
      while lastIndex - syncedIndex < MAX_BATCH && tick < |ticks|
        invariant tick <= |ticks| && observed == lastIndex
        invariant lastIndex == old(lastIndex) + |Flat(ticks[..tick])|
        invariant file == old(file) + EncodeAll(Number(old(lastIndex), Flat(ticks[..tick])))
        invariant Window(old(lastIndex) - syncedIndex, ticks) == tick + Window(lastIndex - syncedIndex, ticks[tick..])
      {
        Joined(old(lastIndex), Flat(ticks[..tick]), ticks[tick]);
        NextTick(lastIndex - syncedIndex, ticks, tick);
        Others(ticks[tick]);
        tick := tick + 1;
        if lastIndex == observed { break; }
        observed := lastIndex;
      }
      WindowOver(lastIndex - syncedIndex, ticks[tick..]);
    }

    /** Make everything up to `index` durable, along with all that others have written by then. */
    method Sync(index: nat, ahead: Option<seq<Record>>, ticks: seq<seq<Record>>) returns (ok: bool)
      modifies `file, `lastIndex, `durable, `syncedIndex, `flushes
      ensures ok == usable
      ensures !usable || old(syncedIndex) >= index ==>
        unchanged(`file) && unchanged(`lastIndex) && unchanged(`durable) && unchanged(`syncedIndex) && unchanged(`flushes)
      ensures usable && old(syncedIndex) < index ==>
        var (joined, n) := Batch(old(lastIndex), old(syncedIndex), index, ahead, ticks);
        && file == old(file) + EncodeAll(Number(old(lastIndex), joined)) && lastIndex == old(lastIndex) + |joined|
        && durable == |file| && syncedIndex == lastIndex && flushes == old(flushes) + n
        && n == if ahead.Some? && old(lastIndex) + |ahead.value| < index then 2 else 1
    {
      hide Encode, EncodeAll, Number;
      if !usable { return false; }
      if syncedIndex >= index { return true; }
      if ahead.Some? {
        Joined(lastIndex, ahead.value, Flat(ticks[..Window(0, ticks)]));
        Others(ahead.value);
        Flush();
        if syncedIndex >= index { return true; }
      }
      Gather(ticks);
      Flush();
      return true;
    }

    /** Replace the whole log. */
    method RewriteAll(records: seq<Record>) returns (ok: bool)
      modifies `file, `durable, `lastIndex, `syncedIndex, `flushes
      ensures ok == usable
      ensures ok ==> Holds(records) && syncedIndex == lastIndex && durable == |file|
      ensures !ok ==> file == old(file) && lastIndex == old(lastIndex) && syncedIndex == old(syncedIndex) && durable == old(durable)
    {
      hide Encode, EncodeAll;
      if !usable { return false; }
      file := [];
      NoBytes();
      for i := 0 to |records|
        invariant file == EncodeAll(records[..i])
      {
        var encoded := EncodeRecord(records[i], []);
        assert [] + Encode(records[i]) == Encode(records[i]);
        file := file + encoded;
        assert records[..i + 1] == records[..i] + [records[i]];
        EncodeAllSplit(records[..i], [records[i]]);
        EncodeAllOne(records[i]);
      }
      assert records[..|records|] == records;
      durable := |file|;
      flushes := flushes + 1;
      lastIndex := if records == [] then 0 else records[|records| - 1].index;
      syncedIndex := lastIndex;
      return true;
    }
  }

  /** The record as the writer that opened `contents` will number it. */
  function WithNextIndex(contents: Bytes, r: Record): Record {
    r.(index := LastIndex(Scan(contents).records) + 1)
  }

  /** Open a file and write one record. If the file was nothing but whole records, the next scan finds
      that record after the others. */
  method OpenAndAppend(contents: Bytes, r: Record) returns (w: Writer, result: Appended)
    ensures result.At? <==> Scan(contents).clean
    ensures result.At? ==> w.file == contents + Encode(WithNextIndex(contents, r))
    ensures result.At? && EncodeAll(Scan(contents).records) == contents && Valid(WithNextIndex(contents, r)) ==>
      Scan(w.file) == Scanned(Scan(contents).records + [WithNextIndex(contents, r)], true)
  {
    hide Scan, Encode, EncodeAll, Valid;
    w := new Writer(contents);
    result := w.Append(r);
    ScanSound(contents);
    if EncodeAll(Scan(contents).records) == contents && Valid(WithNextIndex(contents, r)) {
      WholeAppend(Scan(contents).records, WithNextIndex(contents, r));
    }
  }

  /** That holds of every record if and only if the file was nothing but whole records. */
  lemma OpenAndAppendSafeIff(contents: Bytes)
    requires Scan(contents).clean && LastIndex(Scan(contents).records) + 1 < U64
    ensures EncodeAll(Scan(contents).records) == contents <==>
      forall r | Valid(WithNextIndex(contents, r)) ::
        Scan(contents + Encode(WithNextIndex(contents, r))) == Scanned(Scan(contents).records + [WithNextIndex(contents, r)], true)
  {
    hide Scan, Encode, EncodeAll, Valid;
    var index := LastIndex(Scan(contents).records) + 1;
    AppendSafeIff(contents, index);
    assert forall r: Record | r.index == index :: WithNextIndex(contents, r) == r;
  }

  lemma NoneJoined(last: nat, ticks: seq<seq<Record>>)
    ensures Flat(ticks[..0]) == [] && EncodeAll(Number(last, [])) == [] && ticks[0..] == ticks
  {
  }

  lemma NextTick(pending: int, ticks: seq<seq<Record>>, k: nat)
    requires k < |ticks| && pending < MAX_BATCH
    ensures Flat(ticks[..k + 1]) == Flat(ticks[..k]) + ticks[k]
    ensures Window(pending, ticks[k..]) == if ticks[k] == [] then 1 else 1 + Window(pending + |ticks[k]|, ticks[k + 1..])
  {
    assert ticks[..k + 1][..k] == ticks[..k];
    assert ticks[k..][1..] == ticks[k + 1..];
  }

  lemma WindowOver(pending: int, ticks: seq<seq<Record>>)
    ensures pending >= MAX_BATCH || ticks == [] ==> Window(pending, ticks) == 0
  {
  }

  /** If nothing comes in the first tick, nothing joins. */
  lemma QuietTick(last: nat, pending: int)
    ensures Flat([[]][..Window(pending, [[]])]) == [] && EncodeAll(Number(last, [])) == []
  {
    var ticks: seq<seq<Record>> := [[]];
    assert ticks[..0] == [];
  }

  lemma Joined(last: nat, a: seq<Record>, b: seq<Record>)
    ensures EncodeAll(Number(last, a + b)) == EncodeAll(Number(last, a)) + EncodeAll(Number(last + |a|, b))
  {
    NumberSplit(last, a, b);
    EncodeAllSplit(Number(last, a), Number(last + |a|, b));
  }

  lemma NoBytes()
    ensures EncodeAll([]) == []
  {
  }
}
