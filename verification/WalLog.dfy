/** A whole log file: the encodings of its records one after the other, and what scanning it from
    the start finds. */
module WalLog {
  import opened Bytes
  import opened Logs
  import opened Store
  import opened WalRecord

  function EncodeAll(rs: seq<Record>): Bytes {
    if rs == [] then [] else Encode(rs[0]) + EncodeAll(rs[1..])
  }

  ghost predicate AllValid(rs: seq<Record>) {
    forall r | r in rs :: Valid(r)
  }

  /** The records found before the scan stopped, and whether it stopped at the end of the log. */
  datatype Scanned = Scanned(records: seq<Record>, clean: bool)

  function Scan(s: Bytes): Scanned
    decreases |s|
  {
    match ReadNext(s)
    case Got(r, size) =>
      GotIsEncoded(s);
      EncodedSize(r);
      var rest := Scan(s[size..]);
      Scanned([r] + rest.records, rest.clean)
    case End => Scanned([], true)
    case Corrupt(_) => Scanned([], false)
  }

  /** One turn of a scan: an accepted record takes some of the bytes, and the scan goes on after it. */
  lemma ScanStep(s: Bytes)
    ensures ReadNext(s).End? ==> Scan(s) == Scanned([], true)
    ensures ReadNext(s).Corrupt? ==> Scan(s) == Scanned([], false)
    ensures ReadNext(s).Got? ==> 0 < ReadNext(s).size <= |s|
    ensures ReadNext(s).Got? ==>
      var rest := Scan(s[ReadNext(s).size..]); Scan(s) == Scanned([ReadNext(s).record] + rest.records, rest.clean)
  {
    hide ReadNext, Encode;
    if ReadNext(s).Got? {
      GotIsEncoded(s);
      EncodedSize(ReadNext(s).record);
    }
  }

  lemma OneMore(done: seq<Record>, r: Record, rest: seq<Record>)
    ensures done + ([r] + rest) == (done + [r]) + rest
  {
  }

  lemma {:induction false} EncodeAllSplit(a: seq<Record>, b: seq<Record>)
    ensures EncodeAll(a + b) == EncodeAll(a) + EncodeAll(b)
  {
    hide Encode;
    if a == [] {
      assert a + b == b;
    } else {
      assert (a + b)[1..] == a[1..] + b;
      EncodeAllSplit(a[1..], b);
    }
  }

  lemma EncodeAllOne(r: Record)
    ensures EncodeAll([r]) == Encode(r)
  {
    assert EncodeAll([r]) == Encode(r) + EncodeAll([]);
  }

  /** Scanning whole valid records gives them back and goes on with what follows. */
  lemma {:induction false} ScanReadsBack(rs: seq<Record>, rest: Bytes)
    requires AllValid(rs)
    ensures Scan(EncodeAll(rs) + rest) == Scanned(rs + Scan(rest).records, Scan(rest).clean)
  {
    hide Encode, ReadNext;
    if rs == [] {
      assert EncodeAll(rs) + rest == rest;
    } else {
      var s, e := EncodeAll(rs) + rest, Encode(rs[0]);
      assert s == e + (EncodeAll(rs[1..]) + rest);
      ReadsBack(rs[0], EncodeAll(rs[1..]) + rest);
      assert s[|e|..] == EncodeAll(rs[1..]) + rest;
      ScanReadsBack(rs[1..], rest);
    }
  }

  /** What a scan returns is always a run of valid records the file starts with. */
  lemma {:induction false} ScanSound(s: Bytes)
    ensures var rs := Scan(s).records; AllValid(rs) && EncodeAll(rs) <= s
    decreases |s|
  {
    hide Encode, ReadNext;
    if ReadNext(s).Got? {
      var r, size := ReadNext(s).record, ReadNext(s).size;
      GotIsEncoded(s);
      EncodedSize(r);
      ScanSound(s[size..]);
      var rest := Scan(s[size..]).records;
      assert Scan(s).records[1..] == rest;
      assert s == s[..size] + s[size..];
    }
  }

  // ----- Cutting the log anywhere

  /** How many whole records lie within the first `cut` bytes. */
  function Whole(rs: seq<Record>, cut: nat): (m: nat)
    ensures m <= |rs|
  {
    if rs == [] || cut < Size(rs[0]) then 0 else 1 + Whole(rs[1..], cut - Size(rs[0]))
  }

  /** It is the largest number of records whose encodings fit. */
  lemma {:induction false} WholeIsLongest(rs: seq<Record>, cut: nat)
    ensures var m := Whole(rs, cut);
      |EncodeAll(rs[..m])| <= cut && (m < |rs| ==> |EncodeAll(rs[..m + 1])| > cut)
  {
    hide Encode;
    var m := Whole(rs, cut);
    if rs != [] {
      EncodedSize(rs[0]);
      if m == 0 {
        assert rs[..1] == [rs[0]];
        EncodeAllOne(rs[0]);
      } else {
        WholeIsLongest(rs[1..], cut - Size(rs[0]));
        assert rs[..m][1..] == rs[1..][..m - 1];
        if m < |rs| { assert rs[..m + 1][1..] == rs[1..][..m]; }
      }
    }
  }

  /** Wherever the encoded log is cut, the scan ends cleanly with exactly the whole records. */
  lemma {:induction false} CutAnywhere(rs: seq<Record>, cut: nat)
    requires AllValid(rs) && cut <= |EncodeAll(rs)|
    ensures Scan(EncodeAll(rs)[..cut]) == Scanned(rs[..Whole(rs, cut)], true)
  {
    hide Encode, ReadNext;
    var s := EncodeAll(rs)[..cut];
    if rs == [] {
      EmptyIsEnd();
    } else {
      var e, m := Encode(rs[0]), Whole(rs, cut);
      EncodedSize(rs[0]);
      if cut < |e| {
        assert s == e[..cut];
        TornIsEnd(rs[0], cut);
      } else {
        var rest := EncodeAll(rs[1..])[..cut - |e|];
        assert s == e + rest;
        ReadsBack(rs[0], rest);
        assert s[|e|..] == rest;
        CutAnywhere(rs[1..], cut - |e|);
        assert rs[..m] == [rs[0]] + rs[1..][..m - 1];
      }
    }
  }

  lemma EmptyIsEnd()
    ensures ReadNext([]) == End
  {
  }

  /** Cutting is safe only at the end of the file: a record appended after a torn one is lost if
      the torn record's key claims it. */
  lemma AppendAfterTearIsLost(torn: Record, cut: nat, next: Record)
    requires Valid(torn) && HEADER <= cut < |Encode(torn)| && cut + Size(next) < 29 + |torn.key|
    ensures Scan(Encode(torn)[..cut] + Encode(next)) == Scanned([], true)
  {
    hide Encode, BE, FromBE;
    Layout(torn);
    EncodedSize(next);
    FieldBack(|torn.key|, 4);
    var s := Encode(torn)[..cut] + Encode(next);
    assert s[21..25] == Encode(torn)[21..25];
  }

  /** After any torn bytes `t` there is a valid record, with any index, that is not read back. */
  lemma TornHidesSome(t: Bytes, index: nat) returns (r: Record)
    requires t != [] && index < U64
    ensures Valid(r) && r.index == index && !(Encode(r) <= t + Encode(r))
  {
    if |t| < 31 { r := ShortTear(t, index); } else { r := LongTear(t, index); }
  }

  lemma ShortTear(t: Bytes, index: nat) returns (r: Record)
    requires 0 < |t| < 31 && index < U64
    ensures Valid(r) && r.index == index && !(Encode(r) <= t + Encode(r))
  {
    hide Encode;
    var zeros: Bytes := seq(|t|, _ => 0);
    r := Record(0, index, Set, zeros + [1], [1]);
    KeyWithin(r);
    if Encode(r) <= t + Encode(r) {
      Repeats(t, Encode(r), 25, r.key);
      assert false;
    }
  }

  lemma KeyWithin(r: Record)
    ensures |Encode(r)| == Size(r) && r.key <= Encode(r)[25..]
  {
    Layout(r);
  }

  lemma LongTear(t: Bytes, index: nat) returns (r: Record)
    requires |t| >= 31 && index < U64
    ensures Valid(r) && r.index == index && !(Encode(r) <= t + Encode(r))
  {
    hide Encode;
    var one, two := Record(0, index, Set, [1], [1]), Record(0, index, Set, [1], [2]);
    LastByte(one);
    LastByte(two);
    r := if Encode(one) <= t then two else one;
    assert (t + Encode(r))[..31] == t[..31];
  }

  lemma LastByte(r: Record)
    requires |r.key| == 1 && |r.value| == 1
    ensures |Encode(r)| == 31 && Encode(r)[30] == r.value[0]
  {
    Layout(r);
    assert Encode(r)[30] == Encode(r)[30..][0];
  }

  /** A string that starts a repetition of itself after `t` has `t`'s length as a period. */
  lemma Repeats(t: Bytes, e: Bytes, at: nat, key: Bytes)
    requires t != [] && e <= t + e && at + |t| < |e| && key <= e[at..] && |key| > |t|
    ensures key[|t|] == key[0]
  {
    assert key[0] == e[at] && key[|t|] == e[at + |t|];
    assert (t + e)[at + |t|] == e[at];
  }

  /** Appending to a file is safe exactly if the file is nothing but the records found in it: then every
      valid record written at its end is found by the next scan, and otherwise some are not. */
  lemma AppendSafeIff(s: Bytes, index: nat)
    requires Scan(s).clean && index < U64
    ensures EncodeAll(Scan(s).records) == s <==>
      forall r | Valid(r) && r.index == index :: Scan(s + Encode(r)) == Scanned(Scan(s).records + [r], true)
  {
    hide Encode, EncodeAll, ReadNext, Valid, Scan;
    var rs := Scan(s).records;
    ScanSound(s);
    if EncodeAll(rs) == s {
      forall r | Valid(r) && r.index == index ensures Scan(s + Encode(r)) == Scanned(rs + [r], true) {
        WholeAppend(rs, r);
      }
    } else {
      var t := s[|EncodeAll(rs)|..];
      assert s == EncodeAll(rs) + t;
      var r := TornHidesSome(t, index);
      TornAppend(rs, t, r);
    }
  }

  lemma WholeAppend(rs: seq<Record>, r: Record)
    requires AllValid(rs) && Valid(r)
    ensures Scan(EncodeAll(rs) + Encode(r)) == Scanned(rs + [r], true)
  {
    hide Encode, EncodeAll, ReadNext, Valid, Scan;
    EncodeAllSplit(rs, [r]);
    EncodeAllOne(r);
    ScanReadsBack(rs + [r], []);
    assert EncodeAll(rs + [r]) + [] == EncodeAll(rs) + Encode(r) && rs + [r] + [] == rs + [r];
    EmptyIsEnd();
    ScanStep([]);
  }

  lemma TornAppend(rs: seq<Record>, t: Bytes, r: Record)
    requires AllValid(rs) && !(Encode(r) <= t + Encode(r))
    ensures Scan(EncodeAll(rs) + t + Encode(r)) != Scanned(rs + [r], true)
  {
    hide Encode, EncodeAll, ReadNext, Valid, Scan;
    var rest := t + Encode(r);
    assert EncodeAll(rs) + t + Encode(r) == EncodeAll(rs) + rest;
    ScanReadsBack(rs, rest);
    ScanStep(rest);
    if ReadNext(rest).Got? {
      GotIsEncoded(rest);
      assert Scan(rest).records[0] == ReadNext(rest).record;
      assert ReadNext(rest).record != r;
    }
    assert Scan(rest).records != [r];
    assert (rs + Scan(rest).records)[|rs|..] == Scan(rest).records && (rs + [r])[|rs|..] == [r];
  }

  // ----- What the records mean

  function EntryOf(r: Record): Entry {
    Entry(r.term, r.op, r.key, r.value)
  }

  function Entries(rs: seq<Record>): (log: Log)
    ensures |log| == |rs|
  {
    seq(|rs|, i requires 0 <= i < |rs| => EntryOf(rs[i]))
  }

  lemma EntriesNext(rs: seq<Record>, r: Record)
    ensures Entries(rs + [r]) == Entries(rs) + [EntryOf(r)]
  {
  }

  lemma ReplayRecord(rs: seq<Record>, r: Record)
    ensures Replay(Entries(rs + [r])) == ApplyEntry(Replay(Entries(rs)), EntryOf(r))
  {
    EntriesNext(rs, r);
    assert (Entries(rs) + [EntryOf(r)])[..|rs|] == Entries(rs);
  }
}
