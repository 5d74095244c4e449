/** The bodies of the Raft calls: encoders, decoders, and when the two are inverses. */
module RpcCodec {
  import opened Bytes
  import opened Logs
  import opened Options
  import opened WalRecord
  import opened Wire
  import R = RaftSteps

  // ----- RequestVote

  predicate ValidVoteRequest(m: R.VoteRequest) {
    m.term < U64 && m.candidate < U32 && m.lastLogIndex < U64 && m.lastLogTerm < U64
  }

  function VoteRequestBody(m: R.VoteRequest): Bytes {
    BE(m.term, 8) + (BE(m.candidate, 4) + (BE(m.lastLogIndex, 8) + (BE(m.lastLogTerm, 8) + [])))
  }

  function DecodeVoteRequest(s: Bytes): Option<R.VoteRequest> {
    var (term, s1) :- Num(s, 8);
    var (candidate, s2) :- Num(s1, 4);
    var (lastIndex, s3) :- Num(s2, 8);
    var (lastTerm, s4) :- Num(s3, 8);
    if s4 != [] then None else Some(R.VoteRequest(term, candidate, lastIndex, lastTerm))
  }

  lemma VoteRequestBack(m: R.VoteRequest)
    requires ValidVoteRequest(m)
    ensures DecodeVoteRequest(VoteRequestBody(m)) == Some(m)
  {
    hide Num, BE;
    Widths();
    NumBack(m.term, 8, BE(m.candidate, 4) + (BE(m.lastLogIndex, 8) + (BE(m.lastLogTerm, 8) + [])));
    NumBack(m.candidate, 4, BE(m.lastLogIndex, 8) + (BE(m.lastLogTerm, 8) + []));
    NumBack(m.lastLogIndex, 8, BE(m.lastLogTerm, 8) + []);
    NumBack(m.lastLogTerm, 8, []);
  }

  lemma VoteRequestOnly(s: Bytes)
    requires DecodeVoteRequest(s).Some?
    ensures var m := DecodeVoteRequest(s).value; ValidVoteRequest(m) && s == VoteRequestBody(m)
  {
    hide Num, BE;
    Widths();
    NumOnly(s, 8);
    var s1 := Num(s, 8).value.1;
    NumOnly(s1, 4);
    var s2 := Num(s1, 4).value.1;
    NumOnly(s2, 8);
    NumOnly(Num(s2, 8).value.1, 8);
  }

  /** A body decodes to `m` exactly when it is the encoding of `m`. */
  lemma VoteRequestExact(s: Bytes, m: R.VoteRequest)
    ensures DecodeVoteRequest(s) == Some(m) <==> ValidVoteRequest(m) && s == VoteRequestBody(m)
  {
    hide DecodeVoteRequest, VoteRequestBody;
    if ValidVoteRequest(m) { VoteRequestBack(m); }
    if DecodeVoteRequest(s).Some? { VoteRequestOnly(s); }
  }

  // ----- Responses: a term and a flag byte

  function FlagBody(term: nat, flag: bool): Bytes {
    BE(term, 8) + (BE(if flag then 1 else 0, 1) + [])
  }

  /** Any byte but zero reads as true. */
  function DecodeFlag(s: Bytes): Option<(nat, bool)> {
    var (term, s1) :- Num(s, 8);
    var (flag, s2) :- Num(s1, 1);
    if s2 != [] then None else Some((term, flag != 0))
  }

  lemma FlagBack(term: nat, flag: bool)
    requires term < U64
    ensures DecodeFlag(FlagBody(term, flag)) == Some((term, flag))
  {
    hide Num, BE;
    Widths();
    var bit := if flag then 1 else 0;
    NumBack(term, 8, BE(bit, 1) + []);
    NumBack(bit, 1, []);
  }

  /** Responses are not exact inverses: an accepted body is the encoding of what it decodes to if and
      only if its flag byte is 0 or 1. */
  lemma FlagExactIff(s: Bytes)
    requires DecodeFlag(s).Some?
    ensures |s| == 9
    ensures s == FlagBody(DecodeFlag(s).value.0, DecodeFlag(s).value.1) <==> s[8] <= 1
  {
    hide Num, BE;
    Widths();
    NumOnly(s, 8);
    var (term, s1) := Num(s, 8).value;
    NumOnly(s1, 1);
    var flag := Num(s1, 1).value.0;
    OneByte(flag);
    assert s == BE(term, 8) + [flag];
    OneByte(if flag != 0 then 1 else 0);
  }

  lemma OneByte(b: Byte)
    ensures BE(b, 1) == [b]
  {
    assert BE(b, 1) == BE(b / 256, 0) + [b % 256];
  }

  lemma OtherFlagAccepted()
    ensures var s := FlagBody(0, true)[8 := 2];
      DecodeFlag(s) == Some((0, true)) && s != FlagBody(0, true)
  {
    hide BE, FromBE;
    OneByte(1);
    OneByte(2);
    var s := FlagBody(0, true)[8 := 2];
    assert s == BE(0, 8) + (BE(2, 1) + []);
    Widths();
    NumBack(0, 8, BE(2, 1) + []);
    NumBack(2, 1, []);
  }

  // ----- Entries

  predicate ValidEntry(r: Record) {
    r.term < U64 && r.index < U64 && |r.key| < U32 && |r.value| < U32
  }

  /** One entry followed by `rest`. */
  function EntryThen(r: Record, rest: Bytes): Bytes {
    BE(r.term, 8) + (BE(r.index, 8) + (BE(OpCode(r.op), 1) + (Prefixed(r.key) + (Prefixed(r.value) + rest))))
  }

  function DecodeEntry(s: Bytes): Option<(Record, Bytes)> {
    var (term, s1) :- Num(s, 8);
    var (index, s2) :- Num(s1, 8);
    var (code, s3) :- Num(s2, 1);
    if code != 1 && code != 2 then None
    else
      var (key, s4) :- Blob(s3);
      var (value, s5) :- Blob(s4);
      Some((Record(term, index, if code == 1 then Set else Delete, key, value), s5))
  }

  lemma EntryBack(r: Record, rest: Bytes)
    requires ValidEntry(r)
    ensures DecodeEntry(EntryThen(r, rest)) == Some((r, rest))
  {
    hide Num, Blob, BE, Prefixed;
    Widths();
    var values := Prefixed(r.value) + rest;
    var keys := Prefixed(r.key) + values;
    NumBack(r.term, 8, BE(r.index, 8) + (BE(OpCode(r.op), 1) + keys));
    NumBack(r.index, 8, BE(OpCode(r.op), 1) + keys);
    NumBack(OpCode(r.op), 1, keys);
    BlobBack(r.key, values);
    BlobBack(r.value, rest);
  }

  lemma EntryOnly(s: Bytes)
    requires DecodeEntry(s).Some?
    ensures var (r, rest) := DecodeEntry(s).value; ValidEntry(r) && s == EntryThen(r, rest) && |rest| < |s|
  {
    hide Num, Blob, Prefixed;
    Widths();
    NumOnly(s, 8);
    var (term, s1) := Num(s, 8).value;
    NumOnly(s1, 8);
    var (index, s2) := Num(s1, 8).value;
    NumOnly(s2, 1);
    var (code, s3) := Num(s2, 1).value;
    BlobOnly(s3);
    BlobOnly(Blob(s3).value.1);
  }

  function EntriesThen(rs: seq<Record>, rest: Bytes): Bytes {
    if rs == [] then rest else EntryThen(rs[0], EntriesThen(rs[1..], rest))
  }

  function DecodeEntries(s: Bytes, n: nat): Option<(seq<Record>, Bytes)>
    decreases n
  {
    if n == 0 then Some(([], s))
    else
      var (r, s1) :- DecodeEntry(s);
      var (rs, s2) :- DecodeEntries(s1, n - 1);
      Some(([r] + rs, s2))
  }

  ghost predicate AllValidEntries(rs: seq<Record>) {
    forall r | r in rs :: ValidEntry(r)
  }

  lemma {:induction false} EntriesBack(rs: seq<Record>, rest: Bytes)
    requires AllValidEntries(rs)
    ensures DecodeEntries(EntriesThen(rs, rest), |rs|) == Some((rs, rest))
  {
    hide DecodeEntry, EntryThen;
    if rs != [] {
      EntryBack(rs[0], EntriesThen(rs[1..], rest));
      EntriesBack(rs[1..], rest);
      assert rs == [rs[0]] + rs[1..];
    }
  }

  lemma {:induction false} EntriesOnly(s: Bytes, n: nat)
    requires DecodeEntries(s, n).Some?
    ensures var (rs, rest) := DecodeEntries(s, n).value;
      |rs| == n && AllValidEntries(rs) && s == EntriesThen(rs, rest)
    decreases n
  {
    hide DecodeEntry, EntryThen;
    if n > 0 {
      EntryOnly(s);
      var (r, s1) := DecodeEntry(s).value;
      EntriesOnly(s1, n - 1);
      var (tail, rest) := DecodeEntries(s1, n - 1).value;
      assert ([r] + tail)[1..] == tail;
    }
  }

  // ----- AppendEntries

  datatype AppendBody = AppendBody(
    term: nat, leader: nat, prevIndex: nat, prevTerm: nat, leaderCommit: nat, entries: seq<Record>)

  ghost predicate ValidAppend(m: AppendBody) {
    && m.term < U64 && m.leader < U32 && m.prevIndex < U64 && m.prevTerm < U64 && m.leaderCommit < U64
    && |m.entries| < U32 && AllValidEntries(m.entries)
  }

  function AppendRequestBody(m: AppendBody): Bytes {
    BE(m.term, 8) + (BE(m.leader, 4) + (BE(m.prevIndex, 8) + (BE(m.prevTerm, 8) + (BE(m.leaderCommit, 8)
    + (BE(|m.entries|, 4) + EntriesThen(m.entries, []))))))
  }

  function DecodeAppendRequest(s: Bytes): Option<AppendBody> {
    var (term, s1) :- Num(s, 8);
    var (leader, s2) :- Num(s1, 4);
    var (prevIndex, s3) :- Num(s2, 8);
    var (prevTerm, s4) :- Num(s3, 8);
    var (commit, s5) :- Num(s4, 8);
    var (count, s6) :- Num(s5, 4);
    var (entries, s7) :- DecodeEntries(s6, count);
    if s7 != [] then None else Some(AppendBody(term, leader, prevIndex, prevTerm, commit, entries))
  }

  lemma AppendRequestBack(m: AppendBody)
    requires ValidAppend(m)
    ensures DecodeAppendRequest(AppendRequestBody(m)) == Some(m)
  {
    hide Num, BE, EntriesThen, DecodeEntries;
    Widths();
    var b6 := EntriesThen(m.entries, []);
    var b5 := BE(|m.entries|, 4) + b6;
    var b4 := BE(m.leaderCommit, 8) + b5;
    var b3 := BE(m.prevTerm, 8) + b4;
    var b2 := BE(m.prevIndex, 8) + b3;
    var b1 := BE(m.leader, 4) + b2;
    NumBack(m.term, 8, b1);
    NumBack(m.leader, 4, b2);
    NumBack(m.prevIndex, 8, b3);
    NumBack(m.prevTerm, 8, b4);
    NumBack(m.leaderCommit, 8, b5);
    NumBack(|m.entries|, 4, b6);
    EntriesBack(m.entries, []);
  }

  lemma AppendRequestOnly(s: Bytes)
    requires DecodeAppendRequest(s).Some?
    ensures var m := DecodeAppendRequest(s).value; ValidAppend(m) && s == AppendRequestBody(m)
  {
    hide Num, BE, EntriesThen, DecodeEntries, AllValidEntries;
    Widths();
    NumOnly(s, 8);
    var s1 := Num(s, 8).value.1;
    NumOnly(s1, 4);
    var s2 := Num(s1, 4).value.1;
    NumOnly(s2, 8);
    var s3 := Num(s2, 8).value.1;
    NumOnly(s3, 8);
    var s4 := Num(s3, 8).value.1;
    NumOnly(s4, 8);
    var s5 := Num(s4, 8).value.1;
    NumOnly(s5, 4);
    var (count, s6) := Num(s5, 4).value;
    EntriesOnly(s6, count);
  }

  /** A body decodes to `m` exactly when it is the encoding of `m`, with any number of entries. */
  lemma AppendRequestExact(s: Bytes, m: AppendBody)
    ensures DecodeAppendRequest(s) == Some(m) <==> ValidAppend(m) && s == AppendRequestBody(m)
  {
    hide DecodeAppendRequest, AppendRequestBody, ValidAppend;
    if ValidAppend(m) { AppendRequestBack(m); }
    if DecodeAppendRequest(s).Some? { AppendRequestOnly(s); }
  }

  // ----- The encoders, pushing onto a buffer, and the decoders, moving a cursor

  method WriteVoteRequest(m: R.VoteRequest) returns (out: Bytes)
    ensures out == VoteRequestBody(m)
  {
    hide BE;
    out := WriteBE([], m.term, 8);
    out := WriteBE(out, m.candidate, 4);
    out := WriteBE(out, m.lastLogIndex, 8);
    out := WriteBE(out, m.lastLogTerm, 8);
  }

  method ReadVoteRequest(body: Bytes) returns (r: Option<R.VoteRequest>)
    ensures r == DecodeVoteRequest(body)
  {
    hide Num;
    var in_ := new Reader(body);
    var term := in_.ReadNum(8);
    if term.None? { return None; }
    var candidate := in_.ReadNum(4);
    if candidate.None? { return None; }
    var lastIndex := in_.ReadNum(8);
    if lastIndex.None? { return None; }
    var lastTerm := in_.ReadNum(8);
    if lastTerm.None? { return None; }
    var end := in_.AtEnd();
    if !end { return None; }
    return Some(R.VoteRequest(term.value, candidate.value, lastIndex.value, lastTerm.value));
  }

  /** Both responses have this form. */
  method WriteFlag(term: nat, flag: bool) returns (out: Bytes)
    ensures out == FlagBody(term, flag)
  {
    hide BE;
    out := WriteBE([], term, 8);
    out := WriteBE(out, if flag then 1 else 0, 1);
  }

  method ReadFlag(body: Bytes) returns (r: Option<(nat, bool)>)
    ensures r == DecodeFlag(body)
  {
    hide Num;
    var in_ := new Reader(body);
    var term := in_.ReadNum(8);
    if term.None? { return None; }
    var flag := in_.ReadNum(1);
    if flag.None? { return None; }
    var end := in_.AtEnd();
    if !end { return None; }
    return Some((term.value, flag.value != 0));
  }

  method WriteEntry(buf: Bytes, r: Record) returns (out: Bytes)
    ensures out == buf + EntryThen(r, [])
  {
    hide BE;
    out := WriteBE(buf, r.term, 8);
    out := WriteBE(out, r.index, 8);
    out := WriteBE(out, OpCode(r.op), 1);
    out := WriteBE(out, |r.key|, 4);
    out := out + r.key;
    out := WriteBE(out, |r.value|, 4);
    out := out + r.value;
    assert out == buf + EntryThen(r, []);
  }

  lemma EntryThenRest(r: Record, rest: Bytes)
    ensures EntryThen(r, rest) == EntryThen(r, []) + rest
  {
    hide BE;
  }

  lemma {:induction false} EntriesThenRest(rs: seq<Record>, rest: Bytes)
    ensures EntriesThen(rs, rest) == EntriesThen(rs, []) + rest
  {
    hide EntryThen;
    if rs != [] {
      EntriesThenRest(rs[1..], rest);
      EntryThenRest(rs[0], EntriesThen(rs[1..], rest));
      EntryThenRest(rs[0], EntriesThen(rs[1..], []));
    }
  }

  lemma {:induction false} EntriesThenNext(rs: seq<Record>, r: Record)
    ensures EntriesThen(rs + [r], []) == EntriesThen(rs, []) + EntryThen(r, [])
  {
    hide EntryThen;
    if rs == [] {
      assert rs + [r] == [r];
      assert EntriesThen([r], []) == EntryThen(r, EntriesThen([], []));
    } else {
      assert (rs + [r])[1..] == rs[1..] + [r];
      EntriesThenNext(rs[1..], r);
      EntryThenRest(rs[0], EntriesThen(rs[1..] + [r], []));
      EntryThenRest(rs[0], EntriesThen(rs[1..], []));
    }
  }

  method WriteAppendRequest(m: AppendBody) returns (out: Bytes)
    ensures out == AppendRequestBody(m)
  {
    hide BE, EntryThen;
    out := WriteBE([], m.term, 8);
    out := WriteBE(out, m.leader, 4);
    out := WriteBE(out, m.prevIndex, 8);
    out := WriteBE(out, m.prevTerm, 8);
    out := WriteBE(out, m.leaderCommit, 8);
    out := WriteBE(out, |m.entries|, 4);
    ghost var head := out;
    for i := 0 to |m.entries|
      invariant out == head + EntriesThen(m.entries[..i], [])
    {
      out := WriteEntry(out, m.entries[i]);
      EntriesThenNext(m.entries[..i], m.entries[i]);
      assert m.entries[..i + 1] == m.entries[..i] + [m.entries[i]];
    }
    assert m.entries[..|m.entries|] == m.entries;
  }

  method ReadEntry(in_: Reader) returns (r: Option<Record>)
    requires in_.Valid()
    modifies in_
    ensures in_.Valid() && match DecodeEntry(old(in_.Rest()))
      case None => r == None
      case Some((e, rest)) => r == Some(e) && in_.Rest() == rest
  {
    hide Num, Blob;
    var term := in_.ReadNum(8);
    if term.None? { return None; }
    var index := in_.ReadNum(8);
    if index.None? { return None; }
    var code := in_.ReadNum(1);
    if code.None? { return None; }
    if code.value != 1 && code.value != 2 { return None; }
    var key := in_.ReadBlob();
    if key.None? { return None; }
    var value := in_.ReadBlob();
    if value.None? { return None; }
    return Some(Record(term.value, index.value, if code.value == 1 then Set else Delete, key.value, value.value));
  }

  /** The loop that fills the entry list. */
  method ReadEntries(in_: Reader, n: nat) returns (r: Option<seq<Record>>)
    requires in_.Valid()
    modifies in_
    ensures in_.Valid() && match DecodeEntries(old(in_.Rest()), n)
      case None => r == None
      case Some((rs, rest)) => r == Some(rs) && in_.Rest() == rest
  {
    hide DecodeEntry;
    var entries: seq<Record> := [];
    ghost var all := DecodeEntries(in_.Rest(), n);
    PrependNothing(all);
    for i := 0 to n
      invariant in_.Valid() && |entries| == i
      invariant all == Prepend(entries, DecodeEntries(in_.Rest(), n - i))
    {
      ghost var s := in_.Rest();
      var e := ReadEntry(in_);
      if e.None? { return None; }
      PrependMore(entries, e.value, DecodeEntries(in_.Rest(), n - i - 1));
      entries := entries + [e.value];
    }
    assert entries + [] == entries;
    return Some(entries);
  }

  function Prepend(rs: seq<Record>, r: Option<(seq<Record>, Bytes)>): Option<(seq<Record>, Bytes)> {
    if r.None? then None else Some((rs + r.value.0, r.value.1))
  }

  lemma PrependNothing(r: Option<(seq<Record>, Bytes)>)
    ensures Prepend([], r) == r
  {
    if r.Some? { assert [] + r.value.0 == r.value.0; }
  }

  lemma PrependMore(rs: seq<Record>, e: Record, r: Option<(seq<Record>, Bytes)>)
    ensures Prepend(rs + [e], r) == Prepend(rs, Prepend([e], r))
  {
    if r.Some? { assert rs + [e] + r.value.0 == rs + ([e] + r.value.0); }
  }

  method ReadAppendRequest(body: Bytes) returns (r: Option<AppendBody>)
    ensures r == DecodeAppendRequest(body)
  {
    hide Num, DecodeEntries;
    var in_ := new Reader(body);
    var term := in_.ReadNum(8);
    if term.None? { return None; }
    var leader := in_.ReadNum(4);
    if leader.None? { return None; }
    var prevIndex := in_.ReadNum(8);
    if prevIndex.None? { return None; }
    var prevTerm := in_.ReadNum(8);
    if prevTerm.None? { return None; }
    var commit := in_.ReadNum(8);
    if commit.None? { return None; }
    var count := in_.ReadNum(4);
    if count.None? { return None; }
    var entries := ReadEntries(in_, count.value);
    if entries.None? { return None; }
    var end := in_.AtEnd();
    if !end { return None; }
    return Some(AppendBody(term.value, leader.value, prevIndex.value, prevTerm.value, commit.value, entries.value));
  }
}
