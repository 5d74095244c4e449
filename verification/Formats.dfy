/** The bytes of every format, field by field, with the positions and numbers that the protocol and
    the log fix, and the decoders' verdicts read off those positions. */
module Formats {
  import opened Bytes
  import opened Codec
  import opened RpcCodec
  import opened Wire
  import F = Frames
  import R = RaftSteps
  import W = WalRecord

  // ----- Small fields

  lemma OneByteField(v: nat)
    requires v < 256
    ensures BE(v, 1) == [v]
  {
    assert BE(v, 1) == BE(v / 256, 0) + [v % 256];
  }

  lemma TwoByteField(v: nat)
    requires v < 0x1_0000
    ensures BE(v, 2) == [v / 256, v % 256]
  {
    OneByteField(v / 256);
    assert BE(v, 2) == BE(v / 256, 1) + [v % 256];
  }

  lemma OneByteRead(b: Byte)
    ensures FromBE([b]) == b
  {
    assert FromBE([b]) == FromBE([]) * 256 + b;
  }

  lemma TwoBytesRead(s: Bytes)
    requires |s| == 2
    ensures FromBE(s) == (s[0] as int) * 256 + s[1]
  {
    OneByteRead(s[0]);
    assert s[..1] == [s[0]];
  }

  /** A field and what follows it, at a known position. */
  lemma Cut(s: Bytes, at: nat, field: Bytes, rest: Bytes)
    requires at <= |s| && s[at..] == field + rest
    ensures at + |field| <= |s| && s[at..at + |field|] == field && s[at + |field|..] == rest
  {
    assert s[at..at + |field|] == s[at..][..|field|];
    assert s[at + |field|..] == s[at..][|field|..];
  }

  lemma PrefixedThen(b: Bytes, rest: Bytes)
    ensures Prefixed(b) + rest == BE(|b|, 4) + (b + rest)
  {
    hide BE;
  }

  // ----- The four payloads

  lemma ClientRequestBytes(m: ClientRequest)
    ensures var s := ClientRequestPayload(m); var k := |m.key|;
      && |s| == 17 + k + |m.value|
      && s[..8] == BE(m.id, 8)
      && s[8] == (match m.opcode case OpSet => 1 case OpGet => 2 case OpDelete => 3)
      && s[9..13] == BE(k, 4) && s[13..13 + k] == m.key
      && s[13 + k..17 + k] == BE(|m.value|, 4) && s[17 + k..] == m.value
  {
    OneByteField(OpcodeOf(m.opcode));
    hide BE;
    var s, k := ClientRequestPayload(m), |m.key|;
    var code, values := BE(OpcodeOf(m.opcode), 1), BE(|m.value|, 4) + m.value;
    PrefixedThen(m.key, values);
    assert Prefixed(m.value) + [] == values && s[0..] == s;
    Cut(s, 0, BE(m.id, 8), code + (BE(k, 4) + (m.key + values)));
    Cut(s, 8, code, BE(k, 4) + (m.key + values));
    Cut(s, 9, BE(k, 4), m.key + values);
    Cut(s, 13, m.key, values);
    Cut(s, 13 + k, BE(|m.value|, 4), m.value);
  }

  lemma ClientResponseBytes(m: ClientResponse)
    ensures var s := ClientResponsePayload(m); var v := |m.value|;
      && |s| == 18 + v
      && s[..8] == BE(m.id, 8)
      && s[8] == 0
      && s[9] == (match m.status
                  case Ok => 0 case NotFound => 1 case BadRequest => 2 case InternalError => 3 case WrongLeader => 4)
      && s[10..14] == BE(v, 4) && s[14..14 + v] == m.value && s[14 + v..] == BE(m.leaderHint, 4)
  {
    TwoByteField(StatusOf(m.status));
    hide BE;
    var s, v := ClientResponsePayload(m), |m.value|;
    var code, hint := BE(StatusOf(m.status), 2), BE(m.leaderHint, 4);
    PrefixedThen(m.value, hint);
    assert hint + [] == hint && s[0..] == s;
    Cut(s, 0, BE(m.id, 8), code + (BE(v, 4) + (m.value + hint)));
    Cut(s, 8, code, BE(v, 4) + (m.value + hint));
    Cut(s, 10, BE(v, 4), m.value + hint);
    Cut(s, 14, m.value, hint);
  }

  lemma ClusterRequestBytes(m: ClusterRequest)
    ensures var s := ClusterRequestPayload(m);
      && |s| == 13 + |m.body|
      && s[..8] == BE(m.id, 8)
      && s[8] == (match m.opcode case Ping => 1 case Pong => 2 case RequestVote => 3 case AppendEntries => 4)
      && s[9..13] == BE(|m.body|, 4) && s[13..] == m.body
  {
    OneByteField(ClusterOpcodeOf(m.opcode));
    hide BE;
  }

  lemma ClusterResponseBytes(m: ClusterResponse)
    ensures var s := ClusterResponsePayload(m);
      && |s| == 14 + |m.body|
      && s[..8] == BE(m.id, 8)
      && s[8] == 0
      && s[9] == (match m.status
                  case Ok => 0 case NotFound => 1 case BadRequest => 2 case InternalError => 3 case WrongLeader => 4)
      && s[10..14] == BE(|m.body|, 4) && s[14..] == m.body
  {
    TwoByteField(StatusOf(m.status));
    hide BE;
  }

  // ----- Which payloads decode

  /** Exactly the payloads with a known opcode, a key, a value if and only if the opcode is 1, and
      lengths that add up. */
  lemma ClientRequestDecodes(p: Bytes)
    ensures DecodeClientRequest(p).Some? <==>
      && |p| >= 17 && 1 <= p[8] <= 3
      && var k := FromBE(p[9..13]);
      && 0 < k <= |p| - 17
      && var v := FromBE(p[13 + k..17 + k]);
      && |p| == 17 + k + v && (p[8] == 1 <==> v > 0)
  {
    hide FromBE;
    if |p| >= 13 {
      assert p[8..][..1] == [p[8]];
      OneByteRead(p[8]);
      assert p[8..][1..] == p[9..];
      assert p[9..][..4] == p[9..13];
      var k := FromBE(p[9..13]);
      if k <= |p| - 17 {
        assert p[9..][4..][..k] == p[13..13 + k] && p[9..][4..][k..] == p[13 + k..];
        assert p[13 + k..][..4] == p[13 + k..17 + k];
      }
    }
  }

  /** Exactly the payloads with a status up to 4 and lengths that add up. */
  lemma ClientResponseDecodes(p: Bytes)
    ensures DecodeClientResponse(p).Some? <==>
      |p| >= 18 && p[8] == 0 && p[9] <= 4 && |p| == 18 + FromBE(p[10..14])
  {
    hide FromBE;
    if |p| >= 14 {
      assert p[8..][..2] == p[8..10];
      TwoBytesRead(p[8..10]);
      assert p[8..][2..] == p[10..] && p[10..][..4] == p[10..14];
      var v := FromBE(p[10..14]);
      if v <= |p| - 14 {
        assert p[10..][4..][v..] == p[14 + v..];
      }
    }
  }

  lemma ClusterRequestDecodes(p: Bytes)
    ensures DecodeClusterRequest(p).Some? <==>
      |p| >= 13 && 1 <= p[8] <= 4 && |p| == 13 + FromBE(p[9..13])
  {
    hide FromBE;
    if |p| >= 13 {
      assert p[8..][..1] == [p[8]];
      OneByteRead(p[8]);
      assert p[8..][1..] == p[9..] && p[9..][..4] == p[9..13];
    }
  }

  lemma ClusterResponseDecodes(p: Bytes)
    ensures DecodeClusterResponse(p).Some? <==>
      |p| >= 14 && p[8] == 0 && p[9] <= 4 && |p| == 14 + FromBE(p[10..14])
  {
    hide FromBE;
    if |p| >= 14 {
      assert p[8..][..2] == p[8..10];
      TwoBytesRead(p[8..10]);
      assert p[8..][2..] == p[10..] && p[10..][..4] == p[10..14];
    }
  }

  // ----- Frames

  lemma FrameBytes(m: F.Message)
    ensures F.Encode(m).Some? <==>
      && |F.Payload(m)| <= 16777216
      && (m.ClientAsk? ==> m.clientReq.key != [] && (m.clientReq.opcode == OpSet <==> m.clientReq.value != []))
    ensures F.Encode(m).Some? ==>
      var s, p := F.Encode(m).value, F.Payload(m);
      && |s| == 8 + |p|
      && s[0] == 0x4E && s[1] == 0x4B && s[2] == 1
      && s[3] == (match m case ClientAsk(_) => 0x01 case ClientAnswer(_) => 0x02
                          case ClusterAsk(_) => 0x10 case ClusterAnswer(_) => 0x11)
      && s[4..8] == BE(|p|, 4) && s[8..] == p
      && p == (match m case ClientAsk(r) => ClientRequestPayload(r) case ClientAnswer(r) => ClientResponsePayload(r)
                       case ClusterAsk(r) => ClusterRequestPayload(r) case ClusterAnswer(r) => ClusterResponsePayload(r))
  {
    TwoByteField(0x4E4B);
    var p := F.Payload(m);
    F.FrameLayout(F.TypeOf(m), p, []);
    var s := F.Frame(F.TypeOf(m), p);
    assert s + [] == s;
    assert s[0] == s[..2][0] && s[1] == s[..2][1];
    assert s[8..] == s[8..8 + |p|];
    hide F.Frame, BE, ClientRequestPayload, ClientResponsePayload, ClusterRequestPayload, ClusterResponsePayload;
  }

  /** The first eight bytes announce a frame of at most 16 MiB. */
  predicate Announced(b: Bytes) {
    |b| >= 8 && b[0] == 0x4E && b[1] == 0x4B && b[2] == 1 && FromBE(b[4..8]) <= 16777216
  }

  /** The payload decodes as the message that the type byte names. */
  predicate Decodes(kind: Byte, p: Bytes) {
    || (kind == 0x01 && DecodeClientRequest(p).Some?) || (kind == 0x02 && DecodeClientResponse(p).Some?)
    || (kind == 0x10 && DecodeClusterRequest(p).Some?) || (kind == 0x11 && DecodeClusterResponse(p).Some?)
  }

  /** More bytes are awaited exactly for an incomplete header or an announced frame not yet whole; a
      message comes exactly from a whole frame that decodes; everything else is an error. */
  lemma ParseVerdict(b: Bytes)
    ensures F.Parse(b).NeedMore? <==> |b| < 8 || (Announced(b) && |b| < 8 + FromBE(b[4..8]))
    ensures F.Parse(b).Complete? <==>
      && Announced(b) && |b| >= 8 + FromBE(b[4..8])
      && Decodes(b[3], b[8..8 + FromBE(b[4..8])])
    ensures F.Parse(b).Complete? ==> F.Parse(b).size == 8 + FromBE(b[4..8])
  {
    hide FromBE, DecodeClientRequest, DecodeClientResponse, DecodeClusterRequest, DecodeClusterResponse;
    if |b| >= 8 {
      TwoBytesRead(b[..2]);
      assert b[..2][0] == b[0] && b[..2][1] == b[1];
    }
  }

  // ----- The bodies of the Raft calls

  lemma VoteRequestBytes(m: R.VoteRequest)
    ensures var s := VoteRequestBody(m);
      && |s| == 28
      && s[..8] == BE(m.term, 8) && s[8..12] == BE(m.candidate, 4)
      && s[12..20] == BE(m.lastLogIndex, 8) && s[20..] == BE(m.lastLogTerm, 8)
  {
    hide BE;
  }

  lemma FlagBytes(term: nat, flag: bool)
    ensures var s := FlagBody(term, flag);
      |s| == 9 && s[..8] == BE(term, 8) && s[8] == (if flag then 1 else 0)
  {
    OneByteField(if flag then 1 else 0);
    hide BE;
  }

  /** The bytes of one entry, at the front of `s`. */
  ghost predicate IsEntry(s: Bytes, r: W.Record) {
    var k, v := |r.key|, |r.value|;
    && |s| >= 25 + k + v
    && s[..8] == BE(r.term, 8) && s[8..16] == BE(r.index, 8)
    && s[16] == (match r.op case Set => 1 case Delete => 2)
    && s[17..21] == BE(k, 4) && s[21..21 + k] == r.key
    && s[21 + k..25 + k] == BE(v, 4) && s[25 + k..25 + k + v] == r.value
  }

  lemma EntryBytes(r: W.Record, rest: Bytes)
    ensures var s := EntryThen(r, rest);
      IsEntry(s, r) && s[25 + |r.key| + |r.value|..] == rest
  {
    OneByteField(W.OpCode(r.op));
    hide BE;
    var s, k, v := EntryThen(r, rest), |r.key|, |r.value|;
    var code := BE(W.OpCode(r.op), 1);
    var b4 := BE(v, 4) + (r.value + rest);
    var b3 := BE(k, 4) + (r.key + b4);
    PrefixedThen(r.key, b4);
    PrefixedThen(r.value, rest);
    assert s[0..] == s;
    Cut(s, 0, BE(r.term, 8), BE(r.index, 8) + (code + b3));
    Cut(s, 8, BE(r.index, 8), code + b3);
    Cut(s, 16, code, b3);
    Cut(s, 17, BE(k, 4), r.key + b4);
    Cut(s, 21, r.key, b4);
    Cut(s, 21 + k, BE(v, 4), r.value + rest);
    Cut(s, 25 + k, r.value, rest);
  }

  /** Where entry `i` starts, the first at byte 40. */
  function EntryOffset(rs: seq<W.Record>, i: nat): nat
    requires i <= |rs|
  {
    if i == 0 then 40 else EntryOffset(rs, i - 1) + 25 + |rs[i - 1].key| + |rs[i - 1].value|
  }

  /** What is left of the entries' bytes from entry `i` on. */
  lemma {:induction false} EntriesFrom(m: AppendBody, i: nat)
    requires i <= |m.entries|
    ensures var s, at := AppendRequestBody(m), EntryOffset(m.entries, i);
      at <= |s| && s[at..] == EntriesThen(m.entries[i..], [])
  {
    hide BE, EntryThen, IsEntry;
    var s := AppendRequestBody(m);
    if i == 0 {
      AppendHeader(m);
      assert m.entries[0..] == m.entries;
    } else {
      EntriesFrom(m, i - 1);
      var r, tail := m.entries[i - 1], m.entries[i - 1..];
      assert tail[0] == r && tail[1..] == m.entries[i..];
      var here := EntryThen(r, EntriesThen(m.entries[i..], []));
      EntryBytes(r, EntriesThen(m.entries[i..], []));
      EntryRoom(here, r);
      assert s[EntryOffset(m.entries, i)..] == here[25 + |r.key| + |r.value|..];
    }
  }

  lemma AppendHeader(m: AppendBody)
    ensures var s := AppendRequestBody(m);
      && |s| >= 40
      && s[..8] == BE(m.term, 8) && s[8..12] == BE(m.leader, 4)
      && s[12..20] == BE(m.prevIndex, 8) && s[20..28] == BE(m.prevTerm, 8)
      && s[28..36] == BE(m.leaderCommit, 8) && s[36..40] == BE(|m.entries|, 4)
      && s[40..] == EntriesThen(m.entries, [])
  {
    hide BE, EntriesThen;
    var s := AppendRequestBody(m);
    var b6 := EntriesThen(m.entries, []);
    var b5 := BE(|m.entries|, 4) + b6;
    var b4 := BE(m.leaderCommit, 8) + b5;
    var b3 := BE(m.prevTerm, 8) + b4;
    var b2 := BE(m.prevIndex, 8) + b3;
    var b1 := BE(m.leader, 4) + b2;
    assert s[0..] == s;
    Cut(s, 0, BE(m.term, 8), b1);
    Cut(s, 8, BE(m.leader, 4), b2);
    Cut(s, 12, BE(m.prevIndex, 8), b3);
    Cut(s, 20, BE(m.prevTerm, 8), b4);
    Cut(s, 28, BE(m.leaderCommit, 8), b5);
    Cut(s, 36, BE(|m.entries|, 4), b6);
  }

  lemma EntryRoom(s: Bytes, r: W.Record)
    requires IsEntry(s, r)
    ensures |s| >= 25 + |r.key| + |r.value|
  {
  }

  /** The header fields, then the entries one after the other, and nothing else. */
  lemma AppendRequestBytes(m: AppendBody)
    ensures var s := AppendRequestBody(m);
      && |s| == EntryOffset(m.entries, |m.entries|) && |s| >= 40
      && s[..8] == BE(m.term, 8) && s[8..12] == BE(m.leader, 4)
      && s[12..20] == BE(m.prevIndex, 8) && s[20..28] == BE(m.prevTerm, 8)
      && s[28..36] == BE(m.leaderCommit, 8) && s[36..40] == BE(|m.entries|, 4)
      && forall i: nat | i < |m.entries| ::
        EntryOffset(m.entries, i) <= |s| && IsEntry(s[EntryOffset(m.entries, i)..], m.entries[i])
  {
    hide BE, IsEntry, EntryThen;
    var s, n := AppendRequestBody(m), |m.entries|;
    AppendHeader(m);
    EntriesFrom(m, n);
    forall i: nat | i < n
      ensures EntryOffset(m.entries, i) <= |s| && IsEntry(s[EntryOffset(m.entries, i)..], m.entries[i])
    {
      EntriesFrom(m, i);
      assert m.entries[i..][0] == m.entries[i];
      EntryBytes(m.entries[i], EntriesThen(m.entries[i..][1..], []));
    }
  }

  // ----- The record of the write-ahead log

  lemma RecordBytes(r: W.Record)
    ensures var s := W.Encode(r); var k := |r.key|;
      && |s| == 29 + k + |r.value|
      && s[4..12] == BE(r.term, 8) && s[12..20] == BE(r.index, 8)
      && s[20] == (match r.op case Set => 1 case Delete => 2)
      && s[21..25] == BE(k, 4) && s[25..25 + k] == r.key
      && s[25 + k..29 + k] == BE(|r.value|, 4) && s[29 + k..] == r.value
  {
    W.Layout(r);
  }

  /** The header is there and its key length is not absurd. */
  predicate KeySized(s: Bytes) {
    |s| >= 25 && FromBE(s[21..25]) <= 67108864
  }

  /** The key and the length of the value are there and that length is not absurd. */
  predicate ValueSized(s: Bytes) {
    KeySized(s) && var k := FromBE(s[21..25]); |s| >= 29 + k && FromBE(s[25 + k..29 + k]) <= 67108864
  }

  /** The log ends exactly where a record is cut short before any of its lengths is absurd; an absurd
      length is corruption even when the rest is missing. */
  lemma ReadVerdict(s: Bytes)
    ensures W.ReadNext(s).End? <==>
      || |s| < 25
      || (KeySized(s) && |s| < 29 + FromBE(s[21..25]))
      || (ValueSized(s) && var k := FromBE(s[21..25]); |s| < 29 + k + FromBE(s[25 + k..29 + k]))
    ensures W.ReadNext(s) == W.Corrupt(W.KeyLength) <==> |s| >= 25 && FromBE(s[21..25]) > 67108864
    ensures W.ReadNext(s) == W.Corrupt(W.ValueLength) <==>
      KeySized(s) && var k := FromBE(s[21..25]); |s| >= 29 + k && FromBE(s[25 + k..29 + k]) > 67108864
  {
    hide FromBE;
  }
}
