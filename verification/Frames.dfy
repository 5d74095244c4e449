/** Frames: a header with magic, version, type and length around each message, and the incremental
    parser that finds the next frame at the front of a buffer. */
module Frames {
  import opened Bytes
  import opened Codec
  import opened Options

  const MAGIC := 0x4E4B
  const VERSION := 1
  const HEADER := 8

  datatype Message =
    | ClientAsk(clientReq: ClientRequest)
    | ClientAnswer(clientResp: ClientResponse)
    | ClusterAsk(clusterReq: ClusterRequest)
    | ClusterAnswer(clusterResp: ClusterResponse)

  function TypeOf(m: Message): Byte {
    match m
    case ClientAsk(_) => 0x01
    case ClientAnswer(_) => 0x02
    case ClusterAsk(_) => 0x10
    case ClusterAnswer(_) => 0x11
  }

  function Payload(m: Message): Bytes {
    match m
    case ClientAsk(r) => ClientRequestPayload(r)
    case ClientAnswer(r) => ClientResponsePayload(r)
    case ClusterAsk(r) => ClusterRequestPayload(r)
    case ClusterAnswer(r) => ClusterResponsePayload(r)
  }

  /** The header fields and the payload, in order. */
  function Frame(kind: Byte, payload: Bytes): Bytes {
    BE(MAGIC, 2) + ([VERSION] + ([kind] + (BE(|payload|, 4) + payload)))
  }

  /** What the encoders check: a well-formed client request, and the payload size. */
  predicate Sendable(m: Message) {
    && (m.ClientAsk? ==> m.clientReq.key != [] && ValueFits(m.clientReq.opcode, m.clientReq.value))
    && |Payload(m)| <= MAX_PAYLOAD
  }

  /** What the field types guarantee. */
  predicate InRange(m: Message) {
    match m
    case ClientAsk(r) => r.id < U64
    case ClientAnswer(r) => r.id < U64 && r.leaderHint < U32
    case ClusterAsk(r) => r.id < U64
    case ClusterAnswer(r) => r.id < U64
  }

  function Encode(m: Message): Option<Bytes> {
    if Sendable(m) then Some(Frame(TypeOf(m), Payload(m))) else None
  }

  function Decode(kind: Byte, payload: Bytes): Option<Message> {
    if kind == 0x01 then var r :- DecodeClientRequest(payload); Some(ClientAsk(r))
    else if kind == 0x02 then var r :- DecodeClientResponse(payload); Some(ClientAnswer(r))
    else if kind == 0x10 then var r :- DecodeClusterRequest(payload); Some(ClusterAsk(r))
    else if kind == 0x11 then var r :- DecodeClusterResponse(payload); Some(ClusterAnswer(r))
    else None
  }

  datatype Parsed = NeedMore | Bad | Complete(message: Message, size: nat)

  function Parse(buffer: Bytes): Parsed {
    if |buffer| < HEADER then NeedMore
    else if FromBE(buffer[..2]) != MAGIC || buffer[2] != VERSION then Bad
    else
      var length := FromBE(buffer[4..8]);
      if length > MAX_PAYLOAD then Bad
      else if |buffer| < HEADER + length then NeedMore
      else
        match Decode(buffer[3], buffer[HEADER..HEADER + length])
        case None => Bad
        case Some(m) => Complete(m, HEADER + length)
  }

  // ----- Exact inverses

  /** Within the size limit a payload decodes to `m` exactly when it is the payload of the valid `m`. */
  lemma DecodeExact(kind: Byte, p: Bytes, m: Message)
    requires |p| <= MAX_PAYLOAD
    ensures Decode(kind, p) == Some(m) <==> kind == TypeOf(m) && p == Payload(m) && Sendable(m) && InRange(m)
  {
    hide DecodeClientRequest, DecodeClientResponse, DecodeClusterRequest, DecodeClusterResponse, BE;
    match m
    case ClientAsk(r) => ClientRequestExact(p, r); ClientRequestSizes(r);
    case ClientAnswer(r) => ClientResponseExact(p, r); ClientResponseSizes(r);
    case ClusterAsk(r) => ClusterRequestExact(p, r); ClusterRequestSizes(r);
    case ClusterAnswer(r) => ClusterResponseExact(p, r); ClusterResponseSizes(r);
  }

  lemma ClientRequestSizes(r: ClientRequest)
    ensures |ClientRequestPayload(r)| == 17 + |r.key| + |r.value|
  {
  }

  lemma ClientResponseSizes(r: ClientResponse)
    ensures |ClientResponsePayload(r)| == 18 + |r.value|
  {
  }

  lemma ClusterRequestSizes(r: ClusterRequest)
    ensures |ClusterRequestPayload(r)| == 13 + |r.body|
  {
  }

  lemma ClusterResponseSizes(r: ClusterResponse)
    ensures |ClusterResponsePayload(r)| == 14 + |r.body|
  {
  }

  lemma FrameLayout(kind: Byte, p: Bytes, rest: Bytes)
    ensures var f := Frame(kind, p) + rest;
      && |Frame(kind, p)| == HEADER + |p| && f[..2] == BE(MAGIC, 2) && f[2] == VERSION && f[3] == kind
      && f[4..8] == BE(|p|, 4) && f[HEADER..HEADER + |p|] == p
  {
    hide BE;
  }

  lemma FrameAssembled(f: Bytes, kind: Byte, p: Bytes)
    requires |f| == HEADER + |p| && f[..2] == BE(MAGIC, 2) && f[2] == VERSION && f[3] == kind
    requires f[4..8] == BE(|p|, 4) && f[HEADER..] == p
    ensures f == Frame(kind, p)
  {
    hide BE;
    assert f == f[..2] + ([f[2]] + ([f[3]] + (f[4..8] + f[HEADER..])));
  }

  lemma FieldBack(v: nat, width: nat)
    requires (width == 2 && v < 0x1_0000) || (width == 4 && v < U32)
    ensures FromBE(BE(v, width)) == v
  {
    Widths();
    ReadWritten(v, width);
  }

  /** The parser returns `m` exactly when the buffer starts with the encoding of a valid `m`. */
  lemma ParseExact(buffer: Bytes, m: Message)
    ensures Parse(buffer) == Complete(m, HEADER + |Payload(m)|) <==>
      InRange(m) && Encode(m).Some? && Encode(m).value <= buffer
  {
    hide BE, FromBE, Decode, Payload, Sendable;
    var p := Payload(m);
    if InRange(m) && Encode(m).Some? && Encode(m).value <= buffer {
      SendableSize(m);
      var f := Frame(TypeOf(m), p);
      assert buffer == f + buffer[|f|..];
      FrameLayout(TypeOf(m), p, buffer[|f|..]);
      FieldBack(MAGIC, 2);
      FieldBack(|p|, 4);
      DecodeExact(TypeOf(m), p, m);
    } else if Parse(buffer) == Complete(m, HEADER + |p|) {
      var length := FromBE(buffer[4..8]);
      DecodeExact(buffer[3], buffer[HEADER..HEADER + length], m);
      WriteRead(buffer[..2]);
      WriteRead(buffer[4..8]);
      var f := buffer[..HEADER + length];
      assert f[..2] == buffer[..2] && f[4..8] == buffer[4..8] && f[HEADER..] == buffer[HEADER..HEADER + length];
      FrameAssembled(f, buffer[3], p);
    }
  }

  lemma SendableSize(m: Message)
    requires Sendable(m)
    ensures |Payload(m)| <= MAX_PAYLOAD
  {
  }

  // ----- The encoders, the frame parser

  /** Header and payload pushed onto an empty buffer. */
  method WriteFrame(kind: Byte, payload: Bytes) returns (out: Bytes)
    ensures out == Frame(kind, payload)
  {
    hide BE;
    out := WriteBE([], MAGIC, 2);
    out := out + [VERSION];
    out := out + [kind];
    out := WriteBE(out, |payload|, 4);
    out := out + payload;
  }

  method EncodeClientRequest(r: ClientRequest) returns (out: Option<Bytes>)
    ensures out == Encode(ClientAsk(r))
  {
    hide BE, Frame;
    ClientRequestSizes(r);
    if r.key == [] { return None; }
    if r.opcode == OpSet && r.value == [] { return None; }
    if r.opcode != OpSet && r.value != [] { return None; }
    if 8 + 1 + 4 + |r.key| + 4 + |r.value| > MAX_PAYLOAD { return None; }
    var p := WriteBE([], r.id, 8);
    p := WriteBE(p, OpcodeOf(r.opcode), 1);
    p := WriteBE(p, |r.key|, 4);
    p := p + r.key;
    p := WriteBE(p, |r.value|, 4);
    p := p + r.value;
    assert p == ClientRequestPayload(r);
    var frame := WriteFrame(0x01, p);
    return Some(frame);
  }

  method EncodeClientResponse(r: ClientResponse) returns (out: Option<Bytes>)
    ensures out == Encode(ClientAnswer(r))
  {
    hide BE, Frame;
    ClientResponseSizes(r);
    if 8 + 2 + 4 + |r.value| + 4 > MAX_PAYLOAD { return None; }
    var p := WriteBE([], r.id, 8);
    p := WriteBE(p, StatusOf(r.status), 2);
    p := WriteBE(p, |r.value|, 4);
    p := p + r.value;
    p := WriteBE(p, r.leaderHint, 4);
    assert p == ClientResponsePayload(r);
    var frame := WriteFrame(0x02, p);
    return Some(frame);
  }

  method EncodeClusterRequest(r: ClusterRequest) returns (out: Option<Bytes>)
    ensures out == Encode(ClusterAsk(r))
  {
    hide BE, Frame;
    ClusterRequestSizes(r);
    if 8 + 1 + 4 + |r.body| > MAX_PAYLOAD { return None; }
    var p := WriteBE([], r.id, 8);
    p := WriteBE(p, ClusterOpcodeOf(r.opcode), 1);
    p := WriteBE(p, |r.body|, 4);
    p := p + r.body;
    assert p == ClusterRequestPayload(r);
    var frame := WriteFrame(0x10, p);
    return Some(frame);
  }

  method EncodeClusterResponse(r: ClusterResponse) returns (out: Option<Bytes>)
    ensures out == Encode(ClusterAnswer(r))
  {
    hide BE, Frame;
    ClusterResponseSizes(r);
    if 8 + 2 + 4 + |r.body| > MAX_PAYLOAD { return None; }
    var p := WriteBE([], r.id, 8);
    p := WriteBE(p, StatusOf(r.status), 2);
    p := WriteBE(p, |r.body|, 4);
    p := p + r.body;
    assert p == ClusterResponsePayload(r);
    var frame := WriteFrame(0x11, p);
    return Some(frame);
  }

  /** Look for one frame at the front of the buffer. A complete frame is removed, a malformed one
      empties the buffer, and otherwise the buffer stays. */
  method TryParseFrame(buffer: Bytes) returns (result: Parsed, left: Bytes)
    ensures result == Parse(buffer)
    ensures result.NeedMore? ==> left == buffer
    ensures result.Bad? ==> left == []
    ensures result.Complete? ==> HEADER <= result.size <= |buffer| && left == buffer[result.size..]
  {
    hide FromBE, DecodeClientRequest, DecodeClientResponse, DecodeClusterRequest, DecodeClusterResponse;
    if |buffer| < HEADER { return NeedMore, buffer; }
    var magic := ReadBE(buffer[..2]);
    if magic != MAGIC { return Bad, []; }
    if buffer[2] != VERSION { return Bad, []; }
    var kind := buffer[3];
    var length := ReadBE(buffer[4..8]);
    if length > MAX_PAYLOAD { return Bad, []; }
    if |buffer| < HEADER + length { return NeedMore, buffer; }
    var payload := buffer[HEADER..HEADER + length];
    var message := DecodePayload(kind, payload);
    if message.None? { return Bad, []; }
    return Complete(message.value, HEADER + length), buffer[HEADER + length..];
  }

  /** The switch on the message type. */
  method DecodePayload(kind: Byte, payload: Bytes) returns (message: Option<Message>)
    ensures message == Decode(kind, payload)
  {
    hide DecodeClientRequest, DecodeClientResponse, DecodeClusterRequest, DecodeClusterResponse;
    if kind == 0x01 {
      var r := ReadClientRequest(payload);
      return if r.None? then None else Some(ClientAsk(r.value));
    } else if kind == 0x02 {
      var r := ReadClientResponse(payload);
      return if r.None? then None else Some(ClientAnswer(r.value));
    } else if kind == 0x10 {
      var r := ReadClusterRequest(payload);
      return if r.None? then None else Some(ClusterAsk(r.value));
    } else if kind == 0x11 {
      var r := ReadClusterResponse(payload);
      return if r.None? then None else Some(ClusterAnswer(r.value));
    }
    return None;
  }
}
