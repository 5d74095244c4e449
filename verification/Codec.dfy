/** The four client and cluster messages: encoders, decoders, and that they are exact inverses. */
module Codec {
  import opened Bytes
  import opened Options
  import opened Wire

  const MAX_PAYLOAD := 16 * 1024 * 1024

  datatype Opcode = OpSet | OpGet | OpDelete
  datatype ResponseStatus = Ok | NotFound | BadRequest | InternalError | WrongLeader
  datatype ClusterOpcode = Ping | Pong | RequestVote | AppendEntries

  datatype ClientRequest = ClientRequest(id: nat, opcode: Opcode, key: Bytes, value: Bytes)
  datatype ClientResponse = ClientResponse(id: nat, status: ResponseStatus, value: Bytes, leaderHint: nat)
  datatype ClusterRequest = ClusterRequest(id: nat, opcode: ClusterOpcode, body: Bytes)
  datatype ClusterResponse = ClusterResponse(id: nat, status: ResponseStatus, body: Bytes)

  // ----- Codes

  function OpcodeOf(op: Opcode): nat {
    match op
    case OpSet => 1
    case OpGet => 2
    case OpDelete => 3
  }

  function ToOpcode(code: nat): Option<Opcode> {
    if code == 1 then Some(OpSet) else if code == 2 then Some(OpGet) else if code == 3 then Some(OpDelete) else None
  }

  function StatusOf(s: ResponseStatus): nat {
    match s
    case Ok => 0
    case NotFound => 1
    case BadRequest => 2
    case InternalError => 3
    case WrongLeader => 4
  }

  function ToStatus(code: nat): Option<ResponseStatus> {
    if code == 0 then Some(Ok) else if code == 1 then Some(NotFound) else if code == 2 then Some(BadRequest)
    else if code == 3 then Some(InternalError) else if code == 4 then Some(WrongLeader) else None
  }

  function ClusterOpcodeOf(op: ClusterOpcode): nat {
    match op
    case Ping => 1
    case Pong => 2
    case RequestVote => 3
    case AppendEntries => 4
  }

  function ToClusterOpcode(code: nat): Option<ClusterOpcode> {
    if code == 1 then Some(Ping) else if code == 2 then Some(Pong) else if code == 3 then Some(RequestVote)
    else if code == 4 then Some(AppendEntries) else None
  }

  // ----- Client requests

  /** A SET carries a value and the other two do not. */
  predicate ValueFits(op: Opcode, value: Bytes) {
    op == OpSet <==> value != []
  }

  predicate ValidClientRequest(m: ClientRequest) {
    m.id < U64 && 0 < |m.key| < U32 && |m.value| < U32 && ValueFits(m.opcode, m.value)
  }

  function ClientRequestPayload(m: ClientRequest): Bytes {
    BE(m.id, 8) + (BE(OpcodeOf(m.opcode), 1) + (Prefixed(m.key) + (Prefixed(m.value) + [])))
  }

  function DecodeClientRequest(p: Bytes): Option<ClientRequest> {
    var (id, p1) :- Num(p, 8);
    var (code, p2) :- Num(p1, 1);
    var op :- ToOpcode(code);
    var (key, value) :- KeyAndValue(p2, op);
    Some(ClientRequest(id, op, key, value))
  }

  /** A non-empty key and a value that suits the opcode, and nothing after them. */
  function KeyAndValue(s: Bytes, op: Opcode): Option<(Bytes, Bytes)> {
    var (key, s1) :- Blob(s);
    if key == [] then None
    else
      var (value, s2) :- Blob(s1);
      if s2 != [] || !ValueFits(op, value) then None else Some((key, value))
  }

  lemma ClientRequestBack(m: ClientRequest)
    requires ValidClientRequest(m)
    ensures DecodeClientRequest(ClientRequestPayload(m)) == Some(m)
  {
    hide Num, Blob, BE, Prefixed;
    Widths();
    NumBack(m.id, 8, BE(OpcodeOf(m.opcode), 1) + (Prefixed(m.key) + (Prefixed(m.value) + [])));
    NumBack(OpcodeOf(m.opcode), 1, Prefixed(m.key) + (Prefixed(m.value) + []));
    BlobBack(m.key, Prefixed(m.value) + []);
    BlobBack(m.value, []);
  }

  lemma ClientRequestOnly(p: Bytes)
    requires DecodeClientRequest(p).Some?
    ensures var m := DecodeClientRequest(p).value; ValidClientRequest(m) && p == ClientRequestPayload(m)
  {
    hide Num, Blob, BE, Prefixed;
    Widths();
    NumOnly(p, 8);
    var (id, p1) := Num(p, 8).value;
    NumOnly(p1, 1);
    var (code, p2) := Num(p1, 1).value;
    BlobOnly(p2);
    BlobOnly(Blob(p2).value.1);
  }

  /** A payload decodes to `m` exactly when it is the encoding of the valid message `m`. */
  lemma ClientRequestExact(p: Bytes, m: ClientRequest)
    ensures DecodeClientRequest(p) == Some(m) <==> ValidClientRequest(m) && p == ClientRequestPayload(m)
  {
    hide DecodeClientRequest, ClientRequestPayload;
    if ValidClientRequest(m) { ClientRequestBack(m); }
    if DecodeClientRequest(p).Some? { ClientRequestOnly(p); }
  }

  // ----- Client responses

  predicate ValidClientResponse(m: ClientResponse) {
    m.id < U64 && |m.value| < U32 && m.leaderHint < U32
  }

  function ClientResponsePayload(m: ClientResponse): Bytes {
    BE(m.id, 8) + (BE(StatusOf(m.status), 2) + (Prefixed(m.value) + (BE(m.leaderHint, 4) + [])))
  }

  function DecodeClientResponse(p: Bytes): Option<ClientResponse> {
    var (id, p1) :- Num(p, 8);
    var (code, p2) :- Num(p1, 2);
    var status :- ToStatus(code);
    var (value, p3) :- Blob(p2);
    var (hint, p4) :- Num(p3, 4);
    if p4 != [] then None else Some(ClientResponse(id, status, value, hint))
  }

  lemma ClientResponseExact(p: Bytes, m: ClientResponse)
    ensures DecodeClientResponse(p) == Some(m) <==> ValidClientResponse(m) && p == ClientResponsePayload(m)
  {
    hide DecodeClientResponse, ClientResponsePayload;
    if ValidClientResponse(m) { ClientResponseBack(m); }
    if DecodeClientResponse(p).Some? { ClientResponseOnly(p); }
  }

  lemma ClientResponseBack(m: ClientResponse)
    requires ValidClientResponse(m)
    ensures DecodeClientResponse(ClientResponsePayload(m)) == Some(m)
  {
    hide Num, Blob, BE, Prefixed;
    Widths();
    NumBack(m.id, 8, BE(StatusOf(m.status), 2) + (Prefixed(m.value) + (BE(m.leaderHint, 4) + [])));
    NumBack(StatusOf(m.status), 2, Prefixed(m.value) + (BE(m.leaderHint, 4) + []));
    BlobBack(m.value, BE(m.leaderHint, 4) + []);
    NumBack(m.leaderHint, 4, []);
  }

  lemma ClientResponseOnly(p: Bytes)
    requires DecodeClientResponse(p).Some?
    ensures var m := DecodeClientResponse(p).value; ValidClientResponse(m) && p == ClientResponsePayload(m)
  {
    hide Num, Blob, BE, Prefixed;
    Widths();
    NumOnly(p, 8);
    var (id, p1) := Num(p, 8).value;
    NumOnly(p1, 2);
    var (code, p2) := Num(p1, 2).value;
    BlobOnly(p2);
    NumOnly(Blob(p2).value.1, 4);
  }

  // ----- Cluster requests

  predicate ValidClusterRequest(m: ClusterRequest) {
    m.id < U64 && |m.body| < U32
  }

  function ClusterRequestPayload(m: ClusterRequest): Bytes {
    BE(m.id, 8) + (BE(ClusterOpcodeOf(m.opcode), 1) + (Prefixed(m.body) + []))
  }

  function DecodeClusterRequest(p: Bytes): Option<ClusterRequest> {
    var (id, p1) :- Num(p, 8);
    var (code, p2) :- Num(p1, 1);
    var op :- ToClusterOpcode(code);
    var (body, p3) :- Blob(p2);
    if p3 != [] then None else Some(ClusterRequest(id, op, body))
  }

  lemma ClusterRequestExact(p: Bytes, m: ClusterRequest)
    ensures DecodeClusterRequest(p) == Some(m) <==> ValidClusterRequest(m) && p == ClusterRequestPayload(m)
  {
    hide Num, Blob, BE, Prefixed;
    Widths();
    if ValidClusterRequest(m) {
      NumBack(m.id, 8, BE(ClusterOpcodeOf(m.opcode), 1) + (Prefixed(m.body) + []));
      NumBack(ClusterOpcodeOf(m.opcode), 1, Prefixed(m.body) + []);
      BlobBack(m.body, []);
    }
    if DecodeClusterRequest(p).Some? {
      NumOnly(p, 8);
      NumOnly(Num(p, 8).value.1, 1);
      BlobOnly(Num(Num(p, 8).value.1, 1).value.1);
    }
  }

  // ----- Cluster responses

  predicate ValidClusterResponse(m: ClusterResponse) {
    m.id < U64 && |m.body| < U32
  }

  function ClusterResponsePayload(m: ClusterResponse): Bytes {
    BE(m.id, 8) + (BE(StatusOf(m.status), 2) + (Prefixed(m.body) + []))
  }

  function DecodeClusterResponse(p: Bytes): Option<ClusterResponse> {
    var (id, p1) :- Num(p, 8);
    var (code, p2) :- Num(p1, 2);
    var status :- ToStatus(code);
    var (body, p3) :- Blob(p2);
    if p3 != [] then None else Some(ClusterResponse(id, status, body))
  }

  lemma ClusterResponseExact(p: Bytes, m: ClusterResponse)
    ensures DecodeClusterResponse(p) == Some(m) <==> ValidClusterResponse(m) && p == ClusterResponsePayload(m)
  {
    hide Num, Blob, BE, Prefixed;
    Widths();
    if ValidClusterResponse(m) {
      NumBack(m.id, 8, BE(StatusOf(m.status), 2) + (Prefixed(m.body) + []));
      NumBack(StatusOf(m.status), 2, Prefixed(m.body) + []);
      BlobBack(m.body, []);
    }
    if DecodeClusterResponse(p).Some? {
      NumOnly(p, 8);
      NumOnly(Num(p, 8).value.1, 2);
      BlobOnly(Num(Num(p, 8).value.1, 2).value.1);
    }
  }

  // ----- The decoders: an offset that moves field by field

  method ReadClientRequest(payload: Bytes) returns (r: Option<ClientRequest>)
    ensures r == DecodeClientRequest(payload)
  {
    hide Num, KeyAndValue, ToOpcode;
    var in_ := new Reader(payload);
    var id := in_.ReadNum(8);
    if id.None? { return None; }
    var code := in_.ReadNum(1);
    if code.None? { return None; }
    var op := ToOpcode(code.value);
    if op.None? { return None; }
    var pair := ReadKeyAndValue(in_, op.value);
    return if pair.None? then None else Some(ClientRequest(id.value, op.value, pair.value.0, pair.value.1));
  }

  method ReadKeyAndValue(in_: Reader, op: Opcode) returns (r: Option<(Bytes, Bytes)>)
    requires in_.Valid()
    modifies in_
    ensures r == KeyAndValue(old(in_.Rest()), op)
  {
    hide Blob;
    var key := in_.ReadBlob();
    if key.None? || key.value == [] { return None; }
    var value := in_.ReadBlob();
    if value.None? { return None; }
    var end := in_.AtEnd();
    if !end { return None; }
    if op == OpSet && value.value == [] { return None; }
    if op != OpSet && value.value != [] { return None; }
    return Some((key.value, value.value));
  }

  method ReadClientResponse(payload: Bytes) returns (r: Option<ClientResponse>)
    ensures r == DecodeClientResponse(payload)
  {
    hide Num, Blob, ToOpcode, ToStatus, ToClusterOpcode;
    var in_ := new Reader(payload);
    var id := in_.ReadNum(8);
    if id.None? { return None; }
    var code := in_.ReadNum(2);
    if code.None? { return None; }
    var status := ToStatus(code.value);
    if status.None? { return None; }
    var value := in_.ReadBlob();
    if value.None? { return None; }
    var hint := in_.ReadNum(4);
    if hint.None? { return None; }
    var end := in_.AtEnd();
    if !end { return None; }
    return Some(ClientResponse(id.value, status.value, value.value, hint.value));
  }

  method ReadClusterRequest(payload: Bytes) returns (r: Option<ClusterRequest>)
    ensures r == DecodeClusterRequest(payload)
  {
    hide Num, Blob, ToOpcode, ToStatus, ToClusterOpcode;
    var in_ := new Reader(payload);
    var id := in_.ReadNum(8);
    if id.None? { return None; }
    var code := in_.ReadNum(1);
    if code.None? { return None; }
    var op := ToClusterOpcode(code.value);
    if op.None? { return None; }
    var body := in_.ReadBlob();
    if body.None? { return None; }
    var end := in_.AtEnd();
    if !end { return None; }
    return Some(ClusterRequest(id.value, op.value, body.value));
  }

  method ReadClusterResponse(payload: Bytes) returns (r: Option<ClusterResponse>)
    ensures r == DecodeClusterResponse(payload)
  {
    hide Num, Blob, ToOpcode, ToStatus, ToClusterOpcode;
    var in_ := new Reader(payload);
    var id := in_.ReadNum(8);
    if id.None? { return None; }
    var code := in_.ReadNum(2);
    if code.None? { return None; }
    var status := ToStatus(code.value);
    if status.None? { return None; }
    var body := in_.ReadBlob();
    if body.None? { return None; }
    var end := in_.AtEnd();
    if !end { return None; }
    return Some(ClusterResponse(id.value, status.value, body.value));
  }
}
