/** One connection: bytes come in chunk by chunk, complete frames are answered in order, and how the
    stream was cut into chunks makes no difference. */
module Connection {
  import opened Bytes
  import opened Codec
  import opened Frames
  import opened Options

  /** The request handler: how it changes its own state and what it answers. */
  datatype Handler<!S> = Handler(
    client: (S, ClientRequest) -> (S, ClientResponse),
    cluster: (S, ClusterRequest) -> (S, ClusterResponse))

  /** The connection as a value: unread input, queued output, and the handler's state. */
  datatype Conn<S> = Conn(unread: Bytes, written: Bytes, closed: bool, state: S)

  /** Handle one message; no answer means the connection is to be closed. */
  function Answer<S>(h: Handler<S>, state: S, m: Message): (S, Option<Bytes>) {
    match m
    case ClientAsk(r) => var (state', resp) := h.client(state, r); (state', Encode(ClientAnswer(resp)))
    case ClusterAsk(r) => var (state', resp) := h.cluster(state, r); (state', Encode(ClusterAnswer(resp)))
    case _ => (state, None)
  }

  lemma ParseSize(buffer: Bytes)
    ensures Parse(buffer).Complete? ==> HEADER <= Parse(buffer).size <= |buffer|
  {
  }

  /** Answer frame after frame until the input runs dry or the connection must close. */
  function Drain<S>(h: Handler<S>, c: Conn<S>): Conn<S>
    decreases |c.unread|
  {
    match Parse(c.unread)
    case NeedMore => c
    case Bad => c.(unread := [], closed := true)
    case Complete(m, size) =>
      ParseSize(c.unread);
      var (state, reply) := Answer(h, c.state, m);
      var rest := c.(unread := c.unread[size..], state := state);
      if reply.None? then rest.(closed := true)
      else Drain(h, rest.(written := c.written + reply.value))
  }

  /** New input; a closed connection takes none. */
  function Receive<S>(h: Handler<S>, c: Conn<S>, chunk: Bytes): Conn<S> {
    if c.closed then c else Drain(h, c.(unread := c.unread + chunk))
  }

  function ReceiveAll<S>(h: Handler<S>, c: Conn<S>, chunks: seq<Bytes>): Conn<S>
    decreases |chunks|
  {
    if chunks == [] then c else ReceiveAll(h, Receive(h, c, chunks[0]), chunks[1..])
  }

  function Concat(chunks: seq<Bytes>): Bytes {
    if chunks == [] then [] else chunks[0] + Concat(chunks[1..])
  }

  /** The same for every observer: output, handler state, and whether it is closed; and, while it is
      open, the same input still to be read. */
  ghost predicate Same<S>(a: Conn<S>, b: Conn<S>) {
    && a.written == b.written && a.closed == b.closed && a.state == b.state
    && (!a.closed ==> a.unread == b.unread)
  }

  /** Nothing more can be done until more input comes. */
  ghost predicate Drained<S>(c: Conn<S>) {
    c.closed || Parse(c.unread) == NeedMore
  }

  /** Once decided, the parser's verdict does not depend on what comes later. */
  lemma VerdictStands(buffer: Bytes, more: Bytes)
    requires Parse(buffer) != NeedMore
    ensures Parse(buffer + more) == Parse(buffer)
  {
    hide Decode, FromBE;
    var all := buffer + more;
    assert all[..2] == buffer[..2] && all[4..8] == buffer[4..8];
    var length := FromBE(buffer[4..8]);
    if |buffer| >= HEADER + length {
      assert all[HEADER..HEADER + length] == buffer[HEADER..HEADER + length];
    }
  }

  lemma {:induction false} DrainDrains<S>(h: Handler<S>, c: Conn<S>)
    requires !c.closed
    ensures Drained(Drain(h, c))
    decreases |c.unread|
  {
    hide Parse, Answer;
    var p := Parse(c.unread);
    if p.Complete? {
      ParseSize(c.unread);
      var (state, reply) := Answer(h, c.state, p.message);
      if reply.Some? {
        DrainDrains(h, c.(unread := c.unread[p.size..], state := state, written := c.written + reply.value));
      }
    }
  }

  /** Draining early and then receiving the rest is the same as draining all at once. */
  lemma {:induction false} DrainSplit<S>(h: Handler<S>, c: Conn<S>, more: Bytes)
    requires !c.closed
    ensures Same(Receive(h, Drain(h, c), more), Drain(h, c.(unread := c.unread + more)))
    decreases |c.unread|
  {
    hide Parse, Answer;
    var p := Parse(c.unread);
    if p != NeedMore {
      VerdictStands(c.unread, more);
      if p.Complete? {
        ParseSize(c.unread);
        ParseSize(c.unread + more);
        var (state, reply) := Answer(h, c.state, p.message);
        assert (c.unread + more)[p.size..] == c.unread[p.size..] + more;
        if reply.Some? {
          DrainSplit(h, c.(unread := c.unread[p.size..], state := state, written := c.written + reply.value), more);
        }
      }
    }
  }

  lemma SameReceive<S>(h: Handler<S>, a: Conn<S>, b: Conn<S>, chunk: Bytes)
    requires Same(a, b)
    ensures Same(Receive(h, a, chunk), Receive(h, b, chunk))
  {
    hide Drain;
    assert !a.closed ==> a == b;
  }

  lemma {:induction false} SameReceiveAll<S>(h: Handler<S>, a: Conn<S>, b: Conn<S>, chunks: seq<Bytes>)
    requires Same(a, b)
    ensures Same(ReceiveAll(h, a, chunks), ReceiveAll(h, b, chunks))
    decreases |chunks|
  {
    hide Receive;
    if chunks != [] {
      SameReceive(h, a, b, chunks[0]);
      SameReceiveAll(h, Receive(h, a, chunks[0]), Receive(h, b, chunks[0]), chunks[1..]);
    }
  }

  /** Chunking does not matter: however a stream is split, the connection ends up as if the whole
      stream had come at once. */
  lemma {:induction false} ChunkingIrrelevant<S>(h: Handler<S>, c: Conn<S>, chunks: seq<Bytes>)
    requires Drained(c)
    ensures Same(ReceiveAll(h, c, chunks), Receive(h, c, Concat(chunks)))
    decreases |chunks|
  {
    hide Drain, Parse;
    if chunks == [] {
      NothingNew(h, c);
    } else if !c.closed {
      var d, rest := Receive(h, c, chunks[0]), Concat(chunks[1..]);
      DrainDrains(h, c.(unread := c.unread + chunks[0]));
      ChunkingIrrelevant(h, d, chunks[1..]);
      DrainSplit(h, c.(unread := c.unread + chunks[0]), rest);
      assert c.unread + chunks[0] + rest == c.unread + Concat(chunks);
    } else {
      ChunkingIrrelevant(h, c, chunks[1..]);
    }
  }

  lemma NothingNew<S>(h: Handler<S>, c: Conn<S>)
    requires Drained(c)
    ensures Receive(h, c, []) == c
  {
    assert c.unread + [] == c.unread;
  }

  // ----- Answers come in the order of the requests

  /** In state `s` the handler answers `m` with `reply` and goes to state `t`. */
  ghost predicate Serves<S>(h: Handler<S>, s: S, m: Message, t: S, reply: Bytes) {
    || (m.ClientAsk? && h.client(s, m.clientReq).0 == t
        && Encode(ClientAnswer(h.client(s, m.clientReq).1)) == Some(reply))
    || (m.ClusterAsk? && h.cluster(s, m.clusterReq).0 == t
        && Encode(ClusterAnswer(h.cluster(s, m.clusterReq).1)) == Some(reply))
  }

  /** The handler takes the messages one after the other through `states` and gives `replies`. */
  ghost predicate Session<S>(h: Handler<S>, ms: seq<Message>, states: seq<S>, replies: seq<Bytes>) {
    && |states| == |ms| + 1 && |replies| == |ms|
    && forall i | 0 <= i < |ms| :: Serves(h, states[i], ms[i], states[i + 1], replies[i])
  }

  /** `bytes` are the frames of the messages, in order. */
  ghost predicate FramesOf(bytes: Bytes, ms: seq<Message>)
    decreases |ms|
  {
    if ms == [] then bytes == []
    else InRange(ms[0]) && Encode(ms[0]).Some? && Encode(ms[0]).value <= bytes && FramesOf(bytes[|Encode(ms[0]).value|..], ms[1..])
  }

  lemma FirstServed<S>(h: Handler<S>, c: Conn<S>, m: Message, t: S, reply: Bytes)
    requires InRange(m) && Encode(m).Some? && Encode(m).value <= c.unread && Serves(h, c.state, m, t, reply)
    ensures Drain(h, c) == Drain(h, c.(unread := c.unread[|Encode(m).value|..], state := t, written := c.written + reply))
    ensures |Encode(m).value| > 0
  {
    hide Parse, Encode, InRange;
    ParseExact(c.unread, m);
    FrameSize(m);
  }

  lemma FrameSize(m: Message)
    requires Encode(m).Some?
    ensures |Encode(m).value| == HEADER + |Payload(m)|
  {
    hide BE;
    FrameLayout(TypeOf(m), Payload(m), []);
  }

  /** What comes before `rest` is answered request by request, each answer after the earlier ones. */
  lemma {:induction false} ServedInOrder<S>(h: Handler<S>, c: Conn<S>, bytes: Bytes, ms: seq<Message>, states: seq<S>,
      replies: seq<Bytes>, rest: Bytes)
    requires FramesOf(bytes, ms) && Session(h, ms, states, replies) && c.unread == bytes + rest && c.state == states[0]
    ensures Drain(h, c) == Drain(h, Conn(rest, c.written + Concat(replies), c.closed, states[|ms|]))
    decreases |ms|
  {
    hide Drain, Encode, InRange;
    if ms == [] {
      assert bytes + rest == rest && c.written + [] == c.written;
    } else {
      assert Serves(h, states[0], ms[0], states[1], replies[0]);
      var n := |Encode(ms[0]).value|;
      FirstServed(h, c, ms[0], states[1], replies[0]);
      assert (bytes + rest)[n..] == bytes[n..] + rest;
      var d := c.(unread := c.unread[n..], state := states[1], written := c.written + replies[0]);
      assert forall i | 0 <= i < |ms[1..]| :: Serves(h, states[1..][i], ms[1..][i], states[1..][i + 1], replies[1..][i]) by {
        forall i | 0 <= i < |ms[1..]| ensures Serves(h, states[1..][i], ms[1..][i], states[1..][i + 1], replies[1..][i]) {
          assert Serves(h, states[i + 1], ms[i + 1], states[i + 2], replies[i + 1]);
        }
      }
      ServedInOrder(h, d, bytes[n..], ms[1..], states[1..], replies[1..], rest);
      assert c.written + replies[0] + Concat(replies[1..]) == c.written + Concat(replies);
    }
  }

  /** Pipelined requests get their answers in order, and an incomplete frame waits. */
  lemma AnswersInOrder<S>(h: Handler<S>, c: Conn<S>, bytes: Bytes, ms: seq<Message>, states: seq<S>, replies: seq<Bytes>,
      rest: Bytes)
    requires FramesOf(bytes, ms) && Session(h, ms, states, replies) && c.unread == bytes + rest && c.state == states[0]
    requires Parse(rest) == NeedMore
    ensures Drain(h, c) == Conn(rest, c.written + Concat(replies), c.closed, states[|ms|])
  {
    hide Parse, Session, FramesOf;
    ServedInOrder(h, c, bytes, ms, states, replies, rest);
  }

  /** A bad frame closes the connection after the answers to what came before, and drops the input. */
  lemma BadFrameCloses<S>(h: Handler<S>, c: Conn<S>, bytes: Bytes, ms: seq<Message>, states: seq<S>, replies: seq<Bytes>,
      rest: Bytes)
    requires FramesOf(bytes, ms) && Session(h, ms, states, replies) && c.unread == bytes + rest && c.state == states[0]
    requires Parse(rest) == Bad
    ensures Drain(h, c) == Conn([], c.written + Concat(replies), true, states[|ms|])
  {
    hide Parse, Session, FramesOf;
    ServedInOrder(h, c, bytes, ms, states, replies, rest);
  }

  /** The handler has no answer to `m` that can be sent. */
  ghost predicate Unanswered<S>(h: Handler<S>, s: S, m: Message) {
    && (m.ClientAsk? ==> Encode(ClientAnswer(h.client(s, m.clientReq).1)).None?)
    && (m.ClusterAsk? ==> Encode(ClusterAnswer(h.cluster(s, m.clusterReq).1)).None?)
  }

  /** So does a message that gets no answer: a response, which changes nothing, or a request whose answer is
      too large, which the handler has seen. */
  lemma NoAnswerCloses<S>(h: Handler<S>, c: Conn<S>, bytes: Bytes, ms: seq<Message>, states: seq<S>, replies: seq<Bytes>,
      m: Message, rest: Bytes)
    requires FramesOf(bytes, ms) && Session(h, ms, states, replies) && c.state == states[0]
    requires InRange(m) && Encode(m).Some? && c.unread == bytes + (Encode(m).value + rest) && Unanswered(h, states[|ms|], m)
    ensures Drain(h, c) == Conn(rest, c.written + Concat(replies), true,
      if m.ClientAsk? then h.client(states[|ms|], m.clientReq).0
      else if m.ClusterAsk? then h.cluster(states[|ms|], m.clusterReq).0 else states[|ms|])
  {
    hide Parse, Session, FramesOf, Encode, InRange;
    ServedInOrder(h, c, bytes, ms, states, replies, Encode(m).value + rest);
    ParseExact(Encode(m).value + rest, m);
    FrameSize(m);
    assert (Encode(m).value + rest)[|Encode(m).value|..] == rest;
  }

  /** These are all the cases there are: any input is frames that are answered, followed by an incomplete
      frame, a bad one, or a message without an answer. */
  lemma {:induction false} EveryInputFits<S>(h: Handler<S>, s: S, unread: Bytes)
      returns (bytes: Bytes, ms: seq<Message>, states: seq<S>, replies: seq<Bytes>, rest: Bytes)
    ensures FramesOf(bytes, ms) && Session(h, ms, states, replies) && unread == bytes + rest && states[0] == s
    ensures || Parse(rest) == NeedMore || Parse(rest) == Bad
            || exists m :: InRange(m) && Encode(m).Some? && Encode(m).value <= rest && Unanswered(h, states[|ms|], m)
    decreases |unread|
  {
    hide Parse, Encode, InRange;
    var p := Parse(unread);
    if p.Complete? {
      CompleteIs(unread);
      var m, e := p.message, Encode(p.message).value;
      if Unanswered(h, s, m) {
        bytes, ms, states, replies, rest := [], [], [s], [], unread;
      } else {
        var t := if m.ClientAsk? then h.client(s, m.clientReq).0 else h.cluster(s, m.clusterReq).0;
        var reply := if m.ClientAsk? then Encode(ClientAnswer(h.client(s, m.clientReq).1)).value
                     else Encode(ClusterAnswer(h.cluster(s, m.clusterReq).1)).value;
        var ms', states', replies';
        bytes, ms', states', replies', rest := EveryInputFits(h, t, unread[|e|..]);
        ServedFirst(h, s, m, t, reply, ms', states', replies');
        ms, states, replies := [m] + ms', [s] + states', [reply] + replies';
        assert unread == e + bytes + rest && (e + bytes)[|e|..] == bytes && ms[1..] == ms';
        bytes := e + bytes;
      }
    } else {
      bytes, ms, states, replies, rest := [], [], [s], [], unread;
    }
  }

  lemma CompleteIs(buffer: Bytes)
    requires Parse(buffer).Complete?
    ensures var m := Parse(buffer).message;
      InRange(m) && Encode(m).Some? && Encode(m).value <= buffer && |Encode(m).value| == Parse(buffer).size > 0
  {
    hide Decode, Payload, Encode, BE, FromBE;
    var m, length := Parse(buffer).message, FromBE(buffer[4..8]);
    DecodeExact(buffer[3], buffer[HEADER..HEADER + length], m);
    ParseExact(buffer, m);
    FrameSize(m);
  }

  lemma ServedFirst<S>(h: Handler<S>, s: S, m: Message, t: S, reply: Bytes, ms: seq<Message>, states: seq<S>, replies: seq<Bytes>)
    requires Session(h, ms, states, replies) && states[0] == t && Serves(h, s, m, t, reply)
    ensures Session(h, [m] + ms, [s] + states, [reply] + replies)
  {
    hide Serves;
    var ms', states', replies' := [m] + ms, [s] + states, [reply] + replies;
    forall i | 0 <= i < |ms'| ensures Serves(h, states'[i], ms'[i], states'[i + 1], replies'[i]) {
      if i > 0 { assert Serves(h, states[i - 1], ms[i - 1], states[i - 1 + 1], replies[i - 1]); }
    }
  }

  // ----- How reading stops

  datatype Stop = WouldBlock | EndOfInput | Failed

  function Arrive<S>(h: Handler<S>, c: Conn<S>, chunks: seq<Bytes>, stop: Stop): Conn<S> {
    var c' := c.(unread := c.unread + Concat(chunks));
    match stop
    case WouldBlock => Drain(h, c')
    case EndOfInput => Drain(h, c'.(closed := true))
    case Failed => c'.(closed := true)
  }

  /** While the connection is open, what arrives before reading would block is received. */
  lemma ArriveReceives<S>(h: Handler<S>, c: Conn<S>, chunks: seq<Bytes>)
    requires !c.closed
    ensures Arrive(h, c, chunks, WouldBlock) == Receive(h, c, Concat(chunks))
  {
  }

  /** The end of input only closes: every complete frame is answered as it would have been. */
  lemma {:induction false} EndAnswersAll<S>(h: Handler<S>, c: Conn<S>)
    ensures Drain(h, c.(closed := true)) == Drain(h, c).(closed := true)
    decreases |c.unread|
  {
    hide Parse, Answer;
    var p := Parse(c.unread);
    if p.Complete? {
      ParseSize(c.unread);
      var (state, reply) := Answer(h, c.state, p.message);
      if reply.Some? {
        EndAnswersAll(h, c.(unread := c.unread[p.size..], state := state, written := c.written + reply.value));
      }
    }
  }

  // ----- The connection object

  class Link<S(0)> {
    var unread: Bytes
    var written: Bytes
    var closed: bool
    /** The state of the handler the connection dispatches to. */
    var state: S

    ghost function Value(): Conn<S>
      reads this
    {
      Conn(unread, written, closed, state)
    }

    constructor (state: S)
      ensures Value() == Conn([], [], false, state)
    {
      unread, written, closed, this.state := [], [], false, state;
    }

    /** The drain loop. */
    method ProcessFrames(h: Handler<S>)
      modifies this
      ensures Value() == Drain(h, old(Value()))
    {
      hide Parse, Encode;
      while true
        invariant Drain(h, Value()) == Drain(h, old(Value()))
        decreases |unread|
      {
        var parsed, left := TryParseFrame(unread);
        if parsed.NeedMore? { break; }
        unread := left;
        if parsed.Bad? {
          closed := true;
          return;
        }
        var reply: Option<Bytes>;
        match parsed.message {
          case ClientAsk(r) =>
            var (state', resp) := h.client(state, r);
            state := state';
            reply := EncodeClientResponse(resp);
          case ClusterAsk(r) =>
            var (state', resp) := h.cluster(state, r);
            state := state';
            reply := EncodeClusterResponse(resp);
          case _ =>
            reply := None;
        }
        if reply.None? {
          closed := true;
          return;
        }
        written := written + reply.value;
      }
    }

    /** Read all chunks there are, then drain; at the end of input the connection closes but what came
        is still answered, and after a failed read nothing is. */
    method OnReadable(h: Handler<S>, chunks: seq<Bytes>, stop: Stop) returns (ok: bool)
      modifies this
      ensures ok == !stop.Failed? && Value() == Arrive(h, old(Value()), chunks, stop)
    {
      for i := 0 to |chunks|
        invariant unread == old(unread) + Concat(chunks[..i])
        invariant written == old(written) && closed == old(closed) && state == old(state)
      {
        ConcatNext(chunks, i);
        unread := unread + chunks[i];
      }
      assert chunks[..|chunks|] == chunks;
      if stop.EndOfInput? { closed := true; }
      if stop.Failed? {
        closed := true;
        return false;
      }
      ProcessFrames(h);
      return true;
    }
  }

  lemma {:induction false} ConcatNext(chunks: seq<Bytes>, i: nat)
    requires i < |chunks|
    ensures Concat(chunks[..i + 1]) == Concat(chunks[..i]) + chunks[i]
    decreases i
  {
    if i == 0 {
      assert chunks[..1] == [chunks[0]] && chunks[..0] == [];
      assert Concat([chunks[0]]) == chunks[0] + Concat([]);
    } else {
      assert chunks[..i + 1][1..] == chunks[1..][..i] && chunks[..i][1..] == chunks[1..][..i - 1];
      ConcatNext(chunks[1..], i - 1);
    }
  }
}
