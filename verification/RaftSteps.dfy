/** What one Raft node does in each region of code that holds its lock, as functions from the
    node's state to its next state and the reply it sends. */
module RaftSteps {
  import opened ClusterConfig
  import opened Logs
  import opened QuorumIndex
  import opened Store

  datatype Role = Follower | Candidate | Leader

  datatype VoteRequest = VoteRequest(term: nat, candidate: NodeId, lastLogIndex: nat, lastLogTerm: nat)
  datatype VoteResponse = VoteResponse(term: nat, granted: bool)

  datatype AppendRequest = AppendRequest(
    term: nat, leader: NodeId, prevIndex: nat, prevTerm: nat, leaderCommit: nat, entries: seq<Entry>)
  datatype AppendResponse = AppendResponse(term: nat, success: bool)

  /** `votedFor` and `leaderId` use 0 for "none". */
  datatype Node = Node(
    id: NodeId,
    role: Role,
    term: nat,
    votedFor: NodeId,
    leaderId: NodeId,
    log: Log,
    commitIndex: nat,
    nextIndex: map<NodeId, nat>,
    matchIndex: map<NodeId, nat>,
    lastApplied: nat,
    kv: Contents)

  function Fresh(id: NodeId): Node {
    Node(id, Follower, 0, 0, 0, [], 0, map[], map[], 0, map[])
  }

  // ----- Term and role changes

  function BecomeFollower(n: Node, term: nat): Node {
    n.(term := term, votedFor := 0, role := Follower, leaderId := 0)
  }

  function BecomeLeader(n: Node, peers: seq<NodeId>): Node {
    n.(role := Leader, leaderId := n.id,
       nextIndex := ForOthers(peers, n.id, |n.log| + 1),
       matchIndex := ForOthers(peers, n.id, 0))
  }

  /** Every peer but `self` with the same value. */
  function ForOthers(peers: seq<NodeId>, self: NodeId, value: nat): map<NodeId, nat> {
    map p | p in peers && p != self :: value
  }

  function StartElection(n: Node): Node {
    n.(term := n.term + 1, votedFor := n.id, role := Candidate, leaderId := 0)
  }

  function CampaignRequest(n: Node): VoteRequest {
    VoteRequest(n.term, n.id, |n.log|, LastTerm(n.log))
  }

  /** Recovery replays every logged record; term and vote were persisted; the rest is lost. */
  function Restart(n: Node): Node {
    Node(n.id, Follower, n.term, n.votedFor, 0, n.log, 0, map[], map[], |n.log|, Replay(n.log))
  }

  /** A higher term makes any node a follower. */
  function Hear(n: Node, term: nat): Node {
    if term > n.term then BecomeFollower(n, term) else n
  }

  // ----- RequestVote

  /** The vote rule: at most one vote per term, and only for a log at least as up to date. */
  predicate Grants(n: Node, req: VoteRequest) {
    && req.term >= n.term
    && (n.votedFor == 0 || n.votedFor == req.candidate)
    && (|| req.lastLogTerm > LastTerm(n.log)
        || (req.lastLogTerm == LastTerm(n.log) && req.lastLogIndex >= |n.log|))
  }

  function OnVoteRequest(n: Node, req: VoteRequest): (Node, VoteResponse) {
    var n1 := Hear(n, req.term);
    if Grants(n1, req) then (n1.(votedFor := req.candidate), VoteResponse(n1.term, true))
    else (n1, VoteResponse(n1.term, false))
  }

  // ----- Applying and committing

  /** Apply entry after entry, in index order and never past the commit index. */
  function ApplyCommitted(n: Node): (a: Node)
    ensures a == n.(lastApplied := a.lastApplied, kv := a.kv)
    ensures n.lastApplied <= a.lastApplied
    ensures a.lastApplied > n.lastApplied ==> a.lastApplied <= n.commitIndex && a.lastApplied <= |n.log|
    decreases n.commitIndex - n.lastApplied
  {
    if n.lastApplied < n.commitIndex && n.lastApplied < |n.log| then
      ApplyCommitted(n.(kv := ApplyEntry(n.kv, n.log[n.lastApplied]), lastApplied := n.lastApplied + 1))
    else n
  }

  function Min(a: nat, b: nat): nat {
    if a < b then a else b
  }

  /** The indices known to the leader: its own last index and each peer's match index. */
  function KnownIndices(n: Node, peers: seq<NodeId>): (s: seq<nat>)
    ensures |s| > 0
  {
    [|n.log|] + MatchList(n, peers)
  }

  function MatchList(n: Node, peers: seq<NodeId>): seq<nat> {
    if peers == [] then []
    else
      var p := peers[|peers| - 1];
      var rest := MatchList(n, peers[..|peers| - 1]);
      if p != n.id && p in n.matchIndex then rest + [n.matchIndex[p]] else rest
  }

  function AdvanceCommit(n: Node, peers: seq<NodeId>): Node {
    var candidate := QuorumIndexOf(KnownIndices(n, peers));
    if candidate <= n.commitIndex then n
    else if candidate <= |n.log| && n.log[candidate - 1].term == n.term then
      ApplyCommitted(n.(commitIndex := candidate))
    else n
  }

  // ----- AppendEntries

  /** The consistency check on the entry before the sent ones. */
  predicate PrevMatches(log: Log, req: AppendRequest) {
    req.prevIndex > 0 ==> req.prevIndex <= |log| && log[req.prevIndex - 1].term == req.prevTerm
  }

  /** The node after hearing from the leader of `req.term`, before looking at the entries. */
  function Follow(n: Node, req: AppendRequest): Node {
    var n1 := Hear(n, req.term);
    n1.(role := if n1.role == Candidate then Follower else n1.role, leaderId := req.leader)
  }

  function OnAppendRequest(n: Node, req: AppendRequest): (Node, AppendResponse) {
    if req.term < n.term then (n, AppendResponse(n.term, false))
    else
      var n1 := Follow(n, req);
      if !PrevMatches(n1.log, req) then (n1, AppendResponse(n1.term, false))
      else
        var n2 := n1.(log := Merge(n1.log, req.prevIndex, req.entries));
        (CommitUpTo(n2, req.leaderCommit), AppendResponse(n2.term, true))
  }

  /** The follower's commit rule. */
  function CommitUpTo(n: Node, leaderCommit: nat): Node {
    if leaderCommit > n.commitIndex then
      ApplyCommitted(n.(commitIndex := Min(leaderCommit, |n.log|)))
    else n
  }

  function EntriesFrom(log: Log, index: nat): seq<Entry> {
    if index == 0 || index > |log| then [] else log[index - 1..]
  }

  /** The request a leader sends to bring `peer` up to date. */
  function ReplicateRequest(n: Node, peer: NodeId): AppendRequest
    requires peer in n.nextIndex && n.nextIndex[peer] > 0
  {
    ProbeRequest(n, peer).(entries := EntriesFrom(n.log, n.nextIndex[peer]))
  }

  /** The empty request of a leadership confirmation round. */
  function ProbeRequest(n: Node, peer: NodeId): AppendRequest
    requires peer in n.nextIndex && n.nextIndex[peer] > 0
  {
    var prev := n.nextIndex[peer] - 1;
    var prevTerm := if 0 < prev <= |n.log| then n.log[prev - 1].term else 0;
    AppendRequest(n.term, n.id, prev, prevTerm, n.commitIndex, [])
  }

  function OnAppendResponse(n: Node, peers: seq<NodeId>, peer: NodeId, req: AppendRequest, resp: AppendResponse): Node {
    if n.role != Leader || n.term != req.term then n
    else if resp.term > n.term then BecomeFollower(n, resp.term)
    else if resp.success then
      var last := req.prevIndex + |req.entries|;
      AdvanceCommit(
        if req.entries == [] then n
        else n.(matchIndex := n.matchIndex[peer := last], nextIndex := n.nextIndex[peer := last + 1]),
        peers)
    else if peer in n.nextIndex && n.nextIndex[peer] > 1 then
      n.(nextIndex := n.nextIndex[peer := n.nextIndex[peer] - 1])
    else n
  }

  // ----- Proposals and confirmation rounds

  function Propose(n: Node, op: Op, key: Bytes.Bytes, value: Bytes.Bytes): Node {
    if n.role != Leader then n else n.(log := n.log + [Entry(n.term, op, key, value)])
  }

  datatype RoundOutcome = Abandoned | Counted | NotCounted

  function OnProbeResponse(n: Node, roundTerm: nat, resp: AppendResponse): (Node, RoundOutcome) {
    if resp.term > n.term then (BecomeFollower(n, resp.term), Abandoned)
    else if n.role != Leader || n.term != roundTerm then (n, Abandoned)
    else (n, if resp.success then Counted else NotCounted)
  }
}
