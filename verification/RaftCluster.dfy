/** A cluster of Raft nodes as a step system. Each step is one region of node code that holds
    the node's lock; messages stay in `net`, so a message may be delivered late, more than
    once, or never. A run is a sequence of enabled steps from fresh nodes. */
module RaftCluster {
  import opened Bytes
  import opened ClusterConfig
  import opened Logs
  import opened Options
  import opened RaftHistory
  import R = RaftSteps

  /** Which call an AppendEntries exchange belongs to. */
  datatype Tag = Replicate | Probe(round: nat)

  datatype Message =
    | VoteAsk(to: NodeId, vreq: R.VoteRequest)
    | VoteAnswer(from: NodeId, vreq: R.VoteRequest, vresp: R.VoteResponse)
    | AppendAsk(to: NodeId, tag: Tag, areq: R.AppendRequest)
    | AppendAnswer(from: NodeId, tag: Tag, areq: R.AppendRequest, aresp: R.AppendResponse)

  /** A running election: the next peer to poll and the votes counted so far. */
  datatype Campaign = Campaign(term: nat, next: nat, votes: nat, granted: set<NodeId>)

  datatype RoundStatus = Running | Confirmed | Failed

  /** A leadership confirmation round, with what was true in the cluster when it began. */
  datatype Round = Round(
    owner: NodeId, term: nat, next: nat, sent: bool, acks: nat, acked: set<NodeId>, status: RoundStatus,
    termsThen: map<NodeId, nat>, electedThen: set<nat>, committedThen: set<Commit>)

  /** A client command and where its leader placed it. */
  datatype Proposal = Proposal(node: NodeId, index: nat, entry: Entry)

  /** `node` applied `entry` as number `index` because it was committed. */
  datatype Applied = Applied(node: NodeId, index: nat, entry: Entry)

  datatype Cluster = Cluster(
    peers: seq<NodeId>,
    nodes: map<NodeId, R.Node>,
    net: set<Message>,
    campaigns: map<NodeId, Campaign>,
    rounds: map<nat, Round>,
    // Bookkeeping that no step reads
    proposals: set<Proposal>,
    restarted: set<NodeId>,
    won: set<Slot>,
    applied: set<Applied>,
    history: History)

  datatype Step =
    | StartElection(n: NodeId)
    | PollPeer(n: NodeId, answer: Option<Message>)
    | FinishElection(n: NodeId)
    | DeliverVoteAsk(m: Message)
    | DeliverAppendAsk(m: Message)
    | Propose(n: NodeId, op: Op, key: Bytes, value: Bytes)
    | SendAppend(n: NodeId, peer: NodeId)
    | DeliverAppendAnswer(m: Message)
    | BeginRound(n: NodeId, r: nat)
    | SendProbe(r: nat)
    | EndProbe(r: nat, answer: Option<Message>)
    | FinishRound(r: nat)
    | Restart(n: NodeId)

  ghost function Init(peers: seq<NodeId>): Cluster {
    Cluster(
      peers, map n | n in Ids(peers) :: R.Fresh(n), {}, map[], map[], {}, {}, {}, {},
      History(peers, map n | n in Ids(peers) :: 0, map n | n in Ids(peers) :: [], map[], map[], map[], map[], {}, {}))
  }

  // ----- When a step can happen

  ghost predicate Enabled(c: Cluster, s: Step) {
    match s
    case StartElection(n) => n in c.nodes && n !in c.campaigns
    case PollPeer(n, answer) =>
      && n in c.nodes && n in c.campaigns && c.campaigns[n].next < |c.peers|
      && (answer.Some? ==>
        && answer.value in c.net && answer.value.VoteAnswer?
        && answer.value.from == c.peers[c.campaigns[n].next] != n
        && answer.value.vreq.candidate == n && answer.value.vreq.term == c.campaigns[n].term)
    case FinishElection(n) => n in c.nodes && n in c.campaigns && c.campaigns[n].next == |c.peers|
    case DeliverVoteAsk(m) => m in c.net && m.VoteAsk? && m.to in c.nodes
    case DeliverAppendAsk(m) => m in c.net && m.AppendAsk? && m.to in c.nodes
    case Propose(n, _, _, _) => n in c.nodes && c.nodes[n].role == R.Leader
    case SendAppend(n, peer) =>
      && n in c.nodes && c.nodes[n].role == R.Leader && peer in c.peers && peer != n
      && CanAddress(c.nodes[n], peer)
    case DeliverAppendAnswer(m) => m in c.net && m.AppendAnswer? && m.tag.Replicate? && m.areq.leader in c.nodes
    case BeginRound(n, r) => n in c.nodes && r !in c.rounds && c.nodes[n].role == R.Leader
    case SendProbe(r) =>
      && Polling(c, r) && !c.rounds[r].sent
      && (Holds(c, r) && c.peers[c.rounds[r].next] != c.rounds[r].owner ==>
          CanAddress(c.nodes[c.rounds[r].owner], c.peers[c.rounds[r].next]))
    case EndProbe(r, answer) =>
      && Polling(c, r) && c.rounds[r].sent
      && (answer.Some? ==>
        && answer.value in c.net && answer.value.AppendAnswer?
        && answer.value.from == c.peers[c.rounds[r].next] && answer.value.tag == Probe(r))
    case FinishRound(r) => r in c.rounds && c.rounds[r].status == Running && c.rounds[r].next == |c.peers|
    case Restart(n) => n in c.nodes
  }

  /** The leader has a next index for the peer (shown below to hold of every leader). */
  predicate CanAddress(n: R.Node, peer: NodeId) {
    peer in n.nextIndex && n.nextIndex[peer] > 0
  }

  predicate Polling(c: Cluster, r: nat) {
    && r in c.rounds && c.rounds[r].status == Running && c.rounds[r].next < |c.peers|
    && c.rounds[r].owner in c.nodes
  }

  /** The round's owner still leads the term the round was begun in. */
  predicate Holds(c: Cluster, r: nat)
    requires r in c.rounds && c.rounds[r].owner in c.nodes
  {
    var n := c.nodes[c.rounds[r].owner];
    n.role == R.Leader && n.term == c.rounds[r].term
  }

  // ----- What a step does

  ghost function After(c: Cluster, s: Step): Cluster
    requires Enabled(c, s) && Linked(c)
  {
    match s
    case StartElection(n) => AfterStartElection(c, n)
    case PollPeer(n, answer) => AfterPollPeer(c, n, answer)
    case FinishElection(n) => AfterFinishElection(c, n)
    case DeliverVoteAsk(m) => AfterVoteAsk(c, m)
    case DeliverAppendAsk(m) => AfterAppendAsk(c, m)
    case Propose(n, op, key, value) => AfterPropose(c, n, op, key, value)
    case SendAppend(n, peer) => AfterSendAppend(c, n, peer)
    case DeliverAppendAnswer(m) => AfterAppendAnswer(c, m)
    case BeginRound(n, r) => AfterBeginRound(c, n, r)
    case SendProbe(r) => AfterSendProbe(c, r)
    case EndProbe(r, answer) => AfterEndProbe(c, r, answer)
    case FinishRound(r) => AfterFinishRound(c, r)
    case Restart(n) => AfterRestart(c, n)
  }

  /** Every node has its term and log in the history. */
  ghost predicate Linked(c: Cluster) {
    c.nodes.Keys <= c.history.term.Keys && c.nodes.Keys <= c.history.log.Keys
  }

  ghost function AfterStartElection(c: Cluster, n: NodeId): Cluster
    requires Enabled(c, StartElection(n)) && Linked(c)
  {
    var n' := R.StartElection(c.nodes[n]);
    c.(nodes := c.nodes[n := n'],
       net := c.net + (set p | p in c.peers && p != n :: VoteAsk(p, R.CampaignRequest(n'))),
       campaigns := c.campaigns[n := Campaign(n'.term, 0, 1, {n})],
       history := Bid(c.history, n))
  }

  ghost function AfterVoteAsk(c: Cluster, m: Message): Cluster
    requires Enabled(c, DeliverVoteAsk(m)) && Linked(c)
  {
    var (n', resp) := R.OnVoteRequest(c.nodes[m.to], m.vreq);
    var h := HeardTerm(c.history, m.to, m.vreq.term);
    c.(nodes := c.nodes[m.to := n'],
       net := c.net + {VoteAnswer(m.to, m.vreq, resp)},
       history := if resp.granted then Cast(h, m.to, m.vreq.candidate) else h)
  }

  ghost function AfterAppendAsk(c: Cluster, m: Message): Cluster
    requires Enabled(c, DeliverAppendAsk(m)) && Linked(c)
  {
    var (n', resp) := R.OnAppendRequest(c.nodes[m.to], m.areq);
    var h := HeardTerm(c.history, m.to, m.areq.term);
    c.(nodes := c.nodes[m.to := n'],
       net := c.net + {AppendAnswer(m.to, m.tag, m.areq, resp)},
       applied := c.applied + NewlyApplied(c.nodes[m.to], n'),
       history := if resp.success then Accept(h, m.to, n'.log, m.areq.prevIndex + |m.areq.entries|) else h)
  }

  ghost function AfterPropose(c: Cluster, n: NodeId, op: Op, key: Bytes, value: Bytes): Cluster
    requires Enabled(c, Propose(n, op, key, value)) && Linked(c)
  {
    var e := Entry(c.nodes[n].term, op, key, value);
    c.(nodes := c.nodes[n := R.Propose(c.nodes[n], op, key, value)],
       proposals := c.proposals + {Proposal(n, |c.nodes[n].log| + 1, e)},
       history := Extend(c.history, n, e))
  }

  ghost function AfterSendAppend(c: Cluster, n: NodeId, peer: NodeId): Cluster
    requires Enabled(c, SendAppend(n, peer))
  {
    c.(net := c.net + {AppendAsk(peer, Replicate, R.ReplicateRequest(c.nodes[n], peer))})
  }

  ghost function AfterBeginRound(c: Cluster, n: NodeId, r: nat): Cluster
    requires Enabled(c, BeginRound(n, r))
  {
    c.(rounds := c.rounds[r := Round(n, c.nodes[n].term, 0, false, 1, {n}, Running,
         c.history.term, c.history.elections.Keys, c.history.commits)])
  }

  ghost function AfterFinishRound(c: Cluster, r: nat): Cluster
    requires Enabled(c, FinishRound(r))
  {
    var round := c.rounds[r];
    c.(rounds := c.rounds[r := round.(status := if round.acks >= Majority(c.peers) then Confirmed else Failed)])
  }

  ghost function AfterRestart(c: Cluster, n: NodeId): Cluster
    requires Enabled(c, Restart(n))
  {
    c.(nodes := c.nodes[n := R.Restart(c.nodes[n])],
       campaigns := Without(c.campaigns, n),
       rounds := map r | r in c.rounds ::
         if c.rounds[r].owner == n && c.rounds[r].status == Running then c.rounds[r].(status := Failed) else c.rounds[r],
       restarted := c.restarted + {n})
  }

  function Without(campaigns: map<NodeId, Campaign>, n: NodeId): map<NodeId, Campaign> {
    map k | k in campaigns && k != n :: campaigns[k]
  }

  function HeardTerm(h: History, n: NodeId, t: nat): History
    requires n in h.term
  {
    if t > h.term[n] then RaiseTerm(h, n, t) else h
  }

  function NewlyApplied(old_: R.Node, new_: R.Node): set<Applied> {
    set i | old_.lastApplied <= i < new_.lastApplied && i < |new_.log| :: Applied(new_.id, i + 1, new_.log[i])
  }

  ghost function AfterPollPeer(c: Cluster, n: NodeId, answer: Option<Message>): Cluster
    requires Enabled(c, PollPeer(n, answer))
    requires Linked(c)
  {
    var campaign := c.campaigns[n];
    var node := c.nodes[n];
    if answer.None? then c.(campaigns := c.campaigns[n := campaign.(next := campaign.next + 1)])
    else if node.role != R.Candidate || node.term != campaign.term then c.(campaigns := Without(c.campaigns, n))
    else if answer.value.vresp.term > node.term then
      c.(nodes := c.nodes[n := R.BecomeFollower(node, answer.value.vresp.term)],
         campaigns := Without(c.campaigns, n),
         history := RaiseTerm(c.history, n, answer.value.vresp.term))
    else if answer.value.vresp.granted then
      c.(campaigns := c.campaigns[n := Campaign(campaign.term, campaign.next + 1, campaign.votes + 1,
           campaign.granted + {answer.value.from})])
    else c.(campaigns := c.campaigns[n := campaign.(next := campaign.next + 1)])
  }

  ghost function AfterFinishElection(c: Cluster, n: NodeId): Cluster
    requires Enabled(c, FinishElection(n))
    requires Linked(c)
  {
    var campaign := c.campaigns[n];
    var node := c.nodes[n];
    var d := c.(campaigns := Without(c.campaigns, n));
    if node.role == R.Candidate && node.term == campaign.term && campaign.votes >= Majority(c.peers) then
      d.(nodes := c.nodes[n := R.BecomeLeader(node, c.peers)],
         won := c.won + {Slot(node.term, n)},
         history := Elect(c.history, n, campaign.granted))
    else d
  }

  /** The nodes a leader counts as having reached `index`. */
  function Supporters(n: R.Node, peers: seq<NodeId>, index: nat): set<NodeId> {
    set p | p in peers && (p == n.id || (p in n.matchIndex && n.matchIndex[p] >= index))
  }

  ghost function AfterAppendAnswer(c: Cluster, m: Message): Cluster
    requires Enabled(c, DeliverAppendAnswer(m))
    requires Linked(c)
  {
    var node := c.nodes[m.areq.leader];
    var n' := R.OnAppendResponse(node, c.peers, m.from, m.areq, m.aresp);
    var h := HeardTerm(c.history, m.areq.leader, n'.term);
    c.(nodes := c.nodes[m.areq.leader := n'],
       applied := c.applied + NewlyApplied(node, n'),
       history := if n'.commitIndex > node.commitIndex
         then Record(h, Commit(n'.term, n'.commitIndex, Supporters(n', c.peers, n'.commitIndex))) else h)
  }

  ghost function AfterSendProbe(c: Cluster, r: nat): Cluster
    requires Enabled(c, SendProbe(r))
  {
    var round := c.rounds[r];
    var peer := c.peers[round.next];
    if peer == round.owner then c.(rounds := c.rounds[r := round.(next := round.next + 1)])
    else if !Holds(c, r) then c.(rounds := c.rounds[r := round.(status := Failed)])
    else
      c.(rounds := c.rounds[r := round.(sent := true)],
         net := c.net + {AppendAsk(peer, Probe(r), R.ProbeRequest(c.nodes[round.owner], peer))})
  }

  ghost function AfterEndProbe(c: Cluster, r: nat, answer: Option<Message>): Cluster
    requires Enabled(c, EndProbe(r, answer))
    requires Linked(c)
  {
    var round := c.rounds[r];
    if answer.None? then c.(rounds := c.rounds[r := round.(next := round.next + 1, sent := false)])
    else
      var (n', outcome) := R.OnProbeResponse(c.nodes[round.owner], round.term, answer.value.aresp);
      var round' := match outcome
        case Abandoned => round.(status := Failed)
        case NotCounted => round.(next := round.next + 1, sent := false)
        case Counted =>
          round.(next := round.next + 1, sent := false, acks := round.acks + 1, acked := round.acked + {answer.value.from});
      c.(nodes := c.nodes[round.owner := n'],
         rounds := c.rounds[r := round'],
         history := HeardTerm(c.history, round.owner, n'.term))
  }

  // ----- Runs

  /** The state after the given steps from fresh nodes, if each is enabled where it is taken. */
  ghost function Run(peers: seq<NodeId>, steps: seq<Step>): Option<Cluster>
    decreases |steps|
  {
    if steps == [] then Some(Init(peers))
    else
      match Run(peers, steps[..|steps| - 1])
      case None => None
      case Some(c) =>
        if Linked(c) && Enabled(c, steps[|steps| - 1]) then Some(After(c, steps[|steps| - 1])) else None
  }
}
