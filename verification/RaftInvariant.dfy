/** What ties the nodes, messages and campaigns of a cluster to its history, and the proof that
    every step keeps it, restarts and stale messages included. */
module RaftInvariant {
  import opened Bytes
  import opened ClusterConfig
  import opened Logs
  import opened Options
  import opened RaftHistory
  import opened RaftHistoryProofs
  import opened RaftCluster
  import opened QuorumIndex
  import R = RaftSteps

  // ----- The invariant

  /** The peer's match index is one it acknowledged in the leader's term. */
  ghost predicate MatchTrue(h: History, p: NodeId, term: nat, index: nat) {
    index == 0 || Ack(p, term, index) in h.acks
  }

  ghost predicate LeaderFits(h: History, n: R.Node) {
    && n.term in h.elections && h.elections[n.term].leader == n.id
    && n.term in h.ledger && h.ledger[n.term] == n.log && Ack(n.id, n.term, |n.log|) in h.acks
    && n.nextIndex.Keys == Ids(h.peers) - {n.id} && n.matchIndex.Keys == Ids(h.peers) - {n.id}
    && (forall p | p in n.nextIndex :: 1 <= n.nextIndex[p] <= |n.log| + 1)
    && (forall p | p in n.matchIndex :: MatchTrue(h, p, n.term, n.matchIndex[p]))
  }

  ghost predicate CandidateFits(h: History, n: R.Node) {
    && Slot(n.term, n.id) in h.bids && h.bids[Slot(n.term, n.id)] == n.log
    && (n.term in h.elections ==> h.elections[n.term].leader != n.id)
  }

  ghost predicate VoteFits(h: History, n: R.Node) {
    if n.votedFor == 0 then Slot(n.term, n.id) !in h.ballots
    else Slot(n.term, n.id) in h.ballots && h.ballots[Slot(n.term, n.id)].candidate == n.votedFor
  }

  ghost predicate NodeFits(h: History, n: R.Node) {
    && n.id in h.term && n.id in h.log && h.term[n.id] == n.term && h.log[n.id] == n.log
    && VoteFits(h, n)
    && (n.role == R.Candidate ==> CandidateFits(h, n))
    && (n.role == R.Leader ==> LeaderFits(h, n))
  }

  /** An append request is a slice of what the leader of its term wrote. */
  ghost predicate SliceFits(h: History, req: R.AppendRequest) {
    && req.term in h.elections && req.term in h.ledger && h.elections[req.term].leader == req.leader
    && var log := h.ledger[req.term];
    && req.prevIndex + |req.entries| <= |log|
    && req.entries == log[req.prevIndex..req.prevIndex + |req.entries|]
    && (req.prevIndex > 0 ==> req.prevTerm == log[req.prevIndex - 1].term)
  }

  ghost predicate MessageFits(h: History, m: Message) {
    match m
    case VoteAsk(to, req) =>
      && to in h.term && req.candidate != 0
      && Slot(req.term, req.candidate) in h.bids
      && var bid := h.bids[Slot(req.term, req.candidate)];
      && req.lastLogIndex == |bid| && req.lastLogTerm == LastTerm(bid)
    case VoteAnswer(from, req, resp) =>
      && from in h.term
      && (resp.granted ==> Slot(req.term, from) in h.ballots && h.ballots[Slot(req.term, from)].candidate == req.candidate)
    case AppendAsk(to, _, req) => to in h.term && to != req.leader && SliceFits(h, req)
    case AppendAnswer(from, _, req, resp) =>
      && from in h.term && from != req.leader && SliceFits(h, req)
      && (resp.success ==> resp.term == req.term && Ack(from, req.term, req.prevIndex + |req.entries|) in h.acks)
  }

  ghost predicate CampaignFits(h: History, n: R.Node, campaign: Campaign) {
    && campaign.term <= n.term && campaign.next <= |h.peers|
    && campaign.votes == |campaign.granted| && n.id in Ids(h.peers)
    && campaign.granted <= Ids(h.peers[..campaign.next]) + {n.id}
    && n.id in campaign.granted
    && VotedFor(h, campaign.granted, campaign.term, n.id)
  }

  ghost predicate WinFits(h: History, w: Slot) {
    w.term in h.elections && h.elections[w.term].leader == w.node
  }

  ghost predicate NodeAt(c: Cluster, n: NodeId) {
    n in c.nodes && c.nodes[n].id == n && NodeFits(c.history, c.nodes[n])
  }

  ghost predicate CampaignAt(c: Cluster, n: NodeId) {
    n in c.nodes && n in c.campaigns && CampaignFits(c.history, c.nodes[n], c.campaigns[n])
  }

  ghost predicate ClusterInv(c: Cluster) {
    && c.peers == c.history.peers && 0 !in c.peers && c.nodes.Keys == Ids(c.peers)
    && c.history.term.Keys == c.nodes.Keys && c.history.log.Keys == c.nodes.Keys
    && Inv(c.history)
    && (forall n {:trigger NodeAt(c, n)} | n in c.nodes :: NodeAt(c, n))
    && (forall m {:trigger MessageFits(c.history, m)} | m in c.net :: MessageFits(c.history, m))
    && (forall n {:trigger CampaignAt(c, n)} | n in c.campaigns :: CampaignAt(c, n))
    && (forall w {:trigger WinFits(c.history, w)} | w in c.won :: WinFits(c.history, w))
  }

  lemma AtNode(c: Cluster, n: NodeId)
    requires ClusterInv(c) && n in c.nodes
    ensures NodeAt(c, n) && Linked(c) && c.peers == c.history.peers && n != 0 && n in Ids(c.peers) && Inv(c.history)
  {
  }

  lemma AtCampaign(c: Cluster, n: NodeId)
    requires ClusterInv(c) && n in c.campaigns
    ensures CampaignAt(c, n) && Distinct(c.peers)
  {
    assert Shape(c.history);
  }

  lemma AtMessage(c: Cluster, m: Message)
    requires ClusterInv(c) && m in c.net
    ensures MessageFits(c.history, m)
  {
  }

  // ----- Framing

  /** The history grew only by what node `n` did. */
  ghost predicate OnlyBy(h: History, g: History, n: NodeId) {
    && Extends(h, g)
    && (forall m | m in h.term && m != n :: g.term[m] == h.term[m] && g.log[m] == h.log[m])
    && (forall s | s in g.ballots && s !in h.ballots :: s.node == n)
    && (forall t | t in g.elections && t !in h.elections :: g.elections[t].leader == n)
    && (forall t | t in h.ledger && g.ledger[t] != h.ledger[t] :: h.elections[t].leader == n)
  }

  lemma NodeFitsStays(h: History, g: History, n: NodeId, node: R.Node)
    requires OnlyBy(h, g, n) && node.id != n && NodeFits(h, node)
    ensures NodeFits(g, node)
  {
  }

  lemma MessageFitsStays(h: History, g: History, m: Message)
    requires Extends(h, g) && MessageFits(h, m)
    ensures MessageFits(g, m)
  {
    if m.AppendAsk? || m.AppendAnswer? {
      var t := m.areq.term;
      assert Agree(h.ledger[t], g.ledger[t], |h.ledger[t]|);
      var lo, hi := m.areq.prevIndex, m.areq.prevIndex + |m.areq.entries|;
      assert g.ledger[t][lo..hi] == h.ledger[t][lo..hi];
    }
  }

  lemma CampaignFitsStays(h: History, g: History, node: R.Node, node': R.Node, campaign: Campaign)
    requires Extends(h, g) && node'.id == node.id && node.term <= node'.term
    requires CampaignFits(h, node, campaign)
    ensures CampaignFits(g, node', campaign)
  {
  }

  /** What a step by node `n` has to establish. */
  ghost predicate StepBy(c: Cluster, d: Cluster, n: NodeId) {
    && n in c.nodes && d.peers == c.peers && OnlyBy(c.history, d.history, n) && Inv(d.history)
    && d.nodes.Keys == c.nodes.Keys && (forall m | m in c.nodes && m != n :: d.nodes[m] == c.nodes[m])
    && c.nodes[n].term <= d.nodes[n].term && NodeAt(d, n)
    && (forall m {:trigger MessageFits(d.history, m)} | m in d.net && m !in c.net :: MessageFits(d.history, m))
    && (forall k {:trigger CampaignAt(d, k)} | k in d.campaigns ::
          (k in c.campaigns && d.campaigns[k] == c.campaigns[k]) || CampaignAt(d, k))
    && (forall w {:trigger WinFits(d.history, w)} | w in d.won && w !in c.won :: WinFits(d.history, w))
  }

  lemma StepByKeeps(c: Cluster, d: Cluster, n: NodeId)
    requires ClusterInv(c) && StepBy(c, d, n)
    ensures ClusterInv(d) && OnlyBy(c.history, d.history, n)
  {
    var h, g := c.history, d.history;
    forall m | m in d.nodes ensures NodeAt(d, m) {
      assert NodeAt(c, m);
      if m != n { NodeFitsStays(h, g, n, c.nodes[m]); }
    }
    forall m | m in d.net ensures MessageFits(g, m) {
      if m in c.net {
        assert MessageFits(h, m);
        MessageFitsStays(h, g, m);
      }
    }
    forall k | k in d.campaigns ensures CampaignAt(d, k) {
      if k in c.campaigns && d.campaigns[k] == c.campaigns[k] {
        assert CampaignAt(c, k) && NodeAt(c, k) && (k == n ==> NodeAt(d, n));
        CampaignFitsStays(h, g, c.nodes[k], d.nodes[k], c.campaigns[k]);
      }
    }
    forall w | w in d.won ensures WinFits(g, w) {
      if w in c.won { assert WinFits(h, w); }
    }
  }

  lemma ExtendsTrans(h: History, g: History, k: History)
    requires Extends(h, g) && Extends(g, k)
    ensures Extends(h, k)
  {
    forall t | t in h.ledger ensures t in k.ledger && Agree(h.ledger[t], k.ledger[t], |h.ledger[t]|) {
      assert Agree(h.ledger[t], g.ledger[t], |h.ledger[t]|);
      assert Agree(g.ledger[t], k.ledger[t], |g.ledger[t]|);
    }
  }

  lemma SameExtends(h: History)
    requires Inv(h)
    ensures Extends(h, h)
  {
  }

  // ----- Elections

  lemma StartElectionFits(h: History, node: R.Node)
    requires Inv(h) && NodeFits(h, node) && node.id != 0
    ensures OnlyBy(h, Bid(h, node.id), node.id) && Inv(Bid(h, node.id))
    ensures NodeFits(Bid(h, node.id), R.StartElection(node))
  {
    hide Inv, Extends;
    BidKeeps(h, node.id);
    if node.term + 1 in h.elections { NoEarlyElection(h, node.term + 1, node.id); }
  }

  /** A node does not win a term it has not reached. */
  lemma NoEarlyElection(h: History, t: nat, n: NodeId)
    requires Inv(h) && n in h.term && h.term[n] < t && t in h.elections
    ensures h.elections[t].leader != n
  {
    assert ElectionOk(h, t);
    assert Slot(t, n) in h.bids ==> BidOk(h, Slot(t, n));
  }

  lemma StartElectionKeeps(c: Cluster, n: NodeId)
    requires ClusterInv(c) && Enabled(c, StartElection(n)) && Linked(c)
    ensures OnlyBy(c.history, AfterStartElection(c, n).history, n)
    ensures ClusterInv(AfterStartElection(c, n))
  {
    hide ClusterInv, Inv, NodeFits, OnlyBy, WinFits, MessageFits, CampaignFits;
    var d := AfterStartElection(c, n);
    AtNode(c, n);
    NodeTerm(c, n);
    StartElectionFits(c.history, c.nodes[n]);
    var node, g := d.nodes[n], d.history;
    forall p | p in c.peers ensures MessageFits(g, VoteAsk(p, R.CampaignRequest(node))) {
      BidAsked(c.history, c.nodes[n], p);
    }
    BidCampaign(c.history, c.nodes[n]);
    StepByKeeps(c, d, n);
  }

  lemma BidAsked(h: History, node: R.Node, p: NodeId)
    requires Inv(h) && NodeFits(h, node) && node.id != 0 && p in h.term
    ensures MessageFits(Bid(h, node.id), VoteAsk(p, R.CampaignRequest(R.StartElection(node))))
  {
  }

  lemma BidCampaign(h: History, node: R.Node)
    requires Inv(h) && NodeFits(h, node)
    ensures CampaignFits(Bid(h, node.id), R.StartElection(node), Campaign(node.term + 1, 0, 1, {node.id}))
  {
  }

  /** Hearing of a higher term makes a node a follower without a vote. */
  lemma BecomeFollowerFits(h: History, node: R.Node, t: nat)
    requires Inv(h) && NodeFits(h, node) && node.term < t
    ensures OnlyBy(h, RaiseTerm(h, node.id, t), node.id) && Inv(RaiseTerm(h, node.id, t))
    ensures NodeFits(RaiseTerm(h, node.id, t), R.BecomeFollower(node, t))
  {
    assert Slot(t, node.id) in h.ballots ==> BallotOk(h, Slot(t, node.id));
    hide Inv, Extends, BallotOk;
    RaiseTermKeeps(h, node.id, t);
  }

  /** A step that changes no node and no history. */
  lemma BystanderKeeps(c: Cluster, d: Cluster, n: NodeId)
    requires ClusterInv(c) && n in c.nodes
    requires d.peers == c.peers && d.nodes == c.nodes && d.history == c.history && d.won == c.won
    requires forall m {:trigger MessageFits(d.history, m)} | m in d.net && m !in c.net :: MessageFits(d.history, m)
    requires forall k {:trigger CampaignAt(d, k)} | k in d.campaigns ::
      (k in c.campaigns && d.campaigns[k] == c.campaigns[k]) || CampaignAt(d, k)
    ensures ClusterInv(d) && OnlyBy(c.history, d.history, n)
  {
    hide Inv, NodeFits, WinFits, MessageFits, CampaignFits;
    assert NodeAt(c, n);
    SameExtends(c.history);
    assert NodeAt(d, n);
    StepByKeeps(c, d, n);
  }

  lemma VoteCounted(h: History, node: R.Node, campaign: Campaign, answer: Message)
    requires CampaignFits(h, node, campaign) && campaign.next < |h.peers| && Distinct(h.peers)
    requires answer.VoteAnswer? && MessageFits(h, answer) && answer.vresp.granted
    requires answer.from == h.peers[campaign.next] != node.id
    requires answer.vreq.candidate == node.id && answer.vreq.term == campaign.term
    ensures CampaignFits(h, node, Campaign(campaign.term, campaign.next + 1, campaign.votes + 1, campaign.granted + {answer.from}))
  {
    IdsPrefix(h.peers, campaign.next);
    hide Ids;
  }

  lemma PeerSkipped(h: History, node: R.Node, campaign: Campaign)
    requires CampaignFits(h, node, campaign) && campaign.next < |h.peers|
    ensures CampaignFits(h, node, campaign.(next := campaign.next + 1))
  {
    IdsPrefix(h.peers, campaign.next);
    hide Ids;
  }

  lemma PollPeerKeeps(c: Cluster, n: NodeId, answer: Option<Message>)
    requires ClusterInv(c) && Enabled(c, PollPeer(n, answer)) && Linked(c)
    ensures OnlyBy(c.history, AfterPollPeer(c, n, answer).history, n)
    ensures ClusterInv(AfterPollPeer(c, n, answer))
  {
    hide ClusterInv, Inv, NodeFits, OnlyBy, WinFits, MessageFits, CampaignFits;
    var d := AfterPollPeer(c, n, answer);
    var campaign, node, h := c.campaigns[n], c.nodes[n], c.history;
    AtNode(c, n);
    AtCampaign(c, n);
    if answer.Some? && node.role == R.Candidate && node.term == campaign.term && answer.value.vresp.term > node.term {
      BecomeFollowerFits(h, node, answer.value.vresp.term);
      StepByKeeps(c, d, n);
    } else if answer.Some? && (node.role != R.Candidate || node.term != campaign.term) {
      BystanderKeeps(c, d, n);
    } else {
      if answer.Some? && answer.value.vresp.granted {
        AtMessage(c, answer.value);
        VoteCounted(h, node, campaign, answer.value);
      } else {
        PeerSkipped(h, node, campaign);
      }
      assert CampaignAt(d, n);
      BystanderKeeps(c, d, n);
    }
  }

  lemma GrantedIsQuorum(h: History, node: R.Node, campaign: Campaign)
    requires CampaignFits(h, node, campaign) && campaign.votes >= Majority(h.peers)
    ensures Quorum(h.peers, campaign.granted)
  {
    assert Ids(h.peers[..campaign.next]) <= Ids(h.peers);
  }

  /** A majority of counted votes makes the winner the first of its term. */
  lemma WinnerIsFirst(h: History, node: R.Node, campaign: Campaign)
    requires Inv(h) && NodeFits(h, node) && CampaignFits(h, node, campaign)
    requires node.role == R.Candidate && node.term == campaign.term && campaign.votes >= Majority(h.peers)
    ensures node.term !in h.elections
    ensures Inv(Elect(h, node.id, campaign.granted)) && Extends(h, Elect(h, node.id, campaign.granted))
  {
    GrantedIsQuorum(h, node, campaign);
    hide Inv, Extends, Quorum, Ids;
    if node.term in h.elections { OneWinner(h, node.term, node.id, campaign.granted); }
    ElectKeeps(h, node.id, campaign.granted);
  }

  lemma WinnerFits(h: History, node: R.Node, campaign: Campaign)
    requires Inv(h) && NodeFits(h, node) && CampaignFits(h, node, campaign)
    requires node.role == R.Candidate && node.term == campaign.term && campaign.votes >= Majority(h.peers)
    ensures var g := Elect(h, node.id, campaign.granted);
      && OnlyBy(h, g, node.id) && Inv(g) && NodeFits(g, R.BecomeLeader(node, h.peers))
      && WinFits(g, Slot(node.term, node.id))
  {
    hide Inv, Extends, CampaignFits, LeaderFits;
    ShapeOf(h);
    WinnerIsFirst(h, node, campaign);
    NewLeaderFits(h, node, campaign.granted);
  }

  lemma NewLeaderFits(h: History, node: R.Node, voters: set<NodeId>)
    requires NodeFits(h, node)
    ensures LeaderFits(Elect(h, node.id, voters), R.BecomeLeader(node, h.peers))
  {
    var n := R.BecomeLeader(node, h.peers);
    assert n.nextIndex.Keys == Ids(h.peers) - {n.id};
    assert n.matchIndex.Keys == Ids(h.peers) - {n.id};
  }

  lemma FinishElectionKeeps(c: Cluster, n: NodeId)
    requires ClusterInv(c) && Enabled(c, FinishElection(n)) && Linked(c)
    ensures OnlyBy(c.history, AfterFinishElection(c, n).history, n)
    ensures ClusterInv(AfterFinishElection(c, n))
  {
    hide ClusterInv, Inv, NodeFits, OnlyBy, MessageFits, CampaignFits, WinFits;
    var d := AfterFinishElection(c, n);
    var campaign, node := c.campaigns[n], c.nodes[n];
    AtNode(c, n);
    AtCampaign(c, n);
    if node.role == R.Candidate && node.term == campaign.term && campaign.votes >= Majority(c.peers) {
      WinnerFits(c.history, node, campaign);
      StepByKeeps(c, d, n);
    } else {
      BystanderKeeps(c, d, n);
    }
  }

  // ----- Hearing of a term

  lemma OnlyByTrans(h: History, g: History, k: History, n: NodeId)
    requires OnlyBy(h, g, n) && OnlyBy(g, k, n)
    ensures OnlyBy(h, k, n)
  {
    ExtendsTrans(h, g, k);
  }

  lemma HeardFits(h: History, node: R.Node, t: nat)
    requires Inv(h) && NodeFits(h, node)
    ensures var g := HeardTerm(h, node.id, t);
      OnlyBy(h, g, node.id) && Inv(g) && NodeFits(g, R.Hear(node, t))
  {
    if t > node.term {
      BecomeFollowerFits(h, node, t);
    } else {
      SameExtends(h);
    }
  }

  // ----- RequestVote

  lemma VoteFitsAfter(h: History, node: R.Node, req: R.VoteRequest)
    requires Inv(h) && NodeFits(h, node) && req.term == node.term && MessageFits(h, VoteAsk(node.id, req))
    requires node.votedFor == 0 || node.votedFor == req.candidate
    requires req.lastLogTerm > LastTerm(node.log) || (req.lastLogTerm == LastTerm(node.log) && req.lastLogIndex >= |node.log|)
    ensures var g := Cast(h, node.id, req.candidate);
      && OnlyBy(h, g, node.id) && Inv(g) && NodeFits(g, node.(votedFor := req.candidate))
      && MessageFits(g, VoteAnswer(node.id, req, R.VoteResponse(node.term, true)))
  {
    hide Inv, Extends;
    CastKeeps(h, node.id, req.candidate);
  }

  lemma VoteAskKeeps(c: Cluster, m: Message)
    requires ClusterInv(c) && Enabled(c, DeliverVoteAsk(m)) && Linked(c)
    ensures OnlyBy(c.history, AfterVoteAsk(c, m).history, m.to)
    ensures ClusterInv(AfterVoteAsk(c, m))
  {
    hide ClusterInv, Inv, NodeFits, OnlyBy, WinFits, MessageFits, CampaignFits, R.OnVoteRequest, HeardTerm, Cast;
    AtNode(c, m.to);
    AtMessage(c, m);
    VoteAskFits(c.history, c.nodes[m.to], m.vreq);
    StepByKeeps(c, AfterVoteAsk(c, m), m.to);
  }

  lemma VoteAskFits(h: History, node: R.Node, req: R.VoteRequest)
    requires Inv(h) && NodeFits(h, node) && MessageFits(h, VoteAsk(node.id, req))
    ensures var (n', resp) := R.OnVoteRequest(node, req);
      var h1 := HeardTerm(h, node.id, req.term);
      var g := if resp.granted then Cast(h1, node.id, req.candidate) else h1;
      && OnlyBy(h, g, node.id) && Inv(g) && NodeFits(g, n')
      && n'.id == node.id && node.term <= n'.term && MessageFits(g, VoteAnswer(node.id, req, resp))
  {
    HeardFits(h, node, req.term);
    var h1, n1 := HeardTerm(h, node.id, req.term), R.Hear(node, req.term);
    var (n', resp) := R.OnVoteRequest(node, req);
    MessageFitsStays(h, h1, VoteAsk(node.id, req));
    if resp.granted {
      VoteFitsAfter(h1, n1, req);
      OnlyByTrans(h, h1, Cast(h1, node.id, req.candidate), node.id);
    }
    hide Inv, OnlyBy;
  }

  // ----- AppendEntries

  /** The follower's consistency check and merge bring its log in line with the sender's. */
  lemma MergeAdopts(h: History, node: R.Node, req: R.AppendRequest)
    requires Inv(h) && NodeFits(h, node) && req.term == node.term && SliceFits(h, req)
    requires req.prevIndex > 0 ==> req.prevIndex <= |node.log| && node.log[req.prevIndex - 1].term == req.prevTerm
    ensures req.prevIndex <= |node.log| && node.id in h.term
    ensures MayAdopt(h, node.id, Merge(node.log, req.prevIndex, req.entries), req.prevIndex + |req.entries|)
  {
    var leader := h.ledger[req.term];
    assert NodeOk(h, node.id) && LedgerOk(h, req.term);
    hide Inv, NodeOk, LedgerOk;
    if req.prevIndex > 0 { SoundLogsMatch(h.ledger, node.log, leader, req.prevIndex - 1); }
    forall i | 0 <= i < |node.log| && i < |leader| && node.log[i].term == leader[i].term
      ensures node.log[i] == leader[i]
    {
      SoundLogsMatch(h.ledger, node.log, leader, i);
    }
    hide Sound;
    MergeFollowsLeader(node.log, req.prevIndex, req.entries, leader);
  }

  /** The node and history after an accepted request, from a node that already follows its term. */
  lemma AppendAccepted(h: History, n1: R.Node, req: R.AppendRequest, tag: Tag)
    requires Inv(h) && NodeFits(h, n1) && n1.id != req.leader && SliceFits(h, req)
    requires req.term == n1.term && n1.role != R.Candidate && R.PrevMatches(n1.log, req)
    ensures req.prevIndex <= |n1.log|
    ensures n1.id in h.term
    ensures var log, m := Merge(n1.log, req.prevIndex, req.entries), req.prevIndex + |req.entries|;
      var g, n' := Accept(h, n1.id, log, m), R.CommitUpTo(n1.(log := log), req.leaderCommit);
      && OnlyBy(h, g, n1.id) && Inv(g) && NodeFits(g, n')
      && MessageFits(g, AppendAnswer(n1.id, tag, req, R.AppendResponse(req.term, true)))
  {
    hide NodeFits, SliceFits, MessageFits, Inv, OnlyBy, Extends, MayAdopt, Merge, Accept;
    MergeAdopts(h, n1, req);
    var log, m := Merge(n1.log, req.prevIndex, req.entries), req.prevIndex + |req.entries|;
    AcceptKeeps(h, n1.id, log, m);
    AcceptFits(h, n1, R.CommitUpTo(n1.(log := log), req.leaderCommit), req, tag);
  }

  lemma AppendAskFits(h: History, node: R.Node, req: R.AppendRequest, tag: Tag)
    requires Inv(h) && NodeFits(h, node) && node.id in h.term && node.id != req.leader && SliceFits(h, req)
    ensures var (n', resp) := R.OnAppendRequest(node, req);
      var h1 := HeardTerm(h, node.id, req.term);
      var g := if resp.success then Accept(h1, node.id, n'.log, req.prevIndex + |req.entries|) else h1;
      && OnlyBy(h, g, node.id) && Inv(g) && NodeFits(g, n') && n'.id == node.id && node.term <= n'.term
      && MessageFits(g, AppendAnswer(node.id, tag, req, resp))
  {
    hide Inv, OnlyBy, NodeFits, SliceFits, Accept, HeardTerm, MessageFits, Merge;
    HeardFits(h, node, req.term);
    var h1, n0 := HeardTerm(h, node.id, req.term), R.Hear(node, req.term);
    RefusedFits(h, h1, node.id, req, tag, R.OnAppendRequest(node, req).1);
    FollowFits(h1, n0, req);
    if req.term >= node.term && R.PrevMatches(n0.log, req) {
      var n1 := R.Follow(node, req);
      AppendAccepted(h1, n1, req, tag);
      OnlyByTrans(h, h1, Accept(h1, node.id, Merge(n1.log, req.prevIndex, req.entries), req.prevIndex + |req.entries|), node.id);
    }
  }

  lemma RefusedFits(h: History, h1: History, n: NodeId, req: R.AppendRequest, tag: Tag, resp: R.AppendResponse)
    requires OnlyBy(h, h1, n) && n != req.leader && n in h.term && SliceFits(h, req)
    ensures SliceFits(h1, req)
    ensures !resp.success ==> MessageFits(h1, AppendAnswer(n, tag, req, resp))
  {
    MessageFitsStays(h, h1, AppendAnswer(n, tag, req, R.AppendResponse(0, false)));
  }

  lemma FollowFits(h: History, node: R.Node, req: R.AppendRequest)
    requires NodeFits(h, node) && req.term <= node.term
    ensures NodeFits(h, R.Follow(node, req))
  {
  }

  lemma AcceptFits(h: History, n1: R.Node, n': R.Node, req: R.AppendRequest, tag: Tag)
    requires NodeFits(h, n1) && n1.id != req.leader && SliceFits(h, req) && req.term == n1.term
    requires n'.id == n1.id && n'.term == n1.term && n'.votedFor == n1.votedFor && n'.role != R.Candidate
    requires n'.role == R.Leader ==> n1.role == R.Leader
    ensures var m := req.prevIndex + |req.entries|;
      var g := Accept(h, n1.id, n'.log, m);
      && NodeFits(g, n') && n'.role == R.Follower
      && MessageFits(g, AppendAnswer(n1.id, tag, req, R.AppendResponse(req.term, true)))
      && (Extends(h, g) ==> OnlyBy(h, g, n1.id))
  {
  }

  lemma AppendAskKeeps(c: Cluster, m: Message)
    requires ClusterInv(c) && Enabled(c, DeliverAppendAsk(m)) && Linked(c)
    ensures OnlyBy(c.history, AfterAppendAsk(c, m).history, m.to)
    ensures ClusterInv(AfterAppendAsk(c, m))
  {
    hide ClusterInv, Inv, NodeFits, OnlyBy, WinFits, SliceFits, MessageFits, CampaignFits, R.OnAppendRequest, HeardTerm, Accept, NewlyApplied;
    AtAppendAsk(c, m);
    AtNode(c, m.to);
    AppendAskFits(c.history, c.nodes[m.to], m.areq, m.tag);
    StepByKeeps(c, AfterAppendAsk(c, m), m.to);
  }

  lemma AtAppendAsk(c: Cluster, m: Message)
    requires ClusterInv(c) && m in c.net && m.AppendAsk?
    ensures m.to in c.nodes && m.to != m.areq.leader && SliceFits(c.history, m.areq)
  {
    assert MessageFits(c.history, m);
  }

  // ----- Leaders

  lemma ProposeFits(h: History, node: R.Node, op: Op, key: Bytes, value: Bytes)
    requires Inv(h) && NodeFits(h, node) && node.role == R.Leader
    ensures var g := Extend(h, node.id, Entry(node.term, op, key, value));
      OnlyBy(h, g, node.id) && Inv(g) && NodeFits(g, R.Propose(node, op, key, value))
  {
    hide Inv, Extends;
    ExtendKeeps(h, node.id, Entry(node.term, op, key, value));
  }

  lemma ProposeKeeps(c: Cluster, n: NodeId, op: Op, key: Bytes, value: Bytes)
    requires ClusterInv(c) && Enabled(c, Propose(n, op, key, value)) && Linked(c)
    ensures OnlyBy(c.history, AfterPropose(c, n, op, key, value).history, n)
    ensures ClusterInv(AfterPropose(c, n, op, key, value))
  {
    hide ClusterInv, Inv, NodeFits, OnlyBy, WinFits, MessageFits, CampaignFits, Extend;
    AtNode(c, n);
    ProposeFits(c.history, c.nodes[n], op, key, value);
    StepByKeeps(c, AfterPropose(c, n, op, key, value), n);
  }

  /** What a leader sends is a slice of its own log, whatever the next index has become. */
  lemma SentSlice(h: History, node: R.Node, peer: NodeId)
    requires NodeFits(h, node) && node.role == R.Leader && peer in h.term && peer in node.nextIndex && h.term.Keys == Ids(h.peers)
    ensures peer != node.id && CanAddress(node, peer)
    ensures SliceFits(h, R.ProbeRequest(node, peer)) && SliceFits(h, R.ReplicateRequest(node, peer))
  {
  }

  lemma SendAppendKeeps(c: Cluster, n: NodeId, peer: NodeId)
    requires ClusterInv(c) && Enabled(c, SendAppend(n, peer))
    ensures ClusterInv(AfterSendAppend(c, n, peer))
  {
    hide ClusterInv, Inv, NodeFits, OnlyBy, WinFits, CampaignFits, SliceFits;
    AtNode(c, n);
    NodeTerm(c, n);
    SentSlice(c.history, c.nodes[n], peer);
    BystanderKeeps(c, AfterSendAppend(c, n, peer), n);
  }

  /** The peers other than `n` whose match index has reached `x`. */
  function Reached(n: R.Node, peers: seq<NodeId>, x: nat): set<NodeId> {
    set p | p in Ids(peers) && p != n.id && p in n.matchIndex && n.matchIndex[p] >= x
  }

  lemma {:induction false} MatchListCounts(n: R.Node, peers: seq<NodeId>, k: nat, x: nat)
    requires Distinct(peers) && k <= |peers| && forall p | p in peers && p != n.id :: p in n.matchIndex
    ensures CountAtLeast(R.MatchList(n, peers[..k]), x) == |Reached(n, peers[..k], x)|
    ensures |R.MatchList(n, peers[..k])| == k - (if n.id in Ids(peers[..k]) then 1 else 0)
    decreases k
  {
    hide Ids, Distinct;
    if k == 0 {
      NooneReached(n, peers, x);
    } else {
      MatchListCounts(n, peers, k - 1, x);
      OneMoreReached(n, peers, k - 1, x);
      var last, rest := peers[k - 1], peers[..k - 1];
      assert peers[..k][..k - 1] == rest && peers[..k][k - 1] == last;
      if last != n.id { CountAppend(R.MatchList(n, rest), n.matchIndex[last], x); }
    }
  }

  lemma NooneReached(n: R.Node, peers: seq<NodeId>, x: nat)
    ensures Reached(n, peers[..0], x) == {} && n.id !in Ids(peers[..0])
  {
  }

  lemma OneMoreReached(n: R.Node, peers: seq<NodeId>, k: nat, x: nat)
    requires Distinct(peers) && k < |peers| && (peers[k] != n.id ==> peers[k] in n.matchIndex)
    ensures var counts := peers[k] != n.id && n.matchIndex[peers[k]] >= x;
      |Reached(n, peers[..k + 1], x)| == |Reached(n, peers[..k], x)| + (if counts then 1 else 0)
    ensures n.id in Ids(peers[..k + 1]) <==> n.id in Ids(peers[..k]) || n.id == peers[k]
    ensures n.id == peers[k] ==> n.id !in Ids(peers[..k])
  {
    IdsPrefix(peers, k);
    hide Ids, Distinct;
    var last := peers[k];
    if last != n.id && n.matchIndex[last] >= x {
      assert Reached(n, peers[..k + 1], x) == Reached(n, peers[..k], x) + {last};
    } else {
      assert Reached(n, peers[..k + 1], x) == Reached(n, peers[..k], x);
    }
  }

  /** Counting a majority of known indices at or above `x` exhibits a quorum that reached it. */
  lemma SupportersAreQuorum(n: R.Node, peers: seq<NodeId>, x: nat)
    requires Distinct(peers) && n.id in Ids(peers) && n.matchIndex.Keys == Ids(peers) - {n.id}
    requires x <= |n.log| && CountAtLeast(R.KnownIndices(n, peers), x) >= |R.KnownIndices(n, peers)| / 2 + 1
    ensures Quorum(peers, Supporters(n, peers, x))
  {
    assert peers[..|peers|] == peers;
    MatchListCounts(n, peers, |peers|, x);
    KnownCount(n, peers, x);
    assert Supporters(n, peers, x) == Reached(n, peers, x) + {n.id};
  }

  lemma KnownCount(n: R.Node, peers: seq<NodeId>, x: nat)
    requires x <= |n.log|
    ensures CountAtLeast(R.KnownIndices(n, peers), x) == 1 + CountAtLeast(R.MatchList(n, peers), x)
  {
    CountPrepend(|n.log|, R.MatchList(n, peers), x);
  }

  lemma {:induction false} CountPrepend(e: nat, s: seq<nat>, x: nat)
    ensures CountAtLeast([e] + s, x) == (if e >= x then 1 else 0) + CountAtLeast(s, x)
    decreases s
  {
    if s == [] {
      CountAppend([], e, x);
      assert [e] + s == [] + [e];
    } else {
      var init, last := s[..|s| - 1], s[|s| - 1];
      assert [e] + s == ([e] + init) + [last];
      CountAppend([e] + init, last, x);
      CountPrepend(e, init, x);
    }
  }

  /** A leader's own acknowledgement and its match indices vouch for every supporter. */
  lemma SupportersAcked(h: History, n: R.Node, x: nat)
    requires LeaderFits(h, n) && 0 < x <= |n.log|
    ensures forall v {:trigger Acked(h, v, n.term, x)} | v in Supporters(n, h.peers, x) :: Acked(h, v, n.term, x)
  {
    forall v | v in Supporters(n, h.peers, x) ensures Acked(h, v, n.term, x) {
      if v == n.id {
        assert Ack(v, n.term, |n.log|) in h.acks;
      } else {
        assert MatchTrue(h, v, n.term, n.matchIndex[v]);
      }
    }
  }

  ghost predicate Recorded(h: History, g: History, n: R.Node, n': R.Node) {
    g == if n'.commitIndex > n.commitIndex
         then Record(h, Commit(n'.term, n'.commitIndex, Supporters(n', h.peers, n'.commitIndex))) else h
  }

  lemma AdvanceCommitFits(h: History, n: R.Node, g: History)
    requires Inv(h) && NodeFits(h, n) && n.role == R.Leader
    requires Recorded(h, g, n, R.AdvanceCommit(n, h.peers))
    ensures OnlyBy(h, g, n.id) && Inv(g) && NodeFits(g, R.AdvanceCommit(n, h.peers))
    ensures var n' := R.AdvanceCommit(n, h.peers); n'.id == n.id && n'.term == n.term && n'.log == n.log
  {
    var n' := R.AdvanceCommit(n, h.peers);
    hide Inv, Extends, R.KnownIndices, QuorumIndexOf;
    if n'.commitIndex > n.commitIndex {
      CommitFound(h, n);
      RecordKeeps(h, Commit(n'.term, n'.commitIndex, Supporters(n', h.peers, n'.commitIndex)));
    } else {
      SameExtends(h);
    }
  }

  /** What the commit rule finds is a commit in the sense of the history. */
  lemma CommitFound(h: History, n: R.Node)
    requires Inv(h) && NodeFits(h, n) && n.role == R.Leader
    requires R.AdvanceCommit(n, h.peers).commitIndex > n.commitIndex
    ensures var n' := R.AdvanceCommit(n, h.peers);
      CommitOk(h, Commit(n'.term, n'.commitIndex, Supporters(n', h.peers, n'.commitIndex)))
  {
    var n' := R.AdvanceCommit(n, h.peers);
    var x := n'.commitIndex;
    assert x == QuorumIndexOf(R.KnownIndices(n, h.peers));
    hide Inv, R.KnownIndices;
    assert Shape(h) by { ShapeOf(h); }
    SupportersAreQuorum(n, h.peers, x);
    SupportersAcked(h, n, x);
    assert Supporters(n', h.peers, x) == Supporters(n, h.peers, x);
  }

  lemma ShapeOf(h: History)
    requires Inv(h)
    ensures Shape(h)
  {
  }

  lemma MatchUpdated(h: History, n: R.Node, peer: NodeId, req: R.AppendRequest)
    requires NodeFits(h, n) && n.role == R.Leader && req.term == n.term && req.leader == n.id && SliceFits(h, req)
    requires peer in h.term && h.term.Keys == Ids(h.peers) && peer != n.id
    requires Ack(peer, req.term, req.prevIndex + |req.entries|) in h.acks
    ensures var last := req.prevIndex + |req.entries|;
      NodeFits(h, n.(matchIndex := n.matchIndex[peer := last], nextIndex := n.nextIndex[peer := last + 1]))
  {
    var last := req.prevIndex + |req.entries|;
    var n' := n.(matchIndex := n.matchIndex[peer := last], nextIndex := n.nextIndex[peer := last + 1]);
    assert n'.nextIndex.Keys == n.nextIndex.Keys && n'.matchIndex.Keys == n.matchIndex.Keys;
  }

  lemma NextLowered(h: History, n: R.Node, peer: NodeId)
    requires NodeFits(h, n) && n.role == R.Leader && peer in n.nextIndex && n.nextIndex[peer] > 1
    ensures NodeFits(h, n.(nextIndex := n.nextIndex[peer := n.nextIndex[peer] - 1]))
  {
    var n' := n.(nextIndex := n.nextIndex[peer := n.nextIndex[peer] - 1]);
    assert n'.nextIndex.Keys == n.nextIndex.Keys;
  }

  lemma AppendAnswerFits(h: History, n: R.Node, m: Message, g: History)
    requires Inv(h) && NodeFits(h, n) && m.AppendAnswer? && MessageFits(h, m) && m.areq.leader == n.id
    requires n.id in h.term && h.term.Keys == Ids(h.peers) && h.term[n.id] == n.term
    requires var n' := R.OnAppendResponse(n, h.peers, m.from, m.areq, m.aresp);
      Recorded(HeardTerm(h, n.id, n'.term), g, n, n')
    ensures var n' := R.OnAppendResponse(n, h.peers, m.from, m.areq, m.aresp);
      OnlyBy(h, g, n.id) && Inv(g) && NodeFits(g, n') && n'.id == n.id && n.term <= n'.term
  {
    hide Inv, OnlyBy, NodeFits, SliceFits, MessageFits, R.AdvanceCommit, Supporters;
    var req := m.areq;
    AnswerMeans(h, m);
    AdvanceFrame(Matched(n, m.from, req), h.peers);
    if n.role != R.Leader || n.term != req.term {
      SameOnlyBy(h, n.id);
    } else if m.aresp.term > n.term {
      BecomeFollowerFits(h, n, m.aresp.term);
    } else if m.aresp.success {
      SuccessFits(h, n, m.from, req, g);
    } else {
      SameOnlyBy(h, n.id);
      if m.from in n.nextIndex && n.nextIndex[m.from] > 1 { NextLowered(h, n, m.from); }
    }
  }

  /** The leader's bookkeeping for a successful reply. */
  function Matched(n: R.Node, from: NodeId, req: R.AppendRequest): R.Node {
    var last := req.prevIndex + |req.entries|;
    if req.entries == [] then n else n.(matchIndex := n.matchIndex[from := last], nextIndex := n.nextIndex[from := last + 1])
  }

  lemma SuccessFits(h: History, n: R.Node, from: NodeId, req: R.AppendRequest, g: History)
    requires Inv(h) && NodeFits(h, n) && n.role == R.Leader && n.term == req.term && n.id == req.leader && from != n.id
    requires n.id in h.term && h.term.Keys == Ids(h.peers) && h.term[n.id] == n.term && from in h.term
    requires SliceFits(h, req) && Ack(from, req.term, req.prevIndex + |req.entries|) in h.acks
    requires Recorded(h, g, n, R.AdvanceCommit(Matched(n, from, req), h.peers))
    ensures var n' := R.AdvanceCommit(Matched(n, from, req), h.peers);
      OnlyBy(h, g, n.id) && Inv(g) && NodeFits(g, n') && n'.id == n.id && n.term <= n'.term
  {
    hide Inv, OnlyBy, NodeFits, SliceFits, R.AdvanceCommit, Supporters;
    var n1 := Matched(n, from, req);
    if req.entries != [] { MatchUpdated(h, n, from, req); }
    AdvanceFrame(n1, h.peers);
    AdvanceCommitFits(h, n1, g);
  }

  lemma AdvanceFrame(n: R.Node, peers: seq<NodeId>)
    ensures var n' := R.AdvanceCommit(n, peers);
      && n'.term == n.term && n'.id == n.id && n'.commitIndex >= n.commitIndex
      && n'.log == n.log && n'.nextIndex == n.nextIndex && n'.matchIndex == n.matchIndex
  {
  }

  lemma AnswerMeans(h: History, m: Message)
    requires m.AppendAnswer? && MessageFits(h, m)
    ensures m.from in h.term && m.from != m.areq.leader && SliceFits(h, m.areq)
    ensures m.aresp.success ==> Ack(m.from, m.areq.term, m.areq.prevIndex + |m.areq.entries|) in h.acks
  {
  }

  lemma SameOnlyBy(h: History, n: NodeId)
    requires Inv(h)
    ensures OnlyBy(h, h, n)
  {
    SameExtends(h);
  }

  lemma AppendAnswerKeeps(c: Cluster, m: Message)
    requires ClusterInv(c) && Enabled(c, DeliverAppendAnswer(m)) && Linked(c)
    ensures OnlyBy(c.history, AfterAppendAnswer(c, m).history, m.areq.leader)
    ensures ClusterInv(AfterAppendAnswer(c, m))
  {
    hide ClusterInv, Inv, NodeFits, OnlyBy, WinFits, MessageFits, CampaignFits, R.OnAppendResponse, HeardTerm, Record,
      NewlyApplied, Supporters, Recorded;
    var n, d := m.areq.leader, AfterAppendAnswer(c, m);
    AtMessage(c, m);
    AtNode(c, n);
    NodeTerm(c, n);
    AnswerRecorded(c, m);
    AppendAnswerFits(c.history, c.nodes[n], m, d.history);
    StepByKeeps(c, d, n);
  }

  lemma AnswerRecorded(c: Cluster, m: Message)
    requires Enabled(c, DeliverAppendAnswer(m)) && Linked(c) && c.peers == c.history.peers
    ensures var n := m.areq.leader;
      var n' := R.OnAppendResponse(c.nodes[n], c.history.peers, m.from, m.areq, m.aresp);
      Recorded(HeardTerm(c.history, n, n'.term), AfterAppendAnswer(c, m).history, c.nodes[n], n')
  {
    hide R.OnAppendResponse, Supporters, Record, NewlyApplied;
  }

  lemma NodeTerm(c: Cluster, n: NodeId)
    requires ClusterInv(c) && n in c.nodes
    ensures c.history.term.Keys == Ids(c.peers) && c.history.term[n] == c.nodes[n].term
  {
    assert NodeAt(c, n);
  }

  // ----- Confirmation rounds and restarts

  lemma SendProbeKeeps(c: Cluster, r: nat)
    requires ClusterInv(c) && Enabled(c, SendProbe(r))
    ensures ClusterInv(AfterSendProbe(c, r))
  {
    hide ClusterInv, Inv, NodeFits, OnlyBy, WinFits, CampaignFits, SliceFits;
    var n, d := c.rounds[r].owner, AfterSendProbe(c, r);
    var peer := c.peers[c.rounds[r].next];
    AtNode(c, n);
    NodeTerm(c, n);
    if peer != n && Holds(c, r) {
      SentSlice(c.history, c.nodes[n], peer);
      hide R.ProbeRequest;
      BystanderKeeps(c, d, n);
    } else {
      BystanderKeeps(c, d, n);
    }
  }

  lemma EndProbeKeeps(c: Cluster, r: nat, answer: Option<Message>)
    requires ClusterInv(c) && Enabled(c, EndProbe(r, answer)) && Linked(c)
    ensures OnlyBy(c.history, AfterEndProbe(c, r, answer).history, c.rounds[r].owner)
    ensures ClusterInv(AfterEndProbe(c, r, answer))
  {
    hide ClusterInv, Inv, NodeFits, OnlyBy, WinFits, MessageFits, CampaignFits;
    var n := c.rounds[r].owner;
    AtNode(c, n);
    NodeTerm(c, n);
    if answer.None? || answer.value.aresp.term <= c.nodes[n].term {
      BystanderKeeps(c, AfterEndProbe(c, r, answer), n);
    } else {
      BecomeFollowerFits(c.history, c.nodes[n], answer.value.aresp.term);
      StepByKeeps(c, AfterEndProbe(c, r, answer), n);
    }
  }

  lemma RestartKeeps(c: Cluster, n: NodeId)
    requires ClusterInv(c) && Enabled(c, Restart(n))
    ensures ClusterInv(AfterRestart(c, n))
  {
    hide ClusterInv, Inv, NodeFits, OnlyBy, WinFits, MessageFits, CampaignFits;
    AtNode(c, n);
    SameOnlyBy(c.history, n);
    RestartFits(c.history, c.nodes[n]);
    StepByKeeps(c, AfterRestart(c, n), n);
  }

  lemma RestartFits(h: History, node: R.Node)
    requires NodeFits(h, node)
    ensures NodeFits(h, R.Restart(node))
  {
  }

  // ----- Every run

  lemma StepKeeps(c: Cluster, s: Step)
    requires ClusterInv(c) && Enabled(c, s) && Linked(c)
    ensures ClusterInv(After(c, s))
  {
    hide ClusterInv;
    match s
    case StartElection(n) => StartElectionKeeps(c, n);
    case PollPeer(n, answer) => PollPeerKeeps(c, n, answer);
    case FinishElection(n) => FinishElectionKeeps(c, n);
    case DeliverVoteAsk(m) => VoteAskKeeps(c, m);
    case DeliverAppendAsk(m) => AppendAskKeeps(c, m);
    case Propose(n, op, key, value) => ProposeKeeps(c, n, op, key, value);
    case SendAppend(n, peer) => SendAppendKeeps(c, n, peer);
    case DeliverAppendAnswer(m) => AppendAnswerKeeps(c, m);
    case BeginRound(n, r) => BystanderKeeps(c, AfterBeginRound(c, n, r), n);
    case SendProbe(r) => SendProbeKeeps(c, r);
    case EndProbe(r, answer) => EndProbeKeeps(c, r, answer);
    case FinishRound(r) => FinishRoundKeeps(c, r);
    case Restart(n) => RestartKeeps(c, n);
  }

  /** No step ever takes back what the history holds. */
  lemma StepExtends(c: Cluster, s: Step)
    requires ClusterInv(c) && Enabled(c, s) && Linked(c)
    ensures Extends(c.history, After(c, s).history)
  {
    hide ClusterInv, Inv, Extends, AfterStartElection, AfterPollPeer, AfterFinishElection, AfterVoteAsk, AfterAppendAsk,
      AfterPropose, AfterAppendAnswer, AfterEndProbe;
    match s
    case StartElection(n) => StartElectionKeeps(c, n);
    case PollPeer(n, answer) => PollPeerKeeps(c, n, answer);
    case FinishElection(n) => FinishElectionKeeps(c, n);
    case DeliverVoteAsk(m) => VoteAskKeeps(c, m);
    case DeliverAppendAsk(m) => AppendAskKeeps(c, m);
    case Propose(n, op, key, value) => ProposeKeeps(c, n, op, key, value);
    case DeliverAppendAnswer(m) => AppendAnswerKeeps(c, m);
    case EndProbe(r, answer) => EndProbeKeeps(c, r, answer);
    case _ => SameHistory(c);
  }

  lemma SameHistory(c: Cluster)
    requires ClusterInv(c)
    ensures Extends(c.history, c.history)
  {
    SameExtends(c.history);
  }

  lemma FinishRoundKeeps(c: Cluster, r: nat)
    requires ClusterInv(c) && Enabled(c, FinishRound(r))
    ensures ClusterInv(AfterFinishRound(c, r))
  {
    hide Inv, NodeFits, MessageFits, WinFits, CampaignFits;
    var d := AfterFinishRound(c, r);
    forall n | n in d.nodes ensures NodeAt(d, n) { assert NodeAt(c, n); }
    forall n | n in d.campaigns ensures CampaignAt(d, n) { assert CampaignAt(c, n); }
  }

  lemma InitInv(peers: seq<NodeId>)
    requires Distinct(peers) && 0 !in peers
    ensures ClusterInv(Init(peers))
  {
    hide Inv;
    var c := Init(peers);
    InitHistory(peers);
    forall n | n in c.nodes ensures NodeAt(c, n) {}
  }

  lemma InitHistory(peers: seq<NodeId>)
    requires Distinct(peers)
    ensures Inv(Init(peers).history)
  {
    var h := Init(peers).history;
    forall n | n in h.log ensures NodeOk(h, n) {}
  }

  /** The invariant holds in every state of every run over a validated peer list. */
  lemma {:induction false} RunInv(peers: seq<NodeId>, steps: seq<Step>)
    requires Distinct(peers) && 0 !in peers && Run(peers, steps).Some?
    ensures ClusterInv(Run(peers, steps).value)
    decreases |steps|
  {
    hide ClusterInv, Init, After, Enabled;
    if steps == [] {
      InitInv(peers);
    } else {
      RunInv(peers, steps[..|steps| - 1]);
      StepKeeps(Run(peers, steps[..|steps| - 1]).value, steps[|steps| - 1]);
    }
  }
}
