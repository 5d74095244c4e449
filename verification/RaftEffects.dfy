/** What every kind of step does, in every run: the whole new state of the node and every message it
    sends, decided by what the cluster has voted, elected and written rather than by the node's own code. */
module RaftEffects {
  import opened Bytes
  import opened ClusterConfig
  import opened Logs
  import opened Options
  import opened QuorumIndex
  import opened Store
  import opened RaftHistory
  import opened RaftCluster
  import opened RaftInvariant
  import opened RaftCommit
  import opened RaftHistoryProofs
  import opened RaftRead
  import opened RaftSafety
  import R = RaftSteps

  /** In some run the cluster is `c` after `steps`, and `d` after one more step `s`. */
  ghost predicate Goes(peers: seq<NodeId>, steps: seq<Step>, s: Step, c: Cluster, d: Cluster) {
    IsRun(peers, steps + [s]) && Run(peers, steps) == Some(c) && Run(peers, steps + [s]) == Some(d)
  }

  lemma Taken(peers: seq<NodeId>, steps: seq<Step>, s: Step, c: Cluster, d: Cluster)
    requires Goes(peers, steps, s, c, d)
    ensures ClusterInv(c) && Linked(c) && Enabled(c, s) && d == After(c, s)
  {
    hide ClusterInv, Init, After, Enabled, Linked;
    RunInv(peers, steps);
    assert (steps + [s])[..|steps|] == steps;
  }

  /** No node but `n` changed. */
  ghost predicate OnlyNode(c: Cluster, d: Cluster, n: NodeId) {
    && n in c.nodes && d.nodes.Keys == c.nodes.Keys
    && forall k | k in c.nodes && k != n :: d.nodes[k] == c.nodes[k]
  }

  // ----- Votes

  /** The voter is not past the term, has cast no ballot for another candidate in it, and the candidate
      campaigned with a log at least as up to date as the voter's. */
  ghost predicate MayVote(h: History, a: R.Node, req: R.VoteRequest) {
    var slot := Slot(req.term, a.id);
    && a.term <= req.term
    && (slot in h.ballots ==> h.ballots[slot].candidate == req.candidate)
    && Slot(req.term, req.candidate) in h.bids
    && UpToDate(h.bids[Slot(req.term, req.candidate)], a.log)
  }

  /** A vote is granted exactly if it may be. The reply carries the larger of the two terms, and a higher
      term makes the voter a follower, whether it grants the vote or not. */
  lemma VoteDecided(peers: seq<NodeId>, steps: seq<Step>, m: Message, c: Cluster, d: Cluster)
    requires Goes(peers, steps, DeliverVoteAsk(m), c, d)
    ensures m.VoteAsk? && OnlyNode(c, d, m.to) && d == c.(nodes := d.nodes, net := d.net, history := d.history)
    ensures var a, req := c.nodes[m.to], m.vreq;
      var granted, rose := MayVote(c.history, a, req), req.term > a.term;
      && d.net == c.net + {VoteAnswer(m.to, req, R.VoteResponse(Max(a.term, req.term), granted))}
      && d.nodes[m.to] == a.(
        term := Max(a.term, req.term),
        votedFor := if granted then req.candidate else if rose then 0 else a.votedFor,
        role := if rose then R.Follower else a.role,
        leaderId := if rose then 0 else a.leaderId)
    ensures var a, slot := c.nodes[m.to], Slot(m.vreq.term, m.to);
      d.history.ballots == if MayVote(c.history, a, m.vreq) && slot !in c.history.ballots
        then c.history.ballots[slot := Ballot(m.vreq.candidate, a.log)] else c.history.ballots
  {
    hide Run, ClusterInv, Inv, NodeFits, R.OnVoteRequest, Cast, HeardTerm, MayVote;
    Taken(peers, steps, DeliverVoteAsk(m), c, d);
    AtNode(c, m.to);
    AtMessage(c, m);
    VoteRule(c.history, c.nodes[m.to], m.vreq);
    VoteHistory(c.history, c.nodes[m.to], m.vreq);
  }

  lemma VoteRule(h: History, a: R.Node, req: R.VoteRequest)
    requires Inv(h) && NodeFits(h, a) && MessageFits(h, VoteAsk(a.id, req))
    ensures MayVote(h, a, req) ==> a.term <= req.term
    ensures var (b, resp) := R.OnVoteRequest(a, req);
      var granted, rose := MayVote(h, a, req), req.term > a.term;
      && resp == R.VoteResponse(Max(a.term, req.term), granted)
      && b == a.(term := Max(a.term, req.term),
                 votedFor := if granted then req.candidate else if rose then 0 else a.votedFor,
                 role := if rose then R.Follower else a.role,
                 leaderId := if rose then 0 else a.leaderId)
  {
    assert Slot(req.term, a.id) in h.ballots ==> BallotOk(h, Slot(req.term, a.id));
    hide Inv, BallotOk;
  }

  lemma VoteHistory(h: History, a: R.Node, req: R.VoteRequest)
    requires Inv(h) && NodeFits(h, a)
    ensures var h1 := HeardTerm(h, a.id, req.term);
      h1.ballots == h.ballots && a.id in h1.term && a.id in h1.log
    ensures a.term <= req.term ==>
      var h1, slot := HeardTerm(h, a.id, req.term), Slot(req.term, a.id);
      Cast(h1, a.id, req.candidate).ballots ==
        if slot in h.ballots then h.ballots else h.ballots[slot := Ballot(req.candidate, a.log)]
  {
    hide Inv;
  }

  // ----- Elections

  /** An election raises the term by one, takes the candidate's own vote, and asks every other peer,
      showing where the candidate's log ends. */
  lemma ElectionStarted(peers: seq<NodeId>, steps: seq<Step>, n: NodeId, c: Cluster, d: Cluster)
    requires Goes(peers, steps, StartElection(n), c, d)
    ensures OnlyNode(c, d, n) && d == c.(nodes := d.nodes, net := d.net, campaigns := d.campaigns, history := d.history)
    ensures var a := c.nodes[n];
      && d.nodes[n] == a.(term := a.term + 1, votedFor := n, role := R.Candidate, leaderId := 0)
      && d.campaigns == c.campaigns[n := Campaign(a.term + 1, 0, 1, {n})]
      && d.history.ballots == c.history.ballots[Slot(a.term + 1, n) := Ballot(n, a.log)]
      && d.net == c.net + (set p | p in c.peers && p != n ::
           VoteAsk(p, R.VoteRequest(a.term + 1, n, |a.log|, if a.log == [] then 0 else a.log[|a.log| - 1].term)))
  {
    hide Run, ClusterInv, Inv;
    Taken(peers, steps, StartElection(n), c, d);
    AtNode(c, n);
  }

  /** A reply to a candidate still in the campaign's term counts if it grants, and ends the campaign if
      its term is higher; a reply that comes too late ends the campaign and does nothing else. */
  lemma VoteReplyHeard(peers: seq<NodeId>, steps: seq<Step>, n: NodeId, reply: Message, c: Cluster, d: Cluster)
    requires Goes(peers, steps, PollPeer(n, Some(reply)), c, d)
    ensures reply.VoteAnswer? && n in c.campaigns && OnlyNode(c, d, n)
    ensures d == c.(nodes := d.nodes, campaigns := d.campaigns, history := d.history)
    ensures var a, b, campaign, resp := c.nodes[n], d.nodes[n], c.campaigns[n], reply.vresp;
      if a.role == R.Candidate && a.term == campaign.term && resp.term <= a.term then
        && b == a
        && d.campaigns == c.campaigns[n := campaign.(
             next := campaign.next + 1,
             votes := campaign.votes + (if resp.granted then 1 else 0),
             granted := campaign.granted + (if resp.granted then {reply.from} else {}))]
      else
        && b == (if a.role == R.Candidate && a.term == campaign.term
                 then a.(term := resp.term, votedFor := 0, role := R.Follower, leaderId := 0) else a)
        && d.campaigns == map k | k in c.campaigns && k != n :: c.campaigns[k]
  {
    hide Run, ClusterInv;
    Taken(peers, steps, PollPeer(n, Some(reply)), c, d);
    assert c.campaigns[n].granted + {} == c.campaigns[n].granted;
  }

  /** A peer that does not answer is passed over. */
  lemma VoteUnanswered(peers: seq<NodeId>, steps: seq<Step>, n: NodeId, c: Cluster, d: Cluster)
    requires Goes(peers, steps, PollPeer(n, None), c, d)
    ensures n in c.campaigns
    ensures d == c.(campaigns := c.campaigns[n := c.campaigns[n].(next := c.campaigns[n].next + 1)])
  {
    hide Run, ClusterInv;
    Taken(peers, steps, PollPeer(n, None), c, d);
  }

  /** A candidate wins exactly if it is still in its campaign's term and a majority has granted it a
      ballot; it then expects every peer to hold its whole log and knows of none that it does. */
  lemma ElectionFinished(peers: seq<NodeId>, steps: seq<Step>, n: NodeId, c: Cluster, d: Cluster)
    requires Goes(peers, steps, FinishElection(n), c, d)
    ensures n in c.campaigns && OnlyNode(c, d, n) && c.nodes[n].id == n
    ensures d.campaigns == map k | k in c.campaigns && k != n :: c.campaigns[k]
    ensures forall v | v in c.campaigns[n].granted ::
      Slot(c.campaigns[n].term, v) in c.history.ballots && c.history.ballots[Slot(c.campaigns[n].term, v)].candidate == n
    ensures var a, campaign := c.nodes[n], c.campaigns[n];
      d.nodes[n] ==
        if a.role == R.Candidate && a.term == campaign.term && Quorum(c.peers, campaign.granted) then
          a.(role := R.Leader, leaderId := n,
             nextIndex := map p | p in c.peers && p != n :: |a.log| + 1,
             matchIndex := map p | p in c.peers && p != n :: 0)
        else a
  {
    hide Run, ClusterInv, Inv, NodeFits, CampaignFits, Quorum, R.BecomeLeader, Elect;
    Taken(peers, steps, FinishElection(n), c, d);
    AtNode(c, n);
    AtCampaign(c, n);
    CampaignMeans(c.history, c.nodes[n], c.campaigns[n]);
    WinnerIs(c.nodes[n], c.peers);
  }

  lemma WinnerIs(a: R.Node, peers: seq<NodeId>)
    ensures R.BecomeLeader(a, peers) == a.(
      role := R.Leader, leaderId := a.id,
      nextIndex := map p | p in peers && p != a.id :: |a.log| + 1,
      matchIndex := map p | p in peers && p != a.id :: 0)
  {
  }

  lemma CampaignMeans(h: History, a: R.Node, campaign: Campaign)
    requires CampaignFits(h, a, campaign)
    ensures Quorum(h.peers, campaign.granted) <==> campaign.votes >= Majority(h.peers)
    ensures forall v | v in campaign.granted ::
      Slot(campaign.term, v) in h.ballots && h.ballots[Slot(campaign.term, v)].candidate == a.id
  {
    assert Ids(h.peers[..campaign.next]) <= Ids(h.peers);
  }

  // ----- Requests of a leader

  /** What a leader sends to `peer`: everything from its next index on, or nothing in a probe, after the
      entry before that index. */
  ghost predicate Asks(a: R.Node, peer: NodeId, req: R.AppendRequest, probe: bool) {
    && peer in a.nextIndex && 1 <= a.nextIndex[peer] <= |a.log| + 1
    && var prev := a.nextIndex[peer] - 1;
    && req.term == a.term && req.leader == a.id && req.leaderCommit == a.commitIndex && req.prevIndex == prev
    && req.prevTerm == (if prev == 0 then 0 else a.log[prev - 1].term)
    && req.entries == if probe then [] else a.log[prev..]
  }

  lemma RequestSent(peers: seq<NodeId>, steps: seq<Step>, n: NodeId, peer: NodeId, c: Cluster, d: Cluster)
    requires Goes(peers, steps, SendAppend(n, peer), c, d)
    ensures n in c.nodes && c.nodes[n].role == R.Leader && d == c.(net := d.net)
    ensures exists req :: Asks(c.nodes[n], peer, req, false) && d.net == c.net + {AppendAsk(peer, Replicate, req)}
  {
    hide Run, ClusterInv, Inv;
    Taken(peers, steps, SendAppend(n, peer), c, d);
    AtNode(c, n);
    var req := R.ReplicateRequest(c.nodes[n], peer);
    assert Asks(c.nodes[n], peer, req, false);
  }

  lemma Proposed(peers: seq<NodeId>, steps: seq<Step>, n: NodeId, op: Op, key: Bytes, value: Bytes, c: Cluster, d: Cluster)
    requires Goes(peers, steps, Propose(n, op, key, value), c, d)
    ensures OnlyNode(c, d, n) && c.nodes[n].role == R.Leader && d == c.(nodes := d.nodes, proposals := d.proposals, history := d.history)
    ensures d.nodes[n] == c.nodes[n].(log := c.nodes[n].log + [Entry(c.nodes[n].term, op, key, value)])
    ensures c.nodes[n].term in d.history.ledger && d.history.ledger[c.nodes[n].term] == d.nodes[n].log
  {
    hide Run, ClusterInv, Inv;
    Taken(peers, steps, Propose(n, op, key, value), c, d);
    AtNode(c, n);
  }

  // ----- Replies to a leader

  /** The leader may commit `x`: its entry is of the leader's own term and a majority holds it. */
  ghost predicate Committable(a: R.Node, peers: seq<NodeId>, x: nat) {
    0 < x <= |a.log| && a.log[x - 1].term == a.term && Quorum(peers, Supporters(a, peers, x))
  }

  /** From `a` to `b` the commit index moved to `to`, if it moved, and memory with it. */
  ghost predicate CommitsTo(a: R.Node, b: R.Node, moved: bool, to: nat) {
    if moved then
      && b.commitIndex == to <= |b.log|
      && b.lastApplied == Max(a.lastApplied, to) && b.kv == ReplayOn(a.kv, Past(b.log, a.lastApplied, to))
    else b.commitIndex == a.commitIndex && b.lastApplied == a.lastApplied && b.kv == a.kv
  }

  /** To a node that still leads the request's term, a reply of a higher term ends its leadership; a
      refusal lowers the sender's next index by one, but not below one; a success moves both indices to
      the end of what was sent, and the commit index to the last index that may be committed, if that is
      higher. To any other node the reply means nothing. */
  lemma AppendReplyHeard(peers: seq<NodeId>, steps: seq<Step>, m: Message, c: Cluster, d: Cluster)
    requires Goes(peers, steps, DeliverAppendAnswer(m), c, d)
    ensures m.AppendAnswer? && OnlyNode(c, d, m.areq.leader) && m.from in c.nodes
    ensures d == c.(nodes := d.nodes, applied := d.applied, history := d.history)
    ensures var a, b, resp := c.nodes[m.areq.leader], d.nodes[m.areq.leader], m.aresp;
      if a.role != R.Leader || a.term != m.areq.term then b == a
      else if resp.term > a.term then b == a.(term := resp.term, votedFor := 0, role := R.Follower, leaderId := 0)
      else if !resp.success then Refused(a, b, m.from)
      else Succeeded(a, b, c.peers, m.from, m.areq)
  {
    hide Run, ClusterInv, Inv, NodeFits, R.OnAppendResponse, HeardTerm, Supporters, NewlyApplied, Refused, Succeeded, SliceFits;
    Taken(peers, steps, DeliverAppendAnswer(m), c, d);
    AtNode(c, m.areq.leader);
    AtMessage(c, m);
    SendersAreNodes(c, m);
    ReplyRule(c.history, c.nodes[m.areq.leader], m);
  }

  lemma SendersAreNodes(c: Cluster, m: Message)
    requires ClusterInv(c) && m in c.net && m.AppendAnswer?
    ensures m.from in c.nodes
  {
    assert MessageFits(c.history, m);
  }

  ghost predicate Refused(a: R.Node, b: R.Node, peer: NodeId) {
    && peer in a.nextIndex && a.nextIndex[peer] >= 1
    && b == a.(nextIndex := a.nextIndex[peer := Max(1, a.nextIndex[peer] - 1)])
  }

  ghost predicate Succeeded(a: R.Node, b: R.Node, peers: seq<NodeId>, peer: NodeId, req: R.AppendRequest) {
    var last := req.prevIndex + |req.entries|;
    && b == a.(
         matchIndex := if req.entries == [] then a.matchIndex else a.matchIndex[peer := last],
         nextIndex := if req.entries == [] then a.nextIndex else a.nextIndex[peer := last + 1],
         commitIndex := b.commitIndex, lastApplied := b.lastApplied, kv := b.kv)
    && CommitsTo(a, b, b.commitIndex > a.commitIndex, b.commitIndex)
    && a.commitIndex <= b.commitIndex && (b.commitIndex > a.commitIndex ==> Committable(b, peers, b.commitIndex))
    && forall x: nat | Committable(b, peers, x) :: x <= b.commitIndex
  }

  lemma ReplyRule(h: History, a: R.Node, m: Message)
    requires Inv(h) && NodeFits(h, a) && m.AppendAnswer? && MessageFits(h, m) && m.areq.leader == a.id
    ensures var b, resp := R.OnAppendResponse(a, h.peers, m.from, m.areq, m.aresp), m.aresp;
      if a.role != R.Leader || a.term != m.areq.term then b == a
      else if resp.term > a.term then b == a.(term := resp.term, votedFor := 0, role := R.Follower, leaderId := 0)
      else if !resp.success then Refused(a, b, m.from)
      else Succeeded(a, b, h.peers, m.from, m.areq)
  {
    hide Inv, R.AdvanceCommit, Succeeded, SliceFits;
    ShapeOf(h);
    if a.role == R.Leader && a.term == m.areq.term && m.aresp.term <= a.term {
      if m.aresp.success {
        SuccessRule(h, a, m.from, m.areq);
      } else {
        var same := a.nextIndex[m.from := a.nextIndex[m.from]];
        assert same == a.nextIndex;
      }
    }
  }

  lemma SuccessRule(h: History, a: R.Node, peer: NodeId, req: R.AppendRequest)
    requires Inv(h) && NodeFits(h, a) && a.role == R.Leader && req.term == a.term && req.leader == a.id && SliceFits(h, req)
    requires peer in h.term && h.term.Keys == Ids(h.peers) && peer != a.id
    requires Ack(peer, req.term, req.prevIndex + |req.entries|) in h.acks
    ensures var last := req.prevIndex + |req.entries|;
      var n := if req.entries == [] then a else a.(matchIndex := a.matchIndex[peer := last], nextIndex := a.nextIndex[peer := last + 1]);
      Succeeded(a, R.AdvanceCommit(n, h.peers), h.peers, peer, req)
  {
    hide Inv, NodeFits, R.AdvanceCommit, SliceFits, Committable;
    var last := req.prevIndex + |req.entries|;
    var n := if req.entries == [] then a else a.(matchIndex := a.matchIndex[peer := last], nextIndex := a.nextIndex[peer := last + 1]);
    MatchUpdated(h, a, peer, req);
    CommitRule(h, n);
    var b := R.AdvanceCommit(n, h.peers);
    forall x: nat ensures Committable(b, h.peers, x) == Committable(n, h.peers, x) { SameCommittable(n, b, h.peers, x); }
  }

  lemma SameCommittable(a: R.Node, b: R.Node, peers: seq<NodeId>, x: nat)
    requires a.log == b.log && a.term == b.term && a.matchIndex == b.matchIndex && a.id == b.id
    ensures Committable(a, peers, x) == Committable(b, peers, x)
  {
    assert Supporters(a, peers, x) == Supporters(b, peers, x);
  }

  /** Counting known indices is counting the nodes that reached `x`. */
  lemma SupportersCount(n: R.Node, peers: seq<NodeId>, x: nat)
    requires Distinct(peers) && n.id in Ids(peers) && n.matchIndex.Keys == Ids(peers) - {n.id} && x <= |n.log|
    ensures |R.KnownIndices(n, peers)| == |peers| && CountAtLeast(R.KnownIndices(n, peers), x) == |Supporters(n, peers, x)|
    ensures Supporters(n, peers, x) <= Ids(peers)
  {
    assert peers[..|peers|] == peers;
    MatchListCounts(n, peers, |peers|, x);
    KnownCount(n, peers, x);
    assert Supporters(n, peers, x) == Reached(n, peers, x) + {n.id};
  }

  /** No peer is known to hold more than the leader does. */
  lemma NoneBeyondLog(h: History, n: R.Node)
    requires Inv(h) && NodeFits(h, n) && n.role == R.Leader
    ensures QuorumIndexOf(R.KnownIndices(n, h.peers)) <= |n.log|
  {
    hide QuorumIndexOf;
    var x := QuorumIndexOf(R.KnownIndices(n, h.peers));
    ShapeOf(h);
    assert h.peers[..|h.peers|] == h.peers;
    MatchListCounts(n, h.peers, |h.peers|, x);
    CountPrepend(|n.log|, R.MatchList(n, h.peers), x);
    forall p | p in n.matchIndex ensures n.matchIndex[p] <= |n.log| { MatchWithin(h, n, p); }
    forall y: nat | y > |n.log| ensures Reached(n, h.peers, y) == {} {
    }
  }

  lemma MatchWithin(h: History, n: R.Node, p: NodeId)
    requires Inv(h) && NodeFits(h, n) && n.role == R.Leader && p in n.matchIndex
    ensures n.matchIndex[p] <= |n.log|
  {
    assert MatchTrue(h, p, n.term, n.matchIndex[p]);
    assert n.matchIndex[p] > 0 ==> AckOk(h, Ack(p, n.term, n.matchIndex[p]));
  }

  /** The commit rule finds the last index that may be committed. */
  lemma CommitRule(h: History, n: R.Node)
    requires Inv(h) && NodeFits(h, n) && n.role == R.Leader
    ensures var b := R.AdvanceCommit(n, h.peers);
      && b == n.(commitIndex := b.commitIndex, lastApplied := b.lastApplied, kv := b.kv)
      && CommitsTo(n, b, b.commitIndex > n.commitIndex, b.commitIndex)
      && n.commitIndex <= b.commitIndex && (b.commitIndex > n.commitIndex ==> Committable(n, h.peers, b.commitIndex))
      && forall x: nat | Committable(n, h.peers, x) :: x <= b.commitIndex
  {
    hide Inv, R.KnownIndices, QuorumIndexOf, CommitsTo, Supporters, R.ApplyCommitted;
    var b, found := R.AdvanceCommit(n, h.peers), QuorumIndexOf(R.KnownIndices(n, h.peers));
    ShapeOf(h);
    NoneBeyondLog(h, n);
    SupportersCount(n, h.peers, found);
    forall x: nat | Committable(n, h.peers, x) ensures x <= found && n.log[found - 1].term == n.term {
      SupportersCount(n, h.peers, x);
      OwnTermTail(h, n, x, found);
    }
    AdvanceMoves(n, found, b);
  }

  lemma OwnTermTail(h: History, n: R.Node, x: nat, y: nat)
    requires Inv(h) && NodeFits(h, n) && 0 < x <= |n.log| && y <= |n.log| && n.log[x - 1].term == n.term
    ensures x <= y ==> n.log[y - 1].term == n.term
  {
    assert NodeOk(h, n.id);
    if x <= y {
      assert Backed(h.ledger, n.log, y - 1);
      assert LedgerOk(h, n.log[y - 1].term);
      TermsNeverFall(h, n.log, x - 1, y - 1);
    }
  }

  lemma AdvanceMoves(n: R.Node, found: nat, b: R.Node)
    requires found <= |n.log|
    requires b == if found > n.commitIndex && n.log[found - 1].term == n.term then R.ApplyCommitted(n.(commitIndex := found)) else n
    ensures b == n.(commitIndex := b.commitIndex, lastApplied := b.lastApplied, kv := b.kv)
    ensures CommitsTo(n, b, b.commitIndex > n.commitIndex, b.commitIndex)
    ensures b.commitIndex == if found > n.commitIndex && n.log[found - 1].term == n.term then found else n.commitIndex
  {
    hide ReplayOn, R.ApplyCommitted;
    if found > n.commitIndex && n.log[found - 1].term == n.term { AppliedUpTo(n.(commitIndex := found)); }
  }

  /** The apply loop applies everything between the last applied entry and the commit index. */
  lemma AppliedUpTo(n: R.Node)
    requires n.commitIndex <= |n.log|
    ensures var b := R.ApplyCommitted(n);
      b == n.(lastApplied := Max(n.lastApplied, n.commitIndex), kv := ReplayOn(n.kv, Past(n.log, n.lastApplied, n.commitIndex)))
  {
    if n.lastApplied <= n.commitIndex {
      assert n.log[n.lastApplied..n.lastApplied] == [];
      hide R.ApplyCommitted;
      ApplyReplays(n, n.kv, n.lastApplied);
    }
  }

  // ----- Requests to a follower

  /** A request is accepted exactly if the node is not past its term and holds everything its leader wrote
      before the sent entries. */
  ghost predicate MayAccept(h: History, a: R.Node, req: R.AppendRequest) {
    a.term <= req.term && req.term in h.ledger && Agree(a.log, h.ledger[req.term], req.prevIndex)
  }

  /** A node that is past the request's term stays as it is. Any other follows the node elected in that
      term, whether it accepts or not. Accepting leaves the log as it was if it held all that was sent, and
      otherwise makes it what the leader wrote up to there; the commit index follows the leader's as far
      as the log goes. */
  lemma AppendDecided(peers: seq<NodeId>, steps: seq<Step>, m: Message, c: Cluster, d: Cluster)
    requires Goes(peers, steps, DeliverAppendAsk(m), c, d)
    ensures m.AppendAsk? && OnlyNode(c, d, m.to) && d == c.(nodes := d.nodes, net := d.net, applied := d.applied, history := d.history)
    ensures var a, req := c.nodes[m.to], m.areq;
      d.net == c.net + {AppendAnswer(m.to, m.tag, req, R.AppendResponse(Max(a.term, req.term), MayAccept(c.history, a, req)))}
    ensures c.nodes[m.to].term > m.areq.term ==> d.nodes[m.to] == c.nodes[m.to]
    ensures c.nodes[m.to].term <= m.areq.term ==> Follows(c.history, c.nodes[m.to], d.nodes[m.to], m.areq)
  {
    hide Run, ClusterInv, Inv, NodeFits, R.OnAppendRequest, HeardTerm, NewlyApplied, Accept, SliceFits, MayAccept, Follows;
    Taken(peers, steps, DeliverAppendAsk(m), c, d);
    AtNode(c, m.to);
    AtAppendAsk(c, m);
    AppendRule(c.history, c.nodes[m.to], m.areq);
  }

  ghost predicate Follows(h: History, a: R.Node, b: R.Node, req: R.AppendRequest) {
    var last := req.prevIndex + |req.entries|;
    && req.term in h.elections && h.elections[req.term].leader == req.leader
    && req.term in h.ledger && last <= |h.ledger[req.term]|
    && b == a.(
         term := req.term, role := R.Follower, leaderId := h.elections[req.term].leader,
         votedFor := if req.term > a.term then 0 else a.votedFor,
         log := if !MayAccept(h, a, req) || Agree(a.log, h.ledger[req.term], last) then a.log else h.ledger[req.term][..last],
         commitIndex := b.commitIndex, lastApplied := b.lastApplied, kv := b.kv)
    && CommitsTo(a, b, MayAccept(h, a, req) && req.leaderCommit > a.commitIndex,
                 if req.leaderCommit < |b.log| then req.leaderCommit else |b.log|)
  }

  lemma AppendRule(h: History, a: R.Node, req: R.AppendRequest)
    requires Inv(h) && NodeFits(h, a) && SliceFits(h, req) && a.id != req.leader
    ensures var (b, resp) := R.OnAppendRequest(a, req);
      && resp == R.AppendResponse(Max(a.term, req.term), MayAccept(h, a, req))
      && (a.term > req.term ==> b == a)
      && (a.term <= req.term ==> Follows(h, a, b, req))
  {
    hide Inv, NodeFits, Merge, R.CommitUpTo, CommitsTo, R.PrevMatches;
    if a.term <= req.term {
      PrevIsAgreement(h, a, req);
      FollowRole(h, a, req);
      if MayAccept(h, a, req) {
        MergedLog(h, a, req);
        var n := R.Follow(a, req).(log := Merge(a.log, req.prevIndex, req.entries));
        CommitMovesTo(a, n, req.leaderCommit);
      } else {
        CommitStays(a, R.Follow(a, req));
      }
    }
  }

  lemma CommitStays(a: R.Node, b: R.Node)
    requires b.commitIndex == a.commitIndex && b.lastApplied == a.lastApplied && b.kv == a.kv
    ensures forall to: nat :: CommitsTo(a, b, false, to)
  {
  }

  /** The consistency check on one entry decides whether the whole prefix is the leader's. */
  lemma PrevIsAgreement(h: History, a: R.Node, req: R.AppendRequest)
    requires Inv(h) && NodeFits(h, a) && SliceFits(h, req)
    ensures R.PrevMatches(a.log, req) <==> Agree(a.log, h.ledger[req.term], req.prevIndex)
  {
    assert NodeOk(h, a.id) && LedgerOk(h, req.term);
    hide Inv, Sound;
    if req.prevIndex > 0 && R.PrevMatches(a.log, req) {
      SoundLogsMatch(h.ledger, a.log, h.ledger[req.term], req.prevIndex - 1);
    }
  }

  /** No leader is asked to follow in its own term. */
  lemma FollowRole(h: History, a: R.Node, req: R.AppendRequest)
    requires NodeFits(h, a) && SliceFits(h, req) && a.id != req.leader && a.term <= req.term
    ensures R.Follow(a, req) == a.(
      term := req.term, role := R.Follower, leaderId := req.leader, votedFor := if req.term > a.term then 0 else a.votedFor)
  {
  }

  lemma MergedLog(h: History, a: R.Node, req: R.AppendRequest)
    requires Inv(h) && NodeFits(h, a) && SliceFits(h, req) && Agree(a.log, h.ledger[req.term], req.prevIndex)
    ensures var last, leader := req.prevIndex + |req.entries|, h.ledger[req.term];
      Merge(a.log, req.prevIndex, req.entries) == if Agree(a.log, leader, last) then a.log else leader[..last]
  {
    var last, leader := req.prevIndex + |req.entries|, h.ledger[req.term];
    assert NodeOk(h, a.id) && LedgerOk(h, req.term);
    hide Inv, NodeOk, LedgerOk, Merge;
    forall i | 0 <= i < |a.log| && i < |leader| && a.log[i].term == leader[i].term ensures a.log[i] == leader[i] {
      SoundLogsMatch(h.ledger, a.log, leader, i);
    }
    hide Sound;
    MergeFollowsLeader(a.log, req.prevIndex, req.entries, leader);
    if Agree(a.log, leader, last) { MergeHeld(a.log, req.prevIndex, req.entries); }
  }

  lemma CommitMovesTo(a: R.Node, n: R.Node, leaderCommit: nat)
    requires n.commitIndex == a.commitIndex && n.lastApplied == a.lastApplied && n.kv == a.kv
    ensures var b := R.CommitUpTo(n, leaderCommit);
      && b == n.(commitIndex := b.commitIndex, lastApplied := b.lastApplied, kv := b.kv)
      && CommitsTo(a, b, leaderCommit > a.commitIndex, if leaderCommit < |b.log| then leaderCommit else |b.log|)
  {
    hide ReplayOn, R.ApplyCommitted;
    if leaderCommit > a.commitIndex {
      var to := R.Min(leaderCommit, |n.log|);
      AppliedUpTo(n.(commitIndex := to));
    }
  }

  // ----- Confirmation rounds

  /** A round passes over its owner, ends when the owner no longer leads its term, and otherwise sends the
      next peer a probe. */
  lemma ProbeSent(peers: seq<NodeId>, steps: seq<Step>, r: nat, c: Cluster, d: Cluster)
    requires Goes(peers, steps, SendProbe(r), c, d)
    ensures r in c.rounds && c.rounds[r].next < |c.peers| && c.rounds[r].owner in c.nodes
    ensures d == c.(rounds := d.rounds, net := d.net)
    ensures var round := c.rounds[r];
      var a, peer := c.nodes[round.owner], c.peers[round.next];
      if peer == round.owner then d.net == c.net && d.rounds == c.rounds[r := round.(next := round.next + 1)]
      else if a.role != R.Leader || a.term != round.term then d.net == c.net && d.rounds == c.rounds[r := round.(status := Failed)]
      else
        && d.rounds == c.rounds[r := round.(sent := true)]
        && exists req :: Asks(a, peer, req, true) && d.net == c.net + {AppendAsk(peer, Probe(r), req)}
  {
    hide Run, ClusterInv, Inv;
    Taken(peers, steps, SendProbe(r), c, d);
    var round := c.rounds[r];
    var a, peer := c.nodes[round.owner], c.peers[round.next];
    AtNode(c, round.owner);
    if peer != round.owner && Holds(c, r) {
      var req := R.ProbeRequest(a, peer);
      assert Asks(a, peer, req, true);
    }
  }

  /** A reply of a higher term ends the owner's leadership and the round; a reply that finds the owner no
      longer leading the round's term ends the round; any other is counted if it is a success. */
  lemma ProbeReplyHeard(peers: seq<NodeId>, steps: seq<Step>, r: nat, reply: Message, c: Cluster, d: Cluster)
    requires Goes(peers, steps, EndProbe(r, Some(reply)), c, d)
    ensures reply.AppendAnswer? && r in c.rounds && OnlyNode(c, d, c.rounds[r].owner)
    ensures d == c.(nodes := d.nodes, rounds := d.rounds, history := d.history)
    ensures var round, resp := c.rounds[r], reply.aresp;
      var a, b := c.nodes[round.owner], d.nodes[round.owner];
      && b == (if resp.term > a.term then a.(term := resp.term, votedFor := 0, role := R.Follower, leaderId := 0) else a)
      && d.rounds == c.rounds[r :=
           if b.role != R.Leader || b.term != round.term then round.(status := Failed)
           else round.(
             next := round.next + 1, sent := false,
             acks := round.acks + (if resp.success then 1 else 0),
             acked := round.acked + (if resp.success then {reply.from} else {}))]
  {
    hide Run, ClusterInv;
    Taken(peers, steps, EndProbe(r, Some(reply)), c, d);
    assert c.rounds[r].acked + {} == c.rounds[r].acked;
  }

  lemma ProbeUnanswered(peers: seq<NodeId>, steps: seq<Step>, r: nat, c: Cluster, d: Cluster)
    requires Goes(peers, steps, EndProbe(r, None), c, d)
    ensures r in c.rounds
    ensures d == c.(rounds := c.rounds[r := c.rounds[r].(next := c.rounds[r].next + 1, sent := false)])
  {
    hide Run, ClusterInv;
    Taken(peers, steps, EndProbe(r, None), c, d);
  }

  /** A round starts with its owner's own acknowledgement. */
  lemma RoundBegun(peers: seq<NodeId>, steps: seq<Step>, n: NodeId, r: nat, c: Cluster, d: Cluster)
    requires Goes(peers, steps, BeginRound(n, r), c, d)
    ensures n in c.nodes && c.nodes[n].role == R.Leader && d == c.(rounds := d.rounds)
    ensures r in d.rounds && d.rounds == c.rounds[r := d.rounds[r]]
    ensures d.rounds[r] == Round(n, c.nodes[n].term, 0, false, 1, {n}, Running,
      d.rounds[r].termsThen, c.history.elections.Keys, c.history.commits)
    ensures d.rounds[r].termsThen.Keys == c.nodes.Keys && forall p | p in c.nodes :: d.rounds[r].termsThen[p] == c.nodes[p].term
  {
    hide Run, ClusterInv, Inv, NodeFits;
    Taken(peers, steps, BeginRound(n, r), c, d);
    TermKeys(c);
    forall p | p in c.nodes ensures c.history.term[p] == c.nodes[p].term { NodeTerm(c, p); }
  }

  lemma TermKeys(c: Cluster)
    requires ClusterInv(c)
    ensures c.history.term.Keys == c.nodes.Keys
  {
  }

  /** A round that reached every peer confirms exactly if a majority acknowledged it. */
  lemma RoundFinished(peers: seq<NodeId>, steps: seq<Step>, r: nat, c: Cluster, d: Cluster)
    requires Goes(peers, steps, FinishRound(r), c, d)
    ensures r in c.rounds && c.rounds[r].next == |c.peers| && d == c.(rounds := d.rounds)
    ensures d.rounds == c.rounds[r := c.rounds[r].(
      status := if Quorum(c.peers, c.rounds[r].acked) then Confirmed else Failed)]
  {
    hide Run, ClusterInv, ReadInv;
    Taken(peers, steps, FinishRound(r), c, d);
    RunRead(peers, steps);
    AtRound(c, r);
    PeersAre(c);
    assert c.peers[..|c.peers|] == c.peers;
  }

  lemma PeersAre(c: Cluster)
    requires ClusterInv(c)
    ensures c.peers == c.history.peers
  {
  }

  // ----- Restarts

  /** A restart keeps term, vote and log and nothing else; memory is the replay of the whole log. */
  lemma RestartKept(peers: seq<NodeId>, steps: seq<Step>, n: NodeId, c: Cluster, d: Cluster)
    requires Goes(peers, steps, Restart(n), c, d)
    ensures OnlyNode(c, d, n) && d.net == c.net && d.history == c.history && d.restarted == c.restarted + {n}
    ensures var a := c.nodes[n];
      d.nodes[n] == R.Node(n, R.Follower, a.term, a.votedFor, 0, a.log, 0, map[], map[], |a.log|, Replay(a.log))
    ensures d.campaigns == map k | k in c.campaigns && k != n :: c.campaigns[k]
    ensures d.rounds.Keys == c.rounds.Keys
    ensures forall r | r in c.rounds ::
      d.rounds[r] == if c.rounds[r].owner == n && c.rounds[r].status == Running then c.rounds[r].(status := Failed) else c.rounds[r]
  {
    hide Run, ClusterInv, Inv, NodeFits;
    Taken(peers, steps, Restart(n), c, d);
    AtNode(c, n);
  }

  // ----- Who a node takes for the leader

  /** The leader a node names is the one elected in its term, and a leader names itself. */
  ghost predicate Names(h: History, a: R.Node) {
    && (a.leaderId != 0 ==> a.term in h.elections && h.elections[a.term].leader == a.leaderId)
    && (a.role == R.Leader ==> a.leaderId == a.id)
    && (a.role == R.Candidate ==> a.leaderId == 0)
  }

  ghost predicate NamesAll(c: Cluster) {
    forall n | n in c.nodes :: Names(c.history, c.nodes[n])
  }

  lemma {:induction false} LeaderNamed(peers: seq<NodeId>, steps: seq<Step>)
    requires IsRun(peers, steps)
    ensures NamesAll(Run(peers, steps).value)
    decreases |steps|
  {
    hide After, Enabled, Linked, NamesAll;
    if steps == [] {
      FreshNames(peers);
    } else {
      var before, s := steps[..|steps| - 1], steps[|steps| - 1];
      assert before + [s] == steps;
      LeaderNamed(peers, before);
      NamesKept(peers, before, s, Run(peers, before).value, Run(peers, steps).value);
    }
  }

  lemma FreshNames(peers: seq<NodeId>)
    ensures NamesAll(Init(peers))
  {
  }

  /** The ways a step may change what a node takes for the leader. */
  ghost predicate Shifts(h: History, a: R.Node, b: R.Node) {
    || (b.leaderId == 0 && b.role != R.Leader)
    || (b.term == a.term && b.leaderId == a.leaderId && b.role == a.role && b.id == a.id)
    || (b.role == R.Follower && b.term in h.elections && h.elections[b.term].leader == b.leaderId)
    || (b.role == R.Leader && b.leaderId == b.id)
  }

  ghost predicate AllShift(c: Cluster, d: Cluster) {
    d.nodes.Keys == c.nodes.Keys && forall n | n in c.nodes :: Shifts(c.history, c.nodes[n], d.nodes[n])
  }

  lemma NamesKept(peers: seq<NodeId>, steps: seq<Step>, s: Step, c: Cluster, d: Cluster)
    requires Goes(peers, steps, s, c, d) && NamesAll(c)
    ensures NamesAll(d)
  {
    hide Run, ClusterInv, After, Enabled, Linked, Extends, Names, Shifts;
    Taken(peers, steps, s, c, d);
    StepExtends(c, s);
    StepShifts(peers, steps, s, c, d);
    RunInv(peers, steps + [s]);
    forall n | n in d.nodes ensures Names(d.history, d.nodes[n]) {
      AtNode(d, n);
      NamesAfter(c.history, d.history, c.nodes[n], d.nodes[n]);
    }
  }

  lemma NamesAfter(h: History, g: History, a: R.Node, b: R.Node)
    requires Extends(h, g) && Names(h, a) && Shifts(h, a, b) && NodeFits(g, b)
    ensures Names(g, b)
  {
  }

  lemma StepShifts(peers: seq<NodeId>, steps: seq<Step>, s: Step, c: Cluster, d: Cluster)
    requires Goes(peers, steps, s, c, d)
    ensures AllShift(c, d)
  {
    hide Goes, Refused, Succeeded, Follows, Asks, Shifts;
    match s
    case StartElection(n) => ElectionStarted(peers, steps, n, c, d); ShiftOne(c, d, n);
    case PollPeer(n, answer) => PollShifts(peers, steps, n, answer, c, d);
    case FinishElection(n) => ElectionFinished(peers, steps, n, c, d); ElectionShifts(c, d, n);
    case DeliverVoteAsk(m) => VoteDecided(peers, steps, m, c, d); ShiftOne(c, d, m.to);
    case DeliverAppendAsk(m) => AppendDecided(peers, steps, m, c, d); AskShifts(c, d, m);
    case Propose(n, op, key, value) => Proposed(peers, steps, n, op, key, value, c, d); ShiftOne(c, d, n);
    case SendAppend(n, peer) => RequestSent(peers, steps, n, peer, c, d); NoneShift(c, d);
    case DeliverAppendAnswer(m) => AppendReplyHeard(peers, steps, m, c, d); ReplyShifts(c, d, m);
    case BeginRound(n, r) => RoundBegun(peers, steps, n, r, c, d); NoneShift(c, d);
    case SendProbe(r) => ProbeSent(peers, steps, r, c, d); NoneShift(c, d);
    case EndProbe(r, answer) => ProbeShifts(peers, steps, r, answer, c, d);
    case FinishRound(r) => RoundFinished(peers, steps, r, c, d); NoneShift(c, d);
    case Restart(n) => RestartKept(peers, steps, n, c, d); ShiftOne(c, d, n);
  }

  lemma NoneShift(c: Cluster, d: Cluster)
    requires d.nodes == c.nodes
    ensures AllShift(c, d)
  {
  }

  lemma ShiftOne(c: Cluster, d: Cluster, n: NodeId)
    requires OnlyNode(c, d, n)
    requires var a, b := c.nodes[n], d.nodes[n];
      || (b.leaderId == 0 && b.role != R.Leader)
      || (b.term == a.term && b.leaderId == a.leaderId && b.role == a.role && b.id == a.id)
    ensures AllShift(c, d)
  {
  }

  lemma ElectionShifts(c: Cluster, d: Cluster, n: NodeId)
    requires OnlyNode(c, d, n) && c.nodes[n].id == n
    requires d.nodes[n] == c.nodes[n] || (d.nodes[n].role == R.Leader && d.nodes[n].leaderId == n == d.nodes[n].id)
    ensures AllShift(c, d)
  {
  }

  lemma AskShifts(c: Cluster, d: Cluster, m: Message)
    requires m.AppendAsk? && OnlyNode(c, d, m.to)
    requires d.nodes[m.to] == c.nodes[m.to] || Follows(c.history, c.nodes[m.to], d.nodes[m.to], m.areq)
    ensures AllShift(c, d)
  {
    hide MayAccept, CommitsTo;
  }

  lemma ReplyShifts(c: Cluster, d: Cluster, m: Message)
    requires m.AppendAnswer? && OnlyNode(c, d, m.areq.leader)
    requires var a, b := c.nodes[m.areq.leader], d.nodes[m.areq.leader];
      b == a || (b.leaderId == 0 && b.role == R.Follower) || Refused(a, b, m.from) || Succeeded(a, b, c.peers, m.from, m.areq)
    ensures AllShift(c, d)
  {
    hide Committable, CommitsTo;
  }

  lemma PollShifts(peers: seq<NodeId>, steps: seq<Step>, n: NodeId, answer: Option<Message>, c: Cluster, d: Cluster)
    requires Goes(peers, steps, PollPeer(n, answer), c, d)
    ensures AllShift(c, d)
  {
    hide Goes, Shifts;
    if answer.Some? {
      VoteReplyHeard(peers, steps, n, answer.value, c, d);
      ShiftOne(c, d, n);
    } else {
      VoteUnanswered(peers, steps, n, c, d);
      NoneShift(c, d);
    }
  }

  lemma ProbeShifts(peers: seq<NodeId>, steps: seq<Step>, r: nat, answer: Option<Message>, c: Cluster, d: Cluster)
    requires Goes(peers, steps, EndProbe(r, answer), c, d)
    ensures AllShift(c, d)
  {
    hide Goes, Shifts;
    if answer.Some? {
      ProbeReplyHeard(peers, steps, r, answer.value, c, d);
      ShiftOne(c, d, c.rounds[r].owner);
    } else {
      ProbeUnanswered(peers, steps, r, c, d);
      NoneShift(c, d);
    }
  }
}
