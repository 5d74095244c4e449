/** Back-off: a leader that keeps retrying one follower gets its log across. */
module RaftBackoff {
  import opened ClusterConfig
  import opened Logs
  import opened RaftHistory
  import opened RaftCluster
  import opened RaftInvariant
  import opened RaftSafety
  import R = RaftSteps

  /** The two ends of the exchange, stable in the leader's term. */
  ghost predicate Ready(l: R.Node, f: R.Node) {
    && l.role == R.Leader && f.term <= l.term && Matching(f.log, l.log)
    && f.id in l.nextIndex && 1 <= l.nextIndex[f.id] <= |l.log| + 1
  }

  /** One replication round: request, handling, reply. */
  function Round(l: R.Node, f: R.Node, peers: seq<NodeId>): (R.Node, R.Node, bool)
    requires CanAddress(l, f.id)
  {
    var req := R.ReplicateRequest(l, f.id);
    var (f', resp) := R.OnAppendRequest(f, req);
    (R.OnAppendResponse(l, peers, f.id, req, resp), f', resp.success)
  }

  /** A refused round only moves the leader's next index down by one, and at next index 1 no round
      is refused. */
  lemma RefusedRound(l: R.Node, f: R.Node, peers: seq<NodeId>)
    requires Ready(l, f) && !Round(l, f, peers).2
    ensures l.nextIndex[f.id] > 1
    ensures var (l', f', _) := Round(l, f, peers);
      && l' == l.(nextIndex := l.nextIndex[f.id := l.nextIndex[f.id] - 1])
      && f'.log == f.log && f'.term == l.term && f'.id == f.id
  {
    hide Merge, Matching, R.ApplyCommitted;
  }

  /** After an accepted round the follower's log starts with the leader's. */
  lemma AcceptedRound(l: R.Node, f: R.Node, peers: seq<NodeId>)
    requires Ready(l, f) && Round(l, f, peers).2
    ensures var (l', f', _) := Round(l, f, peers);
      && l'.log == l.log && l.log <= f'.log && f.id in l'.nextIndex && l'.nextIndex[f.id] == |l.log| + 1
      && (l.nextIndex[f.id] <= |l.log| ==> f.id in l'.matchIndex && l'.matchIndex[f.id] == |l.log|)
  {
    hide Merge, Matching, R.ApplyCommitted, R.AdvanceCommit, R.ReplicateRequest;
    var req := R.ReplicateRequest(l, f.id);
    var last := req.prevIndex + |req.entries|;
    SentWhole(l, f.id);
    MergedWhole(f.log, l.log, req.prevIndex, req);
    AdvanceFrame(l, peers);
    AdvanceFrame(l.(matchIndex := l.matchIndex[f.id := last], nextIndex := l.nextIndex[f.id := last + 1]), peers);
  }

  lemma SentWhole(l: R.Node, peer: NodeId)
    requires peer in l.nextIndex && 1 <= l.nextIndex[peer] <= |l.log| + 1
    ensures var req := R.ReplicateRequest(l, peer);
      && req.prevIndex == l.nextIndex[peer] - 1 && req.entries == l.log[req.prevIndex..]
      && (req.prevIndex > 0 ==> req.prevTerm == l.log[req.prevIndex - 1].term)
      && req.term == l.term
  {
  }

  lemma MergedWhole(log: Log, leader: Log, prev: nat, req: R.AppendRequest)
    requires Matching(log, leader) && prev == req.prevIndex <= |leader| && req.entries == leader[prev..]
    requires req.prevIndex > 0 ==> req.prevTerm == leader[req.prevIndex - 1].term
    ensures R.PrevMatches(log, req) ==> prev <= |log| && leader <= Merge(log, prev, req.entries)
  {
    if R.PrevMatches(log, req) {
      if prev > 0 { assert Agree(log, leader, prev - 1 + 1); }
      forall i | 0 <= i < |log| && i < |leader| && log[i].term == leader[i].term ensures log[i] == leader[i] {
        assert Agree(log, leader, i + 1);
      }
      MergeFollowsLeader(log, prev, req.entries, leader);
    }
  }

  /** Repeat rounds until one is accepted; the last component counts them. */
  ghost function Settle(l: R.Node, f: R.Node, peers: seq<NodeId>): (R.Node, R.Node, nat)
    requires Ready(l, f)
    decreases l.nextIndex[f.id]
  {
    var (l', f', accepted) := Round(l, f, peers);
    if accepted then (l', f', 1)
    else
      RefusedRound(l, f, peers);
      var (l2, f2, n) := Settle(l', f', peers);
      (l2, f2, n + 1)
  }

  /** Acceptance comes within as many rounds as the next index was high, and then the leader's whole
      log is a prefix of the follower's. */
  lemma {:induction false} BackoffConverges(l: R.Node, f: R.Node, peers: seq<NodeId>)
    requires Ready(l, f)
    ensures var (l', f', n) := Settle(l, f, peers);
      && n <= l.nextIndex[f.id]
      && l'.log == l.log && l.log <= f'.log
      && f.id in l'.nextIndex && l'.nextIndex[f.id] == |l.log| + 1
    decreases l.nextIndex[f.id]
  {
    hide Round, Matching;
    var (l', f', accepted) := Round(l, f, peers);
    if accepted {
      AcceptedRound(l, f, peers);
    } else {
      RefusedRound(l, f, peers);
      BackoffConverges(l', f', peers);
    }
  }

  /** In every reachable state a leader and a peer that has not moved past its term are ready. */
  lemma ReachableReady(peers: seq<NodeId>, steps: seq<Step>, l: NodeId, f: NodeId)
    requires IsRun(peers, steps)
    requires var c := Run(peers, steps).value;
      l in c.nodes && f in c.nodes && f != l && c.nodes[l].role == R.Leader && c.nodes[f].term <= c.nodes[l].term
    ensures var c := Run(peers, steps).value; Ready(c.nodes[l], c.nodes[f])
  {
    hide Run, ClusterInv;
    var c := Run(peers, steps).value;
    RunInv(peers, steps);
    AtNode(c, l);
    AtNode(c, f);
    forall i | 0 <= i < |c.nodes[f].log| && i < |c.nodes[l].log| && c.nodes[f].log[i].term == c.nodes[l].log[i].term
      ensures Agree(c.nodes[f].log, c.nodes[l].log, i + 1)
    {
      LogMatching(peers, steps, f, l, i);
      SamePrefix(c.nodes[f].log, c.nodes[l].log, i + 1);
    }
  }

  lemma SamePrefix(a: Log, b: Log, k: nat)
    requires k <= |a| && k <= |b| && a[..k] == b[..k]
    ensures Agree(a, b, k)
  {
    forall j | 0 <= j < k ensures a[j] == b[j] { assert a[j] == a[..k][j] == b[..k][j]; }
  }

  /** An accepted request delivered again at any later moment of a run, whatever came in between,
      changes nothing in the log. */
  lemma RedeliveryChangesNothing(peers: seq<NodeId>, steps: seq<Step>, m: Message)
    requires IsRun(peers, steps)
    requires m in Run(peers, steps).value.net && m.AppendAnswer? && m.aresp.success
    ensures var c := Run(peers, steps).value;
      m.from in c.nodes && R.OnAppendRequest(c.nodes[m.from], m.areq).0.log == c.nodes[m.from].log
  {
    hide Run, ClusterInv, R.OnAppendRequest;
    var c := Run(peers, steps).value;
    RunInv(peers, steps);
    AtMessage(c, m);
    NodesAreTerms(c);
    AtNode(c, m.from);
    AcknowledgedHeld(c.history, c.nodes[m.from], m.areq);
  }

  lemma NodesAreTerms(c: Cluster)
    requires ClusterInv(c)
    ensures c.history.term.Keys == c.nodes.Keys
  {
  }

  /** A node that acknowledged a request still holds what it carried, or is past its term. */
  lemma AcknowledgedHeld(h: History, node: R.Node, req: R.AppendRequest)
    requires Inv(h) && NodeFits(h, node) && SliceFits(h, req)
    requires Ack(node.id, req.term, req.prevIndex + |req.entries|) in h.acks
    ensures R.OnAppendRequest(node, req).0.log == node.log
  {
    var t, last := req.term, req.prevIndex + |req.entries|;
    assert AckOk(h, Ack(node.id, t, last)) && NodeOk(h, node.id);
    hide Inv, Sound, R.OnAppendRequest;
    if node.term == t {
      assert Keeps(h, node.log, t + 1, t, last);
      assert AllCarry(h, t, t + 1, last);
    }
    HeldUnchanged(node, h.ledger[t], req);
  }

  lemma HeldUnchanged(node: R.Node, leader: Log, req: R.AppendRequest)
    requires req.prevIndex + |req.entries| <= |leader|
    requires req.entries == leader[req.prevIndex..req.prevIndex + |req.entries|]
    requires req.term < node.term || (req.term == node.term && Agree(node.log, leader, req.prevIndex + |req.entries|))
    ensures R.OnAppendRequest(node, req).0.log == node.log
  {
    hide Merge, R.ApplyCommitted;
    if req.term == node.term { MergeHeld(node.log, req.prevIndex, req.entries); }
  }
}
