/** What it means that a leader has backed off: the peer refused, so wherever its log leaves the
    leader's, it does so before the end of the log the leader was elected with. */
module RaftRefusal {
  import opened Bytes
  import opened ClusterConfig
  import opened Logs
  import opened Options
  import opened RaftHistory
  import opened RaftHistoryProofs
  import opened RaftCluster
  import opened RaftInvariant
  import opened RaftFrame
  import R = RaftSteps

  // ----- The invariant

  /** The log does not leave that of the leader of `t` past what the leader was elected with. */
  ghost predicate Together(h: History, log: Log, t: nat)
    requires t in h.elections && t in h.ledger
  {
    Agree(log, h.ledger[t], |h.elections[t].log|) ==> Agree(log, h.ledger[t], |log|)
  }

  /** The node has heard from the leader of `t` and, if it is still in `t`, is together with it. */
  ghost predicate Heard(h: History, node: R.Node, t: nat) {
    && t in h.elections && t in h.ledger && h.elections[t].leader != node.id && t <= node.term
    && (node.term == t ==> Together(h, node.log, t))
  }

  ghost predicate HeardAt(c: Cluster, p: NodeId, t: nat) {
    p in c.nodes && Heard(c.history, c.nodes[p], t)
  }

  /** What the leader of `t` may address `p` with: less than its elected log only after a refusal, more
      only after an acknowledgement. */
  ghost predicate PrevFits(c: Cluster, p: NodeId, t: nat, prev: nat) {
    && t in c.history.elections
    && (prev < |c.history.elections[t].log| ==> HeardAt(c, p, t))
    && (prev > |c.history.elections[t].log| ==> Acked(c.history, p, t, prev))
  }

  ghost predicate NextFits(c: Cluster, n: NodeId, p: NodeId) {
    n in c.nodes && c.nodes[n].role == R.Leader && p in c.nodes[n].nextIndex && c.nodes[n].nextIndex[p] > 0 ==>
      PrevFits(c, p, c.nodes[n].term, c.nodes[n].nextIndex[p] - 1)
  }

  ghost predicate PrevSent(c: Cluster, m: Message) {
    match m
    case AppendAsk(to, _, req) => PrevFits(c, to, req.term, req.prevIndex)
    case AppendAnswer(from, _, req, resp) =>
      && PrevFits(c, from, req.term, req.prevIndex)
      && (!resp.success && resp.term <= req.term ==> HeardAt(c, from, req.term))
    case _ => true
  }

  /** Past the log it was elected with, a leader wrote entries of its own term only. */
  ghost predicate OwnTail(h: History, t: nat) {
    t in h.elections && t in h.ledger && forall i | |h.elections[t].log| <= i < |h.ledger[t]| :: h.ledger[t][i].term == t
  }

  ghost predicate RefusalInv(c: Cluster) {
    && (forall t {:trigger OwnTail(c.history, t)} | t in c.history.elections :: OwnTail(c.history, t))
    && (forall n, p {:trigger NextFits(c, n, p)} :: NextFits(c, n, p))
    && (forall m {:trigger PrevSent(c, m)} | m in c.net :: PrevSent(c, m))
  }

  lemma AtNext(c: Cluster, n: NodeId, p: NodeId)
    requires RefusalInv(c)
    ensures NextFits(c, n, p)
  {
  }

  lemma AtSent(c: Cluster, m: Message)
    requires RefusalInv(c) && m in c.net
    ensures PrevSent(c, m)
  {
  }

  lemma AtTail(c: Cluster, t: nat)
    requires RefusalInv(c) && t in c.history.elections
    ensures OwnTail(c.history, t)
  {
  }

  // ----- What a refusal tells lasts

  /** Merging a slice of the leader's log keeps the log together with it. */
  lemma MergeTogether(h: History, node: R.Node, req: R.AppendRequest)
    requires Inv(h) && NodeFits(h, node) && SliceFits(h, req) && R.PrevMatches(node.log, req) && Together(h, node.log, req.term)
    ensures req.prevIndex <= |node.log| && Together(h, Merge(node.log, req.prevIndex, req.entries), req.term)
  {
    var leader := h.ledger[req.term];
    assert NodeOk(h, node.id) && LedgerOk(h, req.term);
    hide Inv, Merge, SliceFits, NodeFits, Together;
    SliceMeans(h, req);
    NodeIs(h, node);
    if req.prevIndex > 0 { SoundLogsMatch(h.ledger, node.log, leader, req.prevIndex - 1); }
    forall i | 0 <= i < |node.log| && i < |leader| && node.log[i].term == leader[i].term ensures node.log[i] == leader[i] {
      SoundLogsMatch(h.ledger, node.log, leader, i);
    }
    hide Sound;
    MergeFollowsLeader(node.log, req.prevIndex, req.entries, leader);
    PrefixTogether(h, req.term, req.prevIndex + |req.entries|);
  }

  lemma PrefixTogether(h: History, t: nat, k: nat)
    requires t in h.elections && t in h.ledger && k <= |h.ledger[t]|
    ensures Together(h, h.ledger[t][..k], t)
  {
  }

  lemma MergeHeard(h: History, node: R.Node, req: R.AppendRequest)
    requires Inv(h) && NodeFits(h, node) && SliceFits(h, req) && req.term == node.term && Heard(h, node, req.term)
    ensures Heard(h, R.OnAppendRequest(node, req).0, req.term)
  {
    hide Inv, Merge, R.ApplyCommitted, SliceFits, NodeFits, Together, R.PrevMatches;
    if R.PrevMatches(node.log, req) { MergeTogether(h, node, req); }
  }

  lemma SliceMeans(h: History, req: R.AppendRequest)
    requires SliceFits(h, req)
    ensures req.term in h.ledger && req.term in h.elections && h.elections[req.term].leader == req.leader
    ensures var log := h.ledger[req.term];
      && req.prevIndex + |req.entries| <= |log|
      && req.entries == log[req.prevIndex..req.prevIndex + |req.entries|]
      && (req.prevIndex > 0 ==> req.prevTerm == log[req.prevIndex - 1].term)
  {
  }

  lemma NodeIs(h: History, node: R.Node)
    requires NodeFits(h, node)
    ensures node.id in h.term && node.id in h.log && h.log[node.id] == node.log && h.term[node.id] == node.term
    ensures node.role == R.Leader ==> node.term in h.elections && h.elections[node.term].leader == node.id
  {
  }

  /** A longer history does not change that. */
  lemma HeardGrows(h: History, g: History, node: R.Node, node': R.Node, t: nat)
    requires Extends(h, g) && Heard(h, node, t) && node'.id == node.id && node.term <= node'.term
    requires node'.log == node.log || t < node'.term
    requires t in h.elections ==> |h.elections[t].log| <= |h.ledger[t]|
    ensures Heard(g, node', t)
  {
    assert Agree(h.ledger[t], g.ledger[t], |h.ledger[t]|);
  }

  lemma ElectedWithin(h: History, t: nat)
    requires Inv(h) && t in h.elections
    ensures t in h.ledger && |h.elections[t].log| <= |h.ledger[t]|
  {
    assert ElectionOk(h, t);
  }

  lemma HeardStays(c: Cluster, s: Step, p: NodeId, t: nat)
    requires ClusterInv(c) && Enabled(c, s) && Linked(c) && HeardAt(c, p, t)
    ensures HeardAt(After(c, s), p, t)
  {
    hide ClusterInv, Heard, Extends, Inv, After, R.OnAppendRequest, R.OnAppendResponse;
    var d := After(c, s);
    AtNode(c, p);
    HeardMeans(c.history, c.nodes[p], t);
    ElectedWithin(c.history, t);
    StepExtends(c, s);
    if s.DeliverAppendAsk? && s.m.to == p && s.m.areq.term == t == c.nodes[p].term {
      AtAppendAsk(c, s.m);
      MergeHeard(c.history, c.nodes[p], s.m.areq);
      AskedNode(c, s.m);
      HeardGrows(c.history, d.history, d.nodes[p], d.nodes[p], t);
    } else {
      LogStays(c, s, p, t);
      HeardGrows(c.history, d.history, c.nodes[p], d.nodes[p], t);
    }
  }

  lemma HeardMeans(h: History, node: R.Node, t: nat)
    requires Heard(h, node, t)
    ensures t in h.elections && t in h.ledger && h.elections[t].leader != node.id && t <= node.term
  {
  }

  lemma AskedNode(c: Cluster, m: Message)
    requires Enabled(c, DeliverAppendAsk(m)) && Linked(c)
    ensures m.to in After(c, DeliverAppendAsk(m)).nodes
    ensures After(c, DeliverAppendAsk(m)).nodes[m.to] == R.OnAppendRequest(c.nodes[m.to], m.areq).0
  {
    hide R.OnAppendRequest, NewlyApplied, Accept, HeardTerm;
  }

  /** A node in term `t` that does not lead it changes its log only on a request of that term. */
  lemma LogStays(c: Cluster, s: Step, p: NodeId, t: nat)
    requires ClusterInv(c) && Enabled(c, s) && Linked(c) && p in c.nodes && t <= c.nodes[p].term
    requires t in c.history.elections && c.history.elections[t].leader != p
    requires !(s.DeliverAppendAsk? && s.m.to == p && s.m.areq.term == t == c.nodes[p].term)
    ensures p in After(c, s).nodes && After(c, s).nodes[p].id == c.nodes[p].id
    ensures c.nodes[p].term <= After(c, s).nodes[p].term
    ensures After(c, s).nodes[p].log == c.nodes[p].log || t < After(c, s).nodes[p].term
  {
    hide ClusterInv, Inv, After, R.OnAppendRequest, R.OnAppendResponse, NodeFits;
    AtNode(c, p);
    NodeIs(c.history, c.nodes[p]);
    StepKeeps(c, s);
    NodesStay(c, s, p);
    if s.DeliverAppendAsk? {
      if s.m.to == p {
        AskedNode(c, s.m);
        AskedTerm(c.nodes[p], s.m.areq);
      } else {
        NotAsked(c, s.m, p);
      }
    } else if s.DeliverAppendAnswer? {
      AnsweredNode(c, s.m, p);
    } else {
      OtherStepsStay(c, s, p);
      if s.Propose? && s.n == p { ProposerLeads(c, s); }
    }
  }

  lemma ProposerLeads(c: Cluster, s: Step)
    requires Enabled(c, s) && s.Propose?
    ensures s.n in c.nodes && c.nodes[s.n].role == R.Leader
  {
  }

  lemma NodesStay(c: Cluster, s: Step, p: NodeId)
    requires ClusterInv(c) && Enabled(c, s) && Linked(c) && p in c.nodes && ClusterInv(After(c, s))
    ensures p in After(c, s).nodes ==> After(c, s).nodes[p].id == c.nodes[p].id
  {
    assert NodeAt(c, p);
    hide After;
    if p in After(c, s).nodes { assert NodeAt(After(c, s), p); }
  }

  lemma NotAsked(c: Cluster, m: Message, p: NodeId)
    requires Enabled(c, DeliverAppendAsk(m)) && Linked(c) && p in c.nodes && p != m.to
    ensures p in After(c, DeliverAppendAsk(m)).nodes && After(c, DeliverAppendAsk(m)).nodes[p] == c.nodes[p]
  {
    hide R.OnAppendRequest, NewlyApplied, Accept, HeardTerm;
  }

  lemma AskedTerm(n: R.Node, req: R.AppendRequest)
    ensures var n' := R.OnAppendRequest(n, req).0;
      && n.term <= n'.term && (req.term < n.term ==> n' == n) && (req.term >= n.term ==> n'.term == req.term)
  {
    hide Merge, R.PrevMatches, R.ApplyCommitted;
  }

  lemma AnsweredNode(c: Cluster, m: Message, p: NodeId)
    requires Enabled(c, DeliverAppendAnswer(m)) && Linked(c) && p in c.nodes
    ensures var d := After(c, DeliverAppendAnswer(m));
      && p in d.nodes && d.nodes[p].log == c.nodes[p].log && c.nodes[p].term <= d.nodes[p].term
      && (p != m.areq.leader ==> d.nodes[p] == c.nodes[p])
      && (p == m.areq.leader ==> d.nodes[p] == R.OnAppendResponse(c.nodes[p], c.peers, m.from, m.areq, m.aresp))
  {
    hide NewlyApplied, Supporters, HeardTerm, Record, R.AdvanceCommit;
    if p == m.areq.leader { AdvanceFrame(Matched(c.nodes[p], m.from, m.areq), c.peers); }
  }

  // ----- Refusals

  /** A refusal, by a node that is not past the request's term, means that. */
  lemma RefusedHeard(h: History, g: History, node: R.Node, req: R.AppendRequest)
    requires Inv(h) && Extends(h, g) && NodeFits(h, node) && SliceFits(h, req) && node.id != req.leader
    requires req.term >= node.term && !R.PrevMatches(node.log, req)
    requires var e := |h.elections[req.term].log|;
      && (req.prevIndex < e ==> Heard(h, node, req.term))
      && (req.prevIndex > e ==> Acked(h, node.id, req.term, req.prevIndex))
    ensures Heard(g, R.OnAppendRequest(node, req).0, req.term)
  {
    var t := req.term;
    var n' := R.OnAppendRequest(node, req).0;
    ElectedWithin(h, t);
    RefusedNode(node, req);
    if req.prevIndex > |h.elections[t].log| {
      AckedHeld(h, node, t, req.prevIndex);
    } else if req.prevIndex == |h.elections[t].log| {
      assert Agree(h.ledger[t], g.ledger[t], |h.ledger[t]|);
      assert !Agree(node.log, g.ledger[t], req.prevIndex);
    } else {
      HeardGrows(h, g, node, n', t);
    }
  }

  lemma RefusedNode(node: R.Node, req: R.AppendRequest)
    requires req.term >= node.term && !R.PrevMatches(node.log, req)
    ensures var n' := R.OnAppendRequest(node, req).0; n'.id == node.id && n'.term == req.term && n'.log == node.log
  {
    hide Merge, R.ApplyCommitted;
  }

  /** What a node acknowledged in a term it still holds in that term. */
  lemma AckedHeld(h: History, node: R.Node, t: nat, index: nat)
    requires Inv(h) && NodeFits(h, node) && Acked(h, node.id, t, index) && node.term <= t
    ensures t in h.ledger && Agree(node.log, h.ledger[t], index)
  {
    var a :| a in h.acks && a.node == node.id && a.term == t && index <= a.index;
    assert AckOk(h, a) && NodeOk(h, node.id);
    assert Keeps(h, node.log, t + 1, t, index);
    assert AllCarry(h, t, t + 1, index);
  }

  // ----- Every step keeps it

  lemma PrevFitsStays(c: Cluster, s: Step, p: NodeId, t: nat, prev: nat)
    requires ClusterInv(c) && Enabled(c, s) && Linked(c) && PrevFits(c, p, t, prev)
    ensures PrevFits(After(c, s), p, t, prev)
  {
    hide ClusterInv, Heard, After;
    StepExtends(c, s);
    if prev < |c.history.elections[t].log| { HeardStays(c, s, p, t); }
  }

  lemma PrevSentStays(c: Cluster, s: Step, m: Message)
    requires ClusterInv(c) && Enabled(c, s) && Linked(c) && PrevSent(c, m)
    ensures PrevSent(After(c, s), m)
  {
    hide ClusterInv, HeardAt, PrevFits, After, Enabled;
    match m
    case AppendAsk(to, _, req) => PrevFitsStays(c, s, to, req.term, req.prevIndex);
    case AppendAnswer(from, _, req, resp) =>
      PrevFitsStays(c, s, from, req.term, req.prevIndex);
      if !resp.success && resp.term <= req.term { HeardStays(c, s, from, req.term); }
    case _ =>
  }

  /** The request a leader sends fits. */
  lemma RequestFits(c: Cluster, n: NodeId, p: NodeId)
    requires RefusalInv(c) && n in c.nodes && c.nodes[n].role == R.Leader && CanAddress(c.nodes[n], p)
    ensures PrevFits(c, p, c.nodes[n].term, R.ProbeRequest(c.nodes[n], p).prevIndex)
    ensures R.ProbeRequest(c.nodes[n], p).term == c.nodes[n].term
    ensures R.ReplicateRequest(c.nodes[n], p).prevIndex == R.ProbeRequest(c.nodes[n], p).prevIndex
    ensures R.ReplicateRequest(c.nodes[n], p).term == c.nodes[n].term
  {
    hide PrevFits;
    AtNext(c, n, p);
  }

  /** The reply to a request fits. */
  lemma ReplyFits(c: Cluster, m: Message)
    requires ClusterInv(c) && RefusalInv(c) && Enabled(c, DeliverAppendAsk(m)) && Linked(c)
    ensures PrevSent(After(c, DeliverAppendAsk(m)), AppendAnswer(m.to, m.tag, m.areq, R.OnAppendRequest(c.nodes[m.to], m.areq).1))
  {
    hide ClusterInv, After, Inv, Extends, Heard, NodeFits, SliceFits, RefusalInv, R.OnAppendRequest;
    var s, req, node := DeliverAppendAsk(m), m.areq, c.nodes[m.to];
    AtAppendAsk(c, m);
    AtNode(c, m.to);
    AtSent(c, m);
    PrevFitsStays(c, s, m.to, req.term, req.prevIndex);
    ReplyMeans(node, req);
    var resp := R.OnAppendRequest(node, req).1;
    if !resp.success && resp.term <= req.term {
      StepExtends(c, s);
      AskedNode(c, m);
      RefusedHeard(c.history, After(c, s).history, node, req);
    }
  }

  lemma ReplyMeans(node: R.Node, req: R.AppendRequest)
    ensures var resp := R.OnAppendRequest(node, req).1;
      !resp.success && resp.term <= req.term ==> req.term >= node.term && !R.PrevMatches(node.log, req)
  {
    hide Merge, R.PrevMatches, R.ApplyCommitted;
  }

  /** Every message that a step adds fits. */
  lemma NewMessageFits(c: Cluster, s: Step, m: Message)
    requires ClusterInv(c) && RefusalInv(c) && Enabled(c, s) && Linked(c) && m in After(c, s).net && m !in c.net
    ensures PrevSent(After(c, s), m)
  {
    hide ClusterInv, RefusalInv, PrevFits, HeardAt, After, R.OnAppendRequest, R.OnVoteRequest;
    if m.AppendAsk? || m.AppendAnswer? {
      NewMessages(c, s, m);
      if s.DeliverAppendAsk? {
        ReplyFits(c, s.m);
      } else {
        RequestFits(c, if s.SendAppend? then s.n else c.rounds[s.r].owner, m.to);
        PrevFitsStays(c, s, m.to, m.areq.term, m.areq.prevIndex);
      }
    }
  }

  lemma NewMessages(c: Cluster, s: Step, m: Message)
    requires Enabled(c, s) && Linked(c) && m in After(c, s).net && m !in c.net && (m.AppendAsk? || m.AppendAnswer?)
    ensures s.SendAppend? || s.SendProbe? || s.DeliverAppendAsk?
    ensures s.SendAppend? ==> m == AppendAsk(s.peer, Replicate, R.ReplicateRequest(c.nodes[s.n], s.peer))
    ensures s.SendProbe? ==>
      var n := c.rounds[s.r].owner;
      && m.AppendAsk? && n in c.nodes && c.nodes[n].role == R.Leader && CanAddress(c.nodes[n], m.to)
      && m.areq == R.ProbeRequest(c.nodes[n], m.to)
    ensures s.DeliverAppendAsk? ==>
      m == AppendAnswer(s.m.to, s.m.tag, s.m.areq, R.OnAppendRequest(c.nodes[s.m.to], s.m.areq).1)
  {
    hide R.OnAppendRequest, R.OnVoteRequest, R.OnAppendResponse, R.OnProbeResponse, R.ReplicateRequest, R.ProbeRequest, NewlyApplied,
      Accept, Cast, HeardTerm, Bid, Elect, Extend, Record, RaiseTerm, Without, Supporters;
  }

  /** Every next index fits after a step. */
  lemma NextFitsAfter(c: Cluster, s: Step, n: NodeId, p: NodeId)
    requires ClusterInv(c) && RefusalInv(c) && Enabled(c, s) && Linked(c)
    ensures NextFits(After(c, s), n, p)
  {
    hide ClusterInv, RefusalInv, PrevFits, After, R.OnAppendRequest, R.OnAppendResponse;
    var d := After(c, s);
    SameNodes(c, s);
    if n in d.nodes && d.nodes[n].role == R.Leader && p in d.nodes[n].nextIndex && d.nodes[n].nextIndex[p] > 0 {
      AtNext(c, n, p);
      if s == FinishElection(n) {
        ElectedNext(c, n, p);
      } else if s.DeliverAppendAnswer? && s.m.areq.leader == n {
        AnsweredNext(c, s.m, p);
      } else {
        LeadsOnStep(c, s, n);
        PrevFitsStays(c, s, p, d.nodes[n].term, d.nodes[n].nextIndex[p] - 1);
      }
    }
  }

  lemma SameNodes(c: Cluster, s: Step)
    requires ClusterInv(c) && Enabled(c, s) && Linked(c)
    ensures After(c, s).nodes.Keys == c.nodes.Keys
  {
    hide ClusterInv, After;
    StepKeeps(c, s);
    StepExtends(c, s);
    KeysAreIds(c);
    KeysAreIds(After(c, s));
  }

  lemma KeysAreIds(c: Cluster)
    requires ClusterInv(c)
    ensures c.nodes.Keys == Ids(c.history.peers)
  {
  }

  lemma LeadsOnStep(c: Cluster, s: Step, n: NodeId)
    requires Enabled(c, s) && Linked(c) && n in c.nodes
    requires s != FinishElection(n) && !(s.DeliverAppendAnswer? && s.m.areq.leader == n)
    ensures n in After(c, s).nodes && LeadsOn(c.nodes[n], After(c, s).nodes[n])
  {
    hide After;
    if s.DeliverAppendAsk? {
      if s.m.to == n {
        AskedNode(c, s.m);
        AskedLeads(c.nodes[n], s.m.areq);
      } else {
        NotAsked(c, s.m, n);
      }
    } else if s.DeliverAppendAnswer? {
      AnsweredNode(c, s.m, n);
    } else {
      OtherStepsStay(c, s, n);
    }
  }

  lemma AskedLeads(n: R.Node, req: R.AppendRequest)
    ensures LeadsOn(n, R.OnAppendRequest(n, req).0)
  {
    hide Merge, R.PrevMatches, R.ApplyCommitted;
  }

  lemma ElectedNext(c: Cluster, n: NodeId, p: NodeId)
    requires ClusterInv(c) && RefusalInv(c) && Enabled(c, FinishElection(n)) && Linked(c)
    ensures NextFits(After(c, FinishElection(n)), n, p)
  {
    hide ClusterInv, RefusalInv, PrevFits, HeardAt, AfterStartElection, AfterPollPeer, AfterVoteAsk, AfterAppendAsk, AfterPropose,
      AfterSendAppend, AfterAppendAnswer, AfterSendProbe, AfterEndProbe, AfterRestart, Inv, NodeFits, Without;
    var s := FinishElection(n);
    var d := After(c, s);
    AtNode(c, n);
    NodeTerm(c, n);
    var node, campaign := c.nodes[n], c.campaigns[n];
    if node.role == R.Candidate && node.term == campaign.term && campaign.votes >= Majority(c.peers) {
      assert d.history.elections[node.term].log == node.log by { NodeIs(c.history, node); }
      FromElection(d, p, node.term, |node.log|);
    } else {
      AtNext(c, n, p);
      assert d.nodes == c.nodes;
      if node.role == R.Leader && p in node.nextIndex && node.nextIndex[p] > 0 {
        PrevFitsStays(c, s, p, node.term, node.nextIndex[p] - 1);
      }
    }
  }

  lemma FromElection(c: Cluster, p: NodeId, t: nat, prev: nat)
    requires t in c.history.elections && prev == |c.history.elections[t].log|
    ensures PrevFits(c, p, t, prev)
  {
  }

  lemma AnsweredNext(c: Cluster, m: Message, p: NodeId)
    requires ClusterInv(c) && RefusalInv(c) && Enabled(c, DeliverAppendAnswer(m)) && Linked(c)
    ensures NextFits(After(c, DeliverAppendAnswer(m)), m.areq.leader, p)
  {
    hide ClusterInv, RefusalInv, HeardAt, After, R.OnAppendResponse;
    var s, n, req := DeliverAppendAnswer(m), m.areq.leader, m.areq;
    var d := After(c, s);
    AtNext(c, n, p);
    AtSent(c, m);
    AtMessage(c, m);
    AnsweredNode(c, m, n);
    var node, n' := c.nodes[n], d.nodes[n];
    if n'.role == R.Leader && p in n'.nextIndex && n'.nextIndex[p] > 0 {
      AnsweredIndex(node, c.peers, m.from, req, m.aresp, p);
      if p in node.nextIndex && n'.nextIndex[p] == node.nextIndex[p] {
        PrevFitsStays(c, s, p, node.term, node.nextIndex[p] - 1);
      } else if m.aresp.success {
        var last := req.prevIndex + |req.entries|;
        assert Ack(p, req.term, last) in c.history.acks;
        AckedFits(c, p, req.term, req.prevIndex, last);
        PrevFitsStays(c, s, p, req.term, last);
      } else {
        LowerFits(c, p, node.term, node.nextIndex[p] - 1);
        PrevFitsStays(c, s, p, node.term, node.nextIndex[p] - 2);
      }
    }
  }

  lemma AckedFits(c: Cluster, p: NodeId, t: nat, prev: nat, last: nat)
    requires PrevFits(c, p, t, prev) && prev <= last && Ack(p, t, last) in c.history.acks
    ensures PrevFits(c, p, t, last)
  {
  }

  lemma LowerFits(c: Cluster, p: NodeId, t: nat, prev: nat)
    requires PrevFits(c, p, t, prev) && prev > 0 && HeardAt(c, p, t)
    ensures PrevFits(c, p, t, prev - 1)
  {
    if prev - 1 > |c.history.elections[t].log| {
      var a :| a in c.history.acks && a.node == p && a.term == t && prev <= a.index;
      assert Acked(c.history, p, t, prev - 1);
    }
  }

  /** How a reply changes a next index of the node that still leads afterwards. */
  lemma AnsweredIndex(n: R.Node, peers: seq<NodeId>, from: NodeId, req: R.AppendRequest, resp: R.AppendResponse, p: NodeId)
    requires R.OnAppendResponse(n, peers, from, req, resp).role == R.Leader
      && p in R.OnAppendResponse(n, peers, from, req, resp).nextIndex
    ensures var n' := R.OnAppendResponse(n, peers, from, req, resp);
      && n.role == R.Leader && n'.term == n.term
      && (|| (p in n.nextIndex && n'.nextIndex[p] == n.nextIndex[p])
          || (p == from && n.term == req.term && resp.success && n'.nextIndex[p] == req.prevIndex + |req.entries| + 1)
          || (p == from && n.term == req.term && !resp.success && resp.term <= req.term
              && p in n.nextIndex && n.nextIndex[p] > 1 && n'.nextIndex[p] == n.nextIndex[p] - 1))
  {
    hide R.AdvanceCommit;
    AdvanceFrame(Matched(n, from, req), peers);
  }

  lemma TailStays(c: Cluster, s: Step, t: nat)
    requires ClusterInv(c) && RefusalInv(c) && Enabled(c, s) && Linked(c) && t in After(c, s).history.elections
    ensures OwnTail(After(c, s).history, t)
  {
    hide ClusterInv, RefusalInv, OwnTail, After;
    match s
    case FinishElection(n) => ElectedTail(c, n, t);
    case Propose(n, op, key, value) => ProposedTail(c, n, op, key, value, t);
    case _ =>
      SameLedger(c, s);
      AtTail(c, t);
      SameTail(c.history, After(c, s).history, t);
  }

  lemma SameTail(h: History, g: History, t: nat)
    requires OwnTail(h, t) && LedgerStays(h, g)
    ensures OwnTail(g, t)
  {
  }

  ghost predicate LedgerStays(h: History, g: History) {
    g.ledger == h.ledger && g.elections == h.elections
  }

  lemma SameLedger(c: Cluster, s: Step)
    requires Enabled(c, s) && Linked(c) && !s.FinishElection? && !s.Propose?
    ensures LedgerStays(c.history, After(c, s).history)
  {
    hide AfterPollPeer, AfterVoteAsk, AfterAppendAsk, AfterAppendAnswer, AfterEndProbe, R.ReplicateRequest, R.ProbeRequest, Without;
    match s
    case PollPeer(n, answer) => PollLedger(c, n, answer);
    case DeliverVoteAsk(m) => VoteLedger(c, m);
    case DeliverAppendAsk(m) => AskLedger(c, m);
    case DeliverAppendAnswer(m) => AnswerLedger(c, m);
    case EndProbe(r, answer) => ProbeLedger(c, r, answer);
    case _ =>
  }

  lemma PollLedger(c: Cluster, n: NodeId, answer: Option<Message>)
    requires Enabled(c, PollPeer(n, answer)) && Linked(c)
    ensures LedgerStays(c.history, AfterPollPeer(c, n, answer).history)
  {
    hide Without;
  }

  lemma VoteLedger(c: Cluster, m: Message)
    requires Enabled(c, DeliverVoteAsk(m)) && Linked(c)
    ensures LedgerStays(c.history, AfterVoteAsk(c, m).history)
  {
    hide R.OnVoteRequest;
  }

  lemma AskLedger(c: Cluster, m: Message)
    requires Enabled(c, DeliverAppendAsk(m)) && Linked(c)
    ensures LedgerStays(c.history, AfterAppendAsk(c, m).history)
  {
    hide R.OnAppendRequest, NewlyApplied;
  }

  lemma AnswerLedger(c: Cluster, m: Message)
    requires Enabled(c, DeliverAppendAnswer(m)) && Linked(c)
    ensures LedgerStays(c.history, AfterAppendAnswer(c, m).history)
  {
    hide R.OnAppendResponse, NewlyApplied, Supporters;
  }

  lemma ProbeLedger(c: Cluster, r: nat, answer: Option<Message>)
    requires Enabled(c, EndProbe(r, answer)) && Linked(c)
    ensures LedgerStays(c.history, AfterEndProbe(c, r, answer).history)
  {
    hide R.OnProbeResponse;
  }

  lemma ElectedTail(c: Cluster, n: NodeId, t: nat)
    requires RefusalInv(c) && Enabled(c, FinishElection(n)) && Linked(c) && t in After(c, FinishElection(n)).history.elections
    ensures OwnTail(After(c, FinishElection(n)).history, t)
  {
    hide RefusalInv, R.BecomeLeader, Without;
    if t in c.history.elections { AtTail(c, t); }
  }

  lemma ProposedTail(c: Cluster, n: NodeId, op: Op, key: Bytes, value: Bytes, t: nat)
    requires ClusterInv(c) && RefusalInv(c) && Enabled(c, Propose(n, op, key, value)) && Linked(c)
    requires t in After(c, Propose(n, op, key, value)).history.elections
    ensures OwnTail(After(c, Propose(n, op, key, value)).history, t)
  {
    hide ClusterInv, RefusalInv, Inv;
    AtNode(c, n);
    AtTail(c, t);
  }

  lemma StepRefusal(c: Cluster, s: Step)
    requires ClusterInv(c) && RefusalInv(c) && Enabled(c, s) && Linked(c)
    ensures RefusalInv(After(c, s))
  {
    hide ClusterInv, OwnTail, NextFits, PrevSent, After, Enabled;
    var d := After(c, s);
    forall t | t in d.history.elections ensures OwnTail(d.history, t) { TailStays(c, s, t); }
    forall n, p ensures NextFits(d, n, p) { NextFitsAfter(c, s, n, p); }
    forall m | m in d.net ensures PrevSent(d, m) {
      if m in c.net {
        AtSent(c, m);
        PrevSentStays(c, s, m);
      } else {
        NewMessageFits(c, s, m);
      }
    }
  }

  lemma {:induction false} RunRefusal(peers: seq<NodeId>, steps: seq<Step>)
    requires Distinct(peers) && 0 !in peers && Run(peers, steps).Some?
    ensures RefusalInv(Run(peers, steps).value)
    decreases |steps|
  {
    hide ClusterInv, RefusalInv, After, Enabled;
    if steps == [] {
      InitRefusal(peers);
    } else {
      var before := steps[..|steps| - 1];
      RunInv(peers, before);
      RunRefusal(peers, before);
      StepRefusal(Run(peers, before).value, steps[|steps| - 1]);
    }
  }

  lemma InitRefusal(peers: seq<NodeId>)
    ensures RefusalInv(Init(peers))
  {
  }
}
