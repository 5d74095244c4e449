/** Commit indices and applied entries: what every run keeps whose confirmation probes make only
    safe claims. */
module RaftCommit {
  import opened Bytes
  import opened ClusterConfig
  import opened Logs
  import opened Options
  import opened Store
  import opened RaftHistory
  import opened RaftHistoryProofs
  import opened RaftCluster
  import opened RaftInvariant
  import opened RaftRefusal
  import R = RaftSteps
  import QuorumIndex

  // ----- The invariant

  ghost predicate CertifiedBy(h: History, log: Log, k: nat, t: nat, cm: Commit) {
    cm in h.commits && cm.term <= t && k <= cm.index && cm.term in h.ledger && Agree(log, h.ledger[cm.term], k)
  }

  /** The first `k` entries of `log` were committed in some term up to `t`. */
  ghost predicate Certified(h: History, log: Log, k: nat, t: nat) {
    k == 0 || exists cm :: CertifiedBy(h, log, k, t, cm)
  }

  /** The request carries, or builds on, everything it claims to be committed. */
  ghost predicate Covers(req: R.AppendRequest) {
    req.leaderCommit <= req.prevIndex + |req.entries|
  }

  /** The term of the last entry that the request carries or builds on; without one, 1, the lowest
      term an entry can have. */
  ghost function Anchor(req: R.AppendRequest): nat {
    if req.entries != [] then req.entries[|req.entries| - 1].term
    else if req.prevIndex > 0 then req.prevTerm
    else 1
  }

  /** Past what it covers, a request may still claim an entry of `leader`, the sender's log, that has
      the term of the entry it builds on. If that is the term before the sender's, and the next entry
      has it too, the request may claim any entry. */
  ghost predicate SafeClaim(leader: Log, req: R.AppendRequest) {
    || Covers(req)
    || (&& req.leaderCommit <= |leader|
        && (|| leader[req.leaderCommit - 1].term == Anchor(req)
            || (Anchor(req) + 1 == req.term && leader[req.prevIndex + |req.entries|].term == Anchor(req))))
  }

  /** The latest term up to `t` in which the first `k` entries may have been committed: that of the last
      of them, or the next. */
  function Deadline(log: Log, k: nat, t: nat): (d: nat)
    ensures d <= t
  {
    if 0 < k <= |log| && log[k - 1].term < t then log[k - 1].term + 1 else t
  }

  ghost predicate Promptly(h: History, log: Log, k: nat, t: nat) {
    Certified(h, log, k, Deadline(log, k, t))
  }

  ghost predicate ClaimFits(h: History, m: Message) {
    m.AppendAsk? ==>
      && m.areq.term in h.ledger && SafeClaim(h.ledger[m.areq.term], m.areq)
      && Promptly(h, h.ledger[m.areq.term], m.areq.leaderCommit, m.areq.term)
  }

  function Max(a: nat, b: nat): nat {
    if a < b then b else a
  }

  /** What is applied to memory after the first `k` entries, when the first `c` are committed. */
  function Past(log: Log, k: nat, c: nat): Log
    requires c <= |log|
  {
    if k < c then log[k..c] else []
  }

  /** Memory started out as `base`, which stood for the first `k` entries; what was committed past them has
      been applied since. */
  ghost predicate Applies(n: R.Node, base: Contents, k: nat) {
    && n.commitIndex <= |n.log| && n.lastApplied == Max(k, n.commitIndex)
    && n.kv == ReplayOn(base, Past(n.log, k, n.commitIndex))
  }

  /** Until it restarts, a node remembers every commit it found as a leader. */
  ghost predicate OwnCommits(h: History, n: R.Node) {
    forall cm | cm in h.commits && cm.term in h.elections && h.elections[cm.term].leader == n.id :: cm.index <= n.commitIndex
  }

  ghost predicate Committed(c: Cluster, n: NodeId) {
    && n in c.nodes
    && Promptly(c.history, c.nodes[n].log, c.nodes[n].commitIndex, c.nodes[n].term)
    && (n !in c.restarted ==> Applies(c.nodes[n], map[], 0) && OwnCommits(c.history, c.nodes[n]))
  }

  ghost predicate AppliedBy(h: History, a: Applied, cm: Commit) {
    && cm in h.commits && 0 < a.index <= cm.index && cm.term in h.ledger && a.index <= |h.ledger[cm.term]|
    && h.ledger[cm.term][a.index - 1] == a.entry
  }

  ghost predicate AppliedFits(h: History, a: Applied) {
    exists cm :: AppliedBy(h, a, cm)
  }

  ghost predicate SafeInv(c: Cluster) {
    && (forall n {:trigger Committed(c, n)} | n in c.nodes :: Committed(c, n))
    && (forall m {:trigger ClaimFits(c.history, m)} | m in c.net :: ClaimFits(c.history, m))
    && (forall a {:trigger AppliedFits(c.history, a)} | a in c.applied :: AppliedFits(c.history, a))
  }

  /** Memory that started out empty is the replay of the committed prefix. */
  lemma ReplaysAll(n: R.Node)
    requires Applies(n, map[], 0)
    ensures n.lastApplied == n.commitIndex <= |n.log| && n.kv == Replay(n.log[..n.commitIndex])
  {
    assert n.log[..0] == [] && n.log[0..n.commitIndex] == Past(n.log, 0, n.commitIndex);
    ReplaySplit(n.log, 0, n.commitIndex);
  }

  // ----- Framing

  lemma CertifiedStays(h: History, g: History, log: Log, log': Log, k: nat, t: nat, t': nat)
    requires Extends(h, g) && Certified(h, log, k, t) && t <= t'
    requires k <= |log| ==> Agree(log, log', k)
    ensures Certified(g, log', k, t')
  {
    if k > 0 {
      var cm :| CertifiedBy(h, log, k, t, cm);
      assert Agree(h.ledger[cm.term], g.ledger[cm.term], |h.ledger[cm.term]|);
      assert CertifiedBy(g, log', k, t', cm);
    }
  }

  lemma PromptlyStays(h: History, g: History, log: Log, log': Log, k: nat, t: nat, t': nat)
    requires Extends(h, g) && Promptly(h, log, k, t) && t <= t'
    requires k <= |log| ==> Agree(log, log', k)
    ensures Promptly(g, log', k, t')
  {
    CertifiedLength(h, log, k, Deadline(log, k, t));
    CertifiedStays(h, g, log, log', k, Deadline(log, k, t), Deadline(log', k, t'));
  }

  lemma CertifiedLater(h: History, log: Log, k: nat, t: nat, t': nat)
    requires Certified(h, log, k, t) && t <= t'
    ensures Certified(h, log, k, t') && k <= |log|
  {
    if k > 0 {
      var cm :| CertifiedBy(h, log, k, t, cm);
      assert CertifiedBy(h, log, k, t', cm);
    }
  }

  lemma PromptlyCertified(h: History, log: Log, k: nat, t: nat)
    requires Promptly(h, log, k, t)
    ensures Certified(h, log, k, t) && k <= |log|
  {
    CertifiedLater(h, log, k, Deadline(log, k, t), t);
  }

  lemma ClaimFitsStays(h: History, g: History, m: Message)
    requires Extends(h, g) && ClaimFits(h, m)
    ensures ClaimFits(g, m)
  {
    if m.AppendAsk? {
      var t := m.areq.term;
      assert Agree(h.ledger[t], g.ledger[t], |h.ledger[t]|);
      PromptlyStays(h, g, h.ledger[t], g.ledger[t], m.areq.leaderCommit, t, t);
      PromptlyCertified(h, h.ledger[t], m.areq.leaderCommit, t);
    }
  }

  lemma AppliedFitsStays(h: History, g: History, a: Applied)
    requires Extends(h, g) && AppliedFits(h, a)
    ensures AppliedFits(g, a)
  {
    var cm :| AppliedBy(h, a, cm);
    assert Agree(h.ledger[cm.term], g.ledger[cm.term], |h.ledger[cm.term]|);
    assert AppliedBy(g, a, cm);
  }

  /** Every commit that is new was found by node `n`, the leader of its term. */
  ghost predicate CommitsBy(h: History, g: History, n: NodeId) {
    forall cm | cm in g.commits && cm !in h.commits :: cm.term in g.elections && g.elections[cm.term].leader == n
  }

  lemma OtherCommitted(c: Cluster, d: Cluster, n: NodeId, m: NodeId)
    requires ClusterInv(c) && OnlyBy(c.history, d.history, n) && CommitsBy(c.history, d.history, n)
    requires m in c.nodes && m != n && m in d.nodes && d.nodes[m] == c.nodes[m] && Committed(c, m)
    requires m in c.restarted ==> m in d.restarted
    ensures Committed(d, m)
  {
    hide ClusterInv, Inv;
    AtNode(c, m);
    var node := c.nodes[m];
    PromptlyStays(c.history, d.history, node.log, node.log, node.commitIndex, node.term, node.term);
    hide Promptly;
  }

  ghost predicate SafeStepBy(c: Cluster, d: Cluster, n: NodeId) {
    && n in c.nodes && OnlyBy(c.history, d.history, n) && CommitsBy(c.history, d.history, n)
    && d.nodes.Keys == c.nodes.Keys && (forall m | m in c.nodes && m != n :: d.nodes[m] == c.nodes[m])
    && c.restarted <= d.restarted && Committed(d, n)
    && (forall m {:trigger ClaimFits(d.history, m)} | m in d.net && m !in c.net :: ClaimFits(d.history, m))
    && (forall a {:trigger AppliedFits(d.history, a)} | a in d.applied && a !in c.applied :: AppliedFits(d.history, a))
  }

  lemma SafeStepByKeeps(c: Cluster, d: Cluster, n: NodeId)
    requires ClusterInv(c) && SafeInv(c) && SafeStepBy(c, d, n)
    ensures SafeInv(d)
  {
    hide ClusterInv, Committed, ClaimFits, AppliedFits, CommitsBy;
    forall m | m in d.nodes ensures Committed(d, m) {
      if m != n {
        assert Committed(c, m);
        OtherCommitted(c, d, n, m);
      }
    }
    forall m | m in d.net ensures ClaimFits(d.history, m) {
      if m in c.net {
        assert ClaimFits(c.history, m);
        ClaimFitsStays(c.history, d.history, m);
      }
    }
    forall a | a in d.applied ensures AppliedFits(d.history, a) {
      if a in c.applied {
        assert AppliedFits(c.history, a);
        AppliedFitsStays(c.history, d.history, a);
      }
    }
  }

  /** A node that keeps its log, commit index and memory keeps its standing, unless it becomes a leader. */
  lemma QuietCommitted(c: Cluster, d: Cluster, n: NodeId)
    requires Inv(c.history) && n in c.nodes && n in d.nodes && Committed(c, n) && Extends(c.history, d.history)
    requires d.history.commits == c.history.commits
    requires var a, b := c.nodes[n], d.nodes[n];
      b == a.(role := b.role, term := b.term, votedFor := b.votedFor, leaderId := b.leaderId,
              nextIndex := b.nextIndex, matchIndex := b.matchIndex) && a.term <= b.term
    requires n in c.restarted ==> n in d.restarted
    ensures Committed(d, n)
  {
    hide Inv;
    var a, b := c.nodes[n], d.nodes[n];
    PromptlyStays(c.history, d.history, a.log, b.log, a.commitIndex, a.term, b.term);
    if n !in c.restarted { OwnCommitsStay(c.history, d.history, a, b); }
    hide Promptly, OwnCommits;
  }

  lemma OwnCommitsStay(h: History, g: History, a: R.Node, b: R.Node)
    requires Inv(h) && Extends(h, g) && g.commits == h.commits && OwnCommits(h, a)
    requires b.id == a.id && a.commitIndex <= b.commitIndex
    ensures OwnCommits(g, b)
  {
    forall cm | cm in g.commits ensures cm.term in h.elections { CommitTermElected(h, cm); }
  }

  /** A step of `n` that neither commits nor claims anything. */
  lemma QuietStep(c: Cluster, d: Cluster, n: NodeId)
    requires ClusterInv(c) && SafeInv(c) && n in c.nodes && OnlyBy(c.history, d.history, n)
    requires d.history.commits == c.history.commits && d.applied == c.applied && d.restarted == c.restarted
    requires d.nodes.Keys == c.nodes.Keys && forall m | m in c.nodes && m != n :: d.nodes[m] == c.nodes[m]
    requires var a, b := c.nodes[n], d.nodes[n];
      b == a.(role := b.role, term := b.term, votedFor := b.votedFor, leaderId := b.leaderId,
              nextIndex := b.nextIndex, matchIndex := b.matchIndex) && a.term <= b.term
    requires forall m | m in d.net && m !in c.net :: !m.AppendAsk?
    ensures SafeInv(d)
  {
    hide ClusterInv, Committed, Promptly, Inv, SafeInv, OnlyBy, Extends;
    AtNode(c, n);
    AtCommitted(c, n);
    OnlyByExtends(c.history, d.history, n);
    QuietCommitted(c, d, n);
    SafeStepByKeeps(c, d, n);
  }

  // ----- Steps that commit nothing

  lemma StartElectionSafe(c: Cluster, n: NodeId)
    requires ClusterInv(c) && SafeInv(c) && Enabled(c, StartElection(n)) && Linked(c)
    ensures SafeInv(AfterStartElection(c, n))
  {
    hide ClusterInv, SafeInv, OnlyBy;
    StartElectionKeeps(c, n);
    QuietStep(c, AfterStartElection(c, n), n);
  }

  lemma PollPeerSafe(c: Cluster, n: NodeId, answer: Option<Message>)
    requires ClusterInv(c) && SafeInv(c) && Enabled(c, PollPeer(n, answer)) && Linked(c)
    ensures SafeInv(AfterPollPeer(c, n, answer))
  {
    hide ClusterInv, SafeInv, OnlyBy, Promptly, Without;
    PollPeerKeeps(c, n, answer);
    QuietStep(c, AfterPollPeer(c, n, answer), n);
  }

  lemma AtCommitted(c: Cluster, n: NodeId)
    requires SafeInv(c) && n in c.nodes
    ensures Committed(c, n)
    ensures Certified(c.history, c.nodes[n].log, c.nodes[n].commitIndex, c.nodes[n].term)
  {
    hide Promptly;
    assert Committed(c, n);
    PromptlyCertified(c.history, c.nodes[n].log, c.nodes[n].commitIndex, c.nodes[n].term);
  }

  lemma FinishElectionSafe(c: Cluster, n: NodeId)
    requires ClusterInv(c) && SafeInv(c) && Enabled(c, FinishElection(n)) && Linked(c)
    ensures SafeInv(AfterFinishElection(c, n))
  {
    hide ClusterInv, SafeInv, OnlyBy;
    FinishElectionKeeps(c, n);
    QuietStep(c, AfterFinishElection(c, n), n);
  }

  lemma CommitTermElected(h: History, cm: Commit)
    requires Inv(h) && cm in h.commits
    ensures cm.term in h.elections && CommitOk(h, cm)
  {
    assert CommitOk(h, cm);
  }

  lemma VoteAskSafe(c: Cluster, m: Message)
    requires ClusterInv(c) && SafeInv(c) && Enabled(c, DeliverVoteAsk(m)) && Linked(c)
    ensures SafeInv(AfterVoteAsk(c, m))
  {
    hide ClusterInv, SafeInv, OnlyBy, Promptly;
    VoteAskKeeps(c, m);
    QuietStep(c, AfterVoteAsk(c, m), m.to);
  }

  lemma EndProbeSafe(c: Cluster, r: nat, answer: Option<Message>)
    requires ClusterInv(c) && SafeInv(c) && Enabled(c, EndProbe(r, answer)) && Linked(c)
    ensures SafeInv(AfterEndProbe(c, r, answer))
  {
    hide ClusterInv, SafeInv, OnlyBy, Promptly;
    EndProbeKeeps(c, r, answer);
    QuietStep(c, AfterEndProbe(c, r, answer), c.rounds[r].owner);
  }

  // ----- Proposals, requests and restarts

  lemma ProposeSafe(c: Cluster, n: NodeId, op: Op, key: Bytes, value: Bytes)
    requires ClusterInv(c) && SafeInv(c) && Enabled(c, Propose(n, op, key, value)) && Linked(c)
    ensures SafeInv(AfterPropose(c, n, op, key, value))
  {
    hide ClusterInv, SafeInv, OnlyBy, Promptly, Inv, OwnCommits, Extends, NodeFits, ReplayOn;
    var d := AfterPropose(c, n, op, key, value);
    ProposeKeeps(c, n, op, key, value);
    AtCommitted(c, n);
    AtNode(c, n);
    var a, b := c.nodes[n], d.nodes[n];
    OnlyByExtends(c.history, d.history, n);
    if n !in c.restarted { OwnCommitsStay(c.history, d.history, a, b); }
    LongerCommitted(c.history, d.history, n, a, b);
    assert a.commitIndex <= |a.log| ==> Past(b.log, 0, a.commitIndex) == Past(a.log, 0, a.commitIndex);
    SafeStepByKeeps(c, d, n);
  }

  lemma LongerCommitted(h: History, g: History, n: NodeId, a: R.Node, b: R.Node)
    requires OnlyBy(h, g, n) && Promptly(h, a.log, a.commitIndex, a.term)
    requires b.commitIndex == a.commitIndex && b.term == a.term && Agree(a.log, b.log, |a.log|)
    ensures Promptly(g, b.log, b.commitIndex, b.term)
  {
    PromptlyStays(h, g, a.log, b.log, a.commitIndex, a.term, b.term);
  }

  /** A leader may claim what it has committed, if the claim is safe. */
  lemma ClaimedByLeader(c: Cluster, n: NodeId, req: R.AppendRequest, m: Message)
    requires ClusterInv(c) && SafeInv(c) && n in c.nodes && c.nodes[n].role == R.Leader
    requires req.term == c.nodes[n].term && req.leaderCommit == c.nodes[n].commitIndex
    requires SafeClaim(c.nodes[n].log, req)
    requires m.AppendAsk? ==> m.areq == req
    ensures ClaimFits(c.history, m)
  {
    hide ClusterInv, SafeInv, Inv, Promptly, Certified, SafeClaim;
    AtNode(c, n);
    AtCommitted(c, n);
  }

  /** Sending one message that fits. */
  lemma SendSafe(c: Cluster, d: Cluster, n: NodeId, m: Message)
    requires ClusterInv(c) && SafeInv(c) && n in c.nodes && ClaimFits(c.history, m)
    requires d == c.(net := d.net, rounds := d.rounds) && d.net <= c.net + {m}
    ensures SafeInv(d)
  {
    hide ClaimFits, AppliedFits, Promptly, Applies, OwnCommits, ClusterInv;
    forall k | k in d.nodes ensures Committed(d, k) { assert Committed(c, k); }
    forall k | k in d.net ensures ClaimFits(d.history, k) { assert k != m ==> ClaimFits(c.history, k); }
  }

  lemma SendAppendSafe(c: Cluster, n: NodeId, peer: NodeId)
    requires ClusterInv(c) && SafeInv(c) && Enabled(c, SendAppend(n, peer))
    ensures SafeInv(AfterSendAppend(c, n, peer))
  {
    hide ClusterInv, SafeInv, ClaimFits;
    var req := R.ReplicateRequest(c.nodes[n], peer);
    LeaderNext(c, n, peer);
    CommitWithinLog(c, n);
    assert req.prevIndex + |req.entries| == |c.nodes[n].log|;
    ClaimedByLeader(c, n, req, AppendAsk(peer, Replicate, req));
    SendSafe(c, AfterSendAppend(c, n, peer), n, AppendAsk(peer, Replicate, req));
  }

  lemma LeaderNext(c: Cluster, n: NodeId, peer: NodeId)
    requires ClusterInv(c) && n in c.nodes && c.nodes[n].role == R.Leader && peer in c.nodes[n].nextIndex
    ensures 1 <= c.nodes[n].nextIndex[peer] <= |c.nodes[n].log| + 1
  {
    assert NodeAt(c, n);
  }

  lemma CommitWithinLog(c: Cluster, n: NodeId)
    requires SafeInv(c) && n in c.nodes
    ensures c.nodes[n].commitIndex <= |c.nodes[n].log|
  {
    assert Committed(c, n);
    PromptlyCertified(c.history, c.nodes[n].log, c.nodes[n].commitIndex, c.nodes[n].term);
  }

  /** The one step that needs care: the claim a probe makes must be safe. */
  ghost predicate Covered(c: Cluster, s: Step) {
    s.SendProbe? && Enabled(c, s) && Holds(c, s.r) && c.peers[c.rounds[s.r].next] != c.rounds[s.r].owner ==>
      var node := c.nodes[c.rounds[s.r].owner];
      SafeClaim(node.log, R.ProbeRequest(node, c.peers[c.rounds[s.r].next]))
  }

  lemma SendProbeSafe(c: Cluster, r: nat)
    requires ClusterInv(c) && SafeInv(c) && Enabled(c, SendProbe(r)) && Covered(c, SendProbe(r))
    ensures SafeInv(AfterSendProbe(c, r))
  {
    hide ClusterInv, SafeInv, ClaimFits, SafeClaim, R.ProbeRequest;
    var d, n, peer := AfterSendProbe(c, r), c.rounds[r].owner, c.peers[c.rounds[r].next];
    if peer != n && Holds(c, r) {
      ProbeMeans(c.nodes[n], peer);
      var req := R.ProbeRequest(c.nodes[n], peer);
      ClaimedByLeader(c, n, req, AppendAsk(peer, Probe(r), req));
      SendSafe(c, d, n, AppendAsk(peer, Probe(r), req));
    } else {
      RoundsOnlySafe(c, d);
    }
  }

  lemma ProbeMeans(n: R.Node, peer: NodeId)
    requires CanAddress(n, peer)
    ensures R.ProbeRequest(n, peer).term == n.term && R.ProbeRequest(n, peer).leaderCommit == n.commitIndex
  {
  }

  lemma RestartSafe(c: Cluster, n: NodeId)
    requires ClusterInv(c) && SafeInv(c) && Enabled(c, Restart(n))
    ensures SafeInv(AfterRestart(c, n))
  {
    hide ClusterInv, SafeInv, ClaimFits, Inv;
    AtNode(c, n);
    SameOnlyBy(c.history, n);
    SafeStepByKeeps(c, AfterRestart(c, n), n);
  }

  // ----- Committing

  lemma {:induction false} ApplyReplays(n: R.Node, base: Contents, k: nat)
    requires k <= n.lastApplied <= n.commitIndex <= |n.log| && n.kv == ReplayOn(base, n.log[k..n.lastApplied])
    ensures Applies(R.ApplyCommitted(n), base, k)
    decreases n.commitIndex - n.lastApplied
  {
    hide ReplayOn, ApplyEntry;
    assert k == n.lastApplied ==> n.log[k..n.lastApplied] == [];
    if n.lastApplied < n.commitIndex {
      ReplayOnNext(base, n.log, k, n.lastApplied);
      ApplyReplays(n.(kv := ApplyEntry(n.kv, n.log[n.lastApplied]), lastApplied := n.lastApplied + 1), base, k);
    }
  }

  /** Whatever is newly applied lies in the certified prefix. */
  lemma NewlyAppliedFits(h: History, old_: R.Node, new_: R.Node, k: nat, t: nat)
    requires Certified(h, new_.log, k, t)
    requires new_.lastApplied > old_.lastApplied ==> new_.lastApplied <= k
    ensures forall a {:trigger AppliedFits(h, a)} | a in NewlyApplied(old_, new_) :: AppliedFits(h, a)
  {
    forall a | a in NewlyApplied(old_, new_) ensures AppliedFits(h, a) {
      var cm :| CertifiedBy(h, new_.log, k, t, cm);
      assert AppliedBy(h, a, cm);
    }
  }

  /** A leader never lacks what was committed in earlier terms. */
  lemma CommittedReachesLeader(h: History, log: Log, k: nat, t: nat, t': nat)
    requires Inv(h) && Certified(h, log, k, t) && t <= t' && t' in h.elections
    ensures t' in h.ledger && Agree(log, h.ledger[t'], k)
  {
    if k > 0 {
      var cm :| CertifiedBy(h, log, k, t, cm);
      if cm.term < t' {
        LeadersCarryCommits(h, cm, t');
        assert ElectionOk(h, t');
      }
    }
  }

  /** The merged log agrees with the sender's as far as sent, and with the old log as far as the
      first `k` entries are committed. */
  lemma MergeKeepsCommitted(h: History, node: R.Node, req: R.AppendRequest, k: nat)
    requires Inv(h) && NodeFits(h, node) && SliceFits(h, req)
    requires Certified(h, node.log, k, node.term)
    requires req.term >= node.term && R.PrevMatches(node.log, req)
    ensures req.prevIndex <= |node.log| && req.term in h.ledger
    ensures var log := Merge(node.log, req.prevIndex, req.entries);
      && Agree(node.log, log, k)
      && Agree(log, h.ledger[req.term], req.prevIndex + |req.entries|)
      && Sound(h.ledger, log) && TermsBelow(log, req.term + 1)
  {
    hide Inv, Certified, NodeFits, OnlyBy, Merge, Sound;
    var n1 := R.Hear(node, req.term);
    HeardFits(h, node, req.term);
    NodeIds(h, node);
    var h1 := HeardTerm(h, node.id, req.term);
    NodeIds(h1, n1);
    MergeAdopts(h1, n1, req);
    MergeSound(h1, n1, req);
    CommittedReachesLeader(h, node.log, k, node.term, req.term);
  }

  lemma MergeSound(h: History, node: R.Node, req: R.AppendRequest)
    requires Inv(h) && node.id in h.term && h.term[node.id] == req.term && req.prevIndex <= |node.log|
    requires MayAdopt(h, node.id, Merge(node.log, req.prevIndex, req.entries), req.prevIndex + |req.entries|)
    ensures var log := Merge(node.log, req.prevIndex, req.entries);
      Sound(h.ledger, log) && TermsBelow(log, req.term + 1)
  {
    hide Merge;
    assert NodeOk(h, node.id) && LedgerOk(h, req.term);
    hide MayAdopt, Inv;
    AdoptSound(h, node.id, Merge(node.log, req.prevIndex, req.entries), req.prevIndex + |req.entries|);
  }

  lemma NodeIds(h: History, node: R.Node)
    requires NodeFits(h, node)
    ensures node.id in h.term && node.id in h.log && h.log[node.id] == node.log && h.term[node.id] == node.term
  {
  }

  /** What is known of the merged log: it is backed, it agrees with the sender's as far as sent, and it
      does not leave it late if the slice ends early. */
  ghost predicate Merged(h: History, log: Log, req: R.AppendRequest) {
    && SliceFits(h, req) && Sound(h.ledger, log) && TermsBelow(log, req.term + 1)
    && Agree(log, h.ledger[req.term], req.prevIndex + |req.entries|)
    && OwnTail(h, req.term)
    && (req.prevIndex + |req.entries| < |h.elections[req.term].log| ==> Together(h, log, req.term))
  }

  /** A safe claim speaks the truth about the merged log, as far as that log goes. */
  lemma ClaimHolds(h: History, log: Log, req: R.AppendRequest)
    requires Inv(h) && Merged(h, log, req) && SafeClaim(h.ledger[req.term], req)
    requires Promptly(h, h.ledger[req.term], req.leaderCommit, req.term)
    ensures Agree(log, h.ledger[req.term], R.Min(req.leaderCommit, |log|))
  {
    hide Inv, Promptly, SafeClaim, Together, OwnTail;
    PromptlyCertified(h, h.ledger[req.term], req.leaderCommit, req.term);
    var k := R.Min(req.leaderCommit, |log|);
    var j := req.prevIndex + |req.entries|;
    while j < k
      invariant Agree(log, h.ledger[req.term], j) && j >= req.prevIndex + |req.entries|
    {
      ClaimHoldsAt(h, log, req, j);
      j := j + 1;
    }
  }

  lemma ClaimHoldsAt(h: History, log: Log, req: R.AppendRequest, j: nat)
    requires Inv(h) && Merged(h, log, req) && SafeClaim(h.ledger[req.term], req)
    requires Promptly(h, h.ledger[req.term], req.leaderCommit, req.term)
    requires req.prevIndex + |req.entries| <= j < req.leaderCommit && j < |log| && Agree(log, h.ledger[req.term], j)
    ensures req.leaderCommit <= |h.ledger[req.term]| && log[j] == h.ledger[req.term][j]
  {
    hide Inv, SafeClaim, Together, OwnTail, Sound;
    var leader := h.ledger[req.term];
    PromptlyCertified(h, leader, req.leaderCommit, req.term);
    var cm :| CertifiedBy(h, leader, req.leaderCommit, Deadline(leader, req.leaderCommit, req.term), cm);
    if log[j].term >= cm.term {
      CommitHeldAt(h, log, leader, j, cm);
    } else {
      EarlyMatches(h, log, req, j, cm.term);
    }
  }

  /** An entry of the commit's term or a later one is on top of what was committed. */
  lemma CommitHeldAt(h: History, log: Log, leader: Log, j: nat, cm: Commit)
    requires Inv(h) && Sound(h.ledger, log) && j < |log| && cm in h.commits && log[j].term >= cm.term
    requires j < cm.index && cm.term in h.ledger && j < |leader| && Agree(leader, h.ledger[cm.term], j + 1)
    ensures log[j] == leader[j]
  {
    var t := log[j].term;
    assert Backed(h.ledger, log, j) && CommitOk(h, cm);
    if t > cm.term {
      assert t in h.elections && ElectionOk(h, t) by { ShapeOf(h); }
      LeadersCarryCommits(h, cm, t);
    }
  }

  /** An earlier entry has the term of the entry that the request builds on. */
  lemma EarlyMatches(h: History, log: Log, req: R.AppendRequest, j: nat, t: nat)
    requires Inv(h) && Merged(h, log, req) && SafeClaim(h.ledger[req.term], req)
    requires req.prevIndex + |req.entries| <= j < req.leaderCommit <= |h.ledger[req.term]|
    requires j < |log| && Agree(log, h.ledger[req.term], j)
    requires log[j].term < t <= Deadline(h.ledger[req.term], req.leaderCommit, req.term)
    ensures log[j] == h.ledger[req.term][j]
  {
    var leader, a, m := h.ledger[req.term], Anchor(req), req.prevIndex + |req.entries|;
    LeaderRises(h, req.term, j, req.leaderCommit - 1);
    LedgersRise(h, log, req, j);
    LedgersRise(h, leader, req, j);
    LedgersRise(h, leader, req, m);
    assert log[j].term == a;
    hide Inv;
    if leader[j].term == a {
      SoundLogsMatch(h.ledger, log, leader, j);
    } else {
      assert leader[m].term == a && a + 1 == req.term;
      LeaderRises(h, req.term, m, j);
      TailStarts(h, req.term, m, j);
    }
  }

  lemma LeaderRises(h: History, t: nat, i: nat, j: nat)
    requires Inv(h) && t in h.ledger && i <= j < |h.ledger[t]|
    ensures h.ledger[t][i].term <= h.ledger[t][j].term <= t && Sound(h.ledger, h.ledger[t])
  {
    assert LedgerOk(h, t) && Backed(h.ledger, h.ledger[t], j);
    assert LedgerOk(h, h.ledger[t][j].term);
    TermsNeverFall(h, h.ledger[t], i, j);
  }

  lemma LedgersRise(h: History, log: Log, req: R.AppendRequest, i: nat)
    requires Inv(h) && SliceFits(h, req) && Agree(log, h.ledger[req.term], req.prevIndex + |req.entries|)
    requires Sound(h.ledger, log) && req.prevIndex + |req.entries| <= i < |log|
    ensures Anchor(req) <= log[i].term
  {
    assert Backed(h.ledger, log, i) && LedgerOk(h, log[i].term);
    hide Inv;
    AnchorBelow(h, log, req, i);
  }

  /** A leader's entries of earlier terms are those it was elected with. */
  lemma TailStarts(h: History, t: nat, m: nat, j: nat)
    requires Inv(h) && OwnTail(h, t) && m <= j < |h.ledger[t]| && h.ledger[t][m].term < t && h.ledger[t][j].term == t
    ensures m < |h.elections[t].log| <= j
  {
    assert ElectionOk(h, t);
    assert BidOk(h, Slot(t, h.elections[t].leader));
  }

  lemma SoundAt(ledger: map<nat, Log>, log: Log, i: nat)
    requires Sound(ledger, log) && i < |log|
    ensures Backed(ledger, log, i)
  {
  }

  /** Every entry past the slice has at least the term of the entry the request builds on. */
  lemma AnchorBelow(h: History, log: Log, req: R.AppendRequest, i: nat)
    requires SliceFits(h, req) && Sound(h.ledger, log) && Agree(log, h.ledger[req.term], req.prevIndex + |req.entries|)
    requires req.prevIndex + |req.entries| <= i < |log| && LedgerOk(h, log[i].term)
    ensures Anchor(req) <= log[i].term
  {
    var m := req.prevIndex + |req.entries|;
    if m > 0 { TermsNeverFall(h, log, m - 1, i); }
  }

  lemma NothingCertified(h: History, log: Log, t: nat)
    ensures Certified(h, log, 0, t)
  {
  }

  lemma CertifiedShorter(h: History, log: Log, k: nat, k': nat, t: nat)
    requires Certified(h, log, k, t) && k' <= k
    ensures Certified(h, log, k', t)
  {
    if k' > 0 {
      var cm :| CertifiedBy(h, log, k, t, cm);
      assert CertifiedBy(h, log, k', t, cm);
    }
  }

  /** A node together with the leader wherever the request starts early. */
  ghost predicate Addressed(h: History, node: R.Node, req: R.AppendRequest) {
    OwnTail(h, req.term) && (req.prevIndex < |h.elections[req.term].log| ==> Heard(h, node, req.term))
  }

  lemma MergedIs(h: History, node: R.Node, req: R.AppendRequest)
    requires Inv(h) && NodeFits(h, node) && SliceFits(h, req) && Addressed(h, node, req)
    requires req.term >= node.term && R.PrevMatches(node.log, req)
    ensures req.prevIndex <= |node.log| && Merged(h, Merge(node.log, req.prevIndex, req.entries), req)
  {
    hide Inv, Certified, NodeFits, Merge, OwnTail, Together, R.PrevMatches;
    NothingCertified(h, node.log, node.term);
    MergeKeepsCommitted(h, node, req, 0);
    if req.prevIndex + |req.entries| < |h.elections[req.term].log| { MergeTogether(h, node, req); }
  }

  /** An accepted request: the commit index moves only over entries that some leader committed. */
  lemma AcceptCommits(h: History, node: R.Node, req: R.AppendRequest)
    requires Inv(h) && NodeFits(h, node) && SliceFits(h, req) && Promptly(h, node.log, node.commitIndex, node.term)
    requires SafeClaim(h.ledger[req.term], req) && Promptly(h, h.ledger[req.term], req.leaderCommit, req.term)
    requires Addressed(h, node, req) && req.term >= node.term && R.PrevMatches(node.log, req)
    ensures req.prevIndex <= |node.log|
    ensures var log := Merge(node.log, req.prevIndex, req.entries);
      && node.commitIndex <= |log| && Promptly(h, log, node.commitIndex, req.term)
      && Promptly(h, log, R.Min(req.leaderCommit, |log|), req.term)
  {
    hide NodeFits, SliceFits, Certified, Promptly, Inv, Merge, Merged, Addressed, Extends, Sound, SafeClaim, R.PrevMatches;
    PromptlyCertified(h, node.log, node.commitIndex, node.term);
    MergeKeepsCommitted(h, node, req, node.commitIndex);
    MergedIs(h, node, req);
    var log, k := Merge(node.log, req.prevIndex, req.entries), node.commitIndex;
    SameExtends(h);
    PromptlyStays(h, h, node.log, log, k, node.term, req.term);
    ClaimHolds(h, log, req);
    ClaimPrompt(h, log, req);
  }

  /** What the receiver commits was committed promptly. */
  lemma ClaimPrompt(h: History, log: Log, req: R.AppendRequest)
    requires Inv(h) && Merged(h, log, req) && SafeClaim(h.ledger[req.term], req)
    requires Promptly(h, h.ledger[req.term], req.leaderCommit, req.term)
    requires Agree(log, h.ledger[req.term], R.Min(req.leaderCommit, |log|))
    ensures Promptly(h, log, R.Min(req.leaderCommit, |log|), req.term)
  {
    var leader, k, t := h.ledger[req.term], R.Min(req.leaderCommit, |log|), Deadline(h.ledger[req.term], req.leaderCommit, req.term);
    hide Inv, Certified, Together, OwnTail, Sound;
    PromptlyCertified(h, leader, req.leaderCommit, req.term);
    CertifiedShorter(h, leader, req.leaderCommit, k, t);
    SameExtends(h);
    if 0 < k < req.leaderCommit {
      LastAbove(h, log, req);
    }
    CertifiedStays(h, h, leader, log, k, t, Deadline(log, k, req.term));
  }

  lemma LastAbove(h: History, log: Log, req: R.AppendRequest)
    requires Inv(h) && Merged(h, log, req) && log != []
    ensures Anchor(req) <= log[|log| - 1].term
  {
    if req.prevIndex + |req.entries| < |log| { LedgersRise(h, log, req, |log| - 1); }
  }

  /** What the commit rule makes of a log that was merged. */
  lemma CommitReplays(n: R.Node, log: Log, leaderCommit: nat, base: Contents, k: nat)
    requires n.commitIndex <= |log| && Agree(n.log, log, n.commitIndex)
    ensures Applies(n, base, k) ==> Applies(R.CommitUpTo(n.(log := log), leaderCommit), base, k)
  {
    hide ReplayOn;
    assert Past(log, k, n.commitIndex) == Past(n.log, k, n.commitIndex);
    if Applies(n, base, k) && leaderCommit > n.commitIndex {
      AppliesOn(n.(log := log), R.Min(leaderCommit, |log|), base, k);
    }
  }

  lemma CommitMoves(n: R.Node, log: Log, leaderCommit: nat)
    requires n.commitIndex <= |log|
    ensures var n' := R.CommitUpTo(n.(log := log), leaderCommit);
      && n'.log == log && n.commitIndex <= n'.commitIndex
      && (n'.commitIndex == n.commitIndex || n'.commitIndex == R.Min(leaderCommit, |log|))
  {
  }

  /** As long as no committed entry is lost, handling a request keeps memory a replay. */
  lemma AppendReplays(node: R.Node, req: R.AppendRequest, base: Contents, j: nat)
    requires var n' := R.OnAppendRequest(node, req).0; Agree(node.log, n'.log, node.commitIndex)
    ensures Applies(node, base, j) ==> Applies(R.OnAppendRequest(node, req).0, base, j)
  {
    hide ReplayOn, Merge, R.CommitUpTo, Past;
    if Applies(node, base, j) && req.term >= node.term && R.PrevMatches(node.log, req) {
      var log := Merge(node.log, req.prevIndex, req.entries);
      CommitLog(R.Follow(node, req).(log := log), req.leaderCommit);
      CommitReplays(R.Follow(node, req), log, req.leaderCommit, base, j);
    }
  }

  lemma CommitLog(n: R.Node, leaderCommit: nat)
    ensures R.CommitUpTo(n, leaderCommit).log == n.log
  {
  }

  /** Moving the commit index up and applying keeps memory a replay. */
  lemma AppliesOn(n: R.Node, to: nat, base: Contents, k: nat)
    requires Applies(n, base, k) && n.commitIndex <= to <= |n.log|
    ensures Applies(R.ApplyCommitted(n.(commitIndex := to)), base, k)
  {
    hide ReplayOn;
    if n.lastApplied <= to {
      assert n.log[k..n.lastApplied] == Past(n.log, k, n.commitIndex);
      ApplyReplays(n.(commitIndex := to), base, k);
    }
  }

  /** No committed entry is ever truncated, and the commit index only moves over entries that some leader
      committed. The first `k` entries are known to be committed anyway. */
  lemma AppendCommits(h: History, node: R.Node, req: R.AppendRequest, k: nat)
    requires Inv(h) && NodeFits(h, node) && SliceFits(h, req) && Addressed(h, node, req)
    requires Promptly(h, node.log, node.commitIndex, node.term) && Certified(h, node.log, k, node.term)
    requires SafeClaim(h.ledger[req.term], req) && Promptly(h, h.ledger[req.term], req.leaderCommit, req.term)
    ensures var n' := R.OnAppendRequest(node, req).0;
      && Agree(node.log, n'.log, Max(k, node.commitIndex)) && node.commitIndex <= n'.commitIndex
      && Promptly(h, n'.log, n'.commitIndex, n'.term) && Certified(h, n'.log, k, n'.term)
  {
    hide NodeFits, SliceFits, Certified, Promptly, Inv, Merge, Extends, ReplayOn, Sound, SafeClaim, Addressed, R.CommitUpTo,
      R.PrevMatches;
    var n' := R.OnAppendRequest(node, req).0;
    SameExtends(h);
    PromptlyCertified(h, node.log, node.commitIndex, node.term);
    CertifiedLength(h, node.log, k, node.term);
    if req.term >= node.term && R.PrevMatches(node.log, req) {
      MergeKeepsCommitted(h, node, req, node.commitIndex);
      MergeKeepsCommitted(h, node, req, k);
      AcceptCommits(h, node, req);
      var log := Merge(node.log, req.prevIndex, req.entries);
      CommitMoves(R.Follow(node, req), log, req.leaderCommit);
      CommitFrame(R.Follow(node, req).(log := log), req.leaderCommit);
      CertifiedStays(h, h, node.log, log, k, node.term, req.term);
    } else {
      PromptlyStays(h, h, node.log, n'.log, node.commitIndex, node.term, n'.term);
      CertifiedStays(h, h, node.log, n'.log, k, node.term, n'.term);
    }
  }

  lemma CommitFrame(n: R.Node, leaderCommit: nat)
    ensures R.CommitUpTo(n, leaderCommit).term == n.term
  {
  }

  lemma CertifiedLength(h: History, log: Log, k: nat, t: nat)
    requires Certified(h, log, k, t)
    ensures k <= |log|
  {
  }

  lemma AppendAskSafe(c: Cluster, m: Message)
    requires ClusterInv(c) && RefusalInv(c) && SafeInv(c) && Enabled(c, DeliverAppendAsk(m)) && Linked(c)
    ensures SafeInv(AfterAppendAsk(c, m))
  {
    hide ClusterInv, RefusalInv, SafeInv, OnlyBy, Certified, Promptly, Inv, NodeFits, SliceFits, R.OnAppendRequest, NewlyApplied,
      Applies, OwnCommits, Extends, SafeClaim, Addressed;
    var d, v, req := AfterAppendAsk(c, m), m.to, m.areq;
    var node, n' := c.nodes[v], d.nodes[v];
    AppendAskKeeps(c, m);
    AtCommitted(c, v);
    AtNode(c, v);
    AtAppendAsk(c, m);
    AtClaim(c, m);
    AtAddressed(c, m);
    NothingCertified(c.history, node.log, node.term);
    AppendCommits(c.history, node, req, 0);
    AppendReplays(node, req, map[], 0);
    AppendFrame(node, req);
    OnlyByExtends(c.history, d.history, v);
    if v !in c.restarted { OwnCommitsStay(c.history, d.history, node, n'); }
    Recertify(c.history, d.history, v, n'.log, n'.commitIndex, n'.term);
    PromptlyCertified(d.history, n'.log, n'.commitIndex, n'.term);
    NewlyAppliedFits(d.history, node, n', n'.commitIndex, n'.term);
    SafeStepByKeeps(c, d, v);
  }

  lemma Recertify(h: History, g: History, n: NodeId, log: Log, k: nat, t: nat)
    requires OnlyBy(h, g, n) && Promptly(h, log, k, t)
    ensures Promptly(g, log, k, t)
  {
    PromptlyStays(h, g, log, log, k, t, t);
  }

  lemma AtAddressed(c: Cluster, m: Message)
    requires ClusterInv(c) && RefusalInv(c) && m in c.net && m.AppendAsk? && m.to in c.nodes
    ensures m.areq.term in c.history.elections && Addressed(c.history, c.nodes[m.to], m.areq)
  {
    hide ClusterInv, RefusalInv, OwnTail, Heard;
    AtAppendAsk(c, m);
    AtSent(c, m);
    AtTail(c, m.areq.term);
  }

  lemma AtClaim(c: Cluster, m: Message)
    requires SafeInv(c) && m in c.net && m.AppendAsk?
    ensures m.areq.term in c.history.ledger && SafeClaim(c.history.ledger[m.areq.term], m.areq)
    ensures Promptly(c.history, c.history.ledger[m.areq.term], m.areq.leaderCommit, m.areq.term)
  {
    assert ClaimFits(c.history, m);
  }

  /** A request applies nothing past the commit index. */
  lemma AppendFrame(node: R.Node, req: R.AppendRequest)
    ensures var n' := R.OnAppendRequest(node, req).0;
      && n'.id == node.id
      && (n'.lastApplied > node.lastApplied ==> n'.lastApplied <= n'.commitIndex)
  {
    hide Merge, R.PrevMatches, R.ApplyCommitted;
  }

  // ----- The leader's commit rule

  /** A leader commits a prefix of its own log and applies exactly that. */
  lemma AnswerCommits(h: History, g: History, node: R.Node, n': R.Node)
    requires Inv(g) && Extends(h, g) && NodeFits(g, n') && Promptly(h, node.log, node.commitIndex, node.term)
    requires n'.log == node.log && node.term <= n'.term && node.commitIndex <= n'.commitIndex
    requires n'.commitIndex > node.commitIndex ==>
      n'.role == R.Leader && exists cm :: cm in g.commits && cm.term == n'.term && cm.index == n'.commitIndex
    ensures Promptly(g, n'.log, n'.commitIndex, n'.term)
  {
    if n'.commitIndex == node.commitIndex {
      PromptlyStays(h, g, node.log, n'.log, node.commitIndex, node.term, n'.term);
    } else {
      var cm :| cm in g.commits && cm.term == n'.term && cm.index == n'.commitIndex;
      assert CommitOk(g, cm);
      assert CertifiedBy(g, n'.log, n'.commitIndex, n'.term, cm);
    }
  }

  /** How handling a reply changes the node that sent the request. */
  lemma AnswerFrame(n: R.Node, peers: seq<NodeId>, peer: NodeId, req: R.AppendRequest, resp: R.AppendResponse,
      base: Contents, k: nat)
    ensures var n' := R.OnAppendResponse(n, peers, peer, req, resp);
      && n'.id == n.id && n'.log == n.log && n.term <= n'.term && n.commitIndex <= n'.commitIndex
      && (n'.role == R.Leader ==> n.role == R.Leader && n'.term == n.term)
      && (n'.commitIndex > n.commitIndex ==> n'.role == R.Leader)
      && (n'.lastApplied > n.lastApplied ==> n'.lastApplied <= n'.commitIndex)
      && (Applies(n, base, k) ==> Applies(n', base, k))
  {
    hide ReplayOn, R.KnownIndices, QuorumIndex.QuorumIndexOf;
    if n.role == R.Leader && n.term == req.term && resp.term <= n.term && resp.success {
      var last := req.prevIndex + |req.entries|;
      var n1 := if req.entries == [] then n
        else n.(matchIndex := n.matchIndex[peer := last], nextIndex := n.nextIndex[peer := last + 1]);
      AdvanceApplies(n1, peers, base, k);
    }
  }

  lemma AdvanceApplies(n: R.Node, peers: seq<NodeId>, base: Contents, k: nat)
    ensures var n' := R.AdvanceCommit(n, peers);
      && n' == n.(commitIndex := n'.commitIndex, lastApplied := n'.lastApplied, kv := n'.kv)
      && n.commitIndex <= n'.commitIndex
      && (n'.lastApplied > n.lastApplied ==> n'.lastApplied <= n'.commitIndex)
      && (Applies(n, base, k) ==> Applies(n', base, k))
  {
    hide R.KnownIndices, QuorumIndex.QuorumIndexOf, ReplayOn;
    var candidate := QuorumIndex.QuorumIndexOf(R.KnownIndices(n, peers));
    if Applies(n, base, k) && n.commitIndex < candidate <= |n.log| && n.log[candidate - 1].term == n.term {
      AppliesOn(n, candidate, base, k);
    }
  }

  lemma AppendAnswerSafe(c: Cluster, m: Message)
    requires ClusterInv(c) && SafeInv(c) && Enabled(c, DeliverAppendAnswer(m)) && Linked(c)
    ensures SafeInv(AfterAppendAnswer(c, m))
  {
    hide ClusterInv, SafeInv, OnlyBy, Certified, Promptly, Inv, NodeFits, R.OnAppendResponse, NewlyApplied, Applies, HeardTerm, Supporters,
      OwnCommits, Extends;
    var d, n := AfterAppendAnswer(c, m), m.areq.leader;
    var node, n' := c.nodes[n], d.nodes[n];
    AppendAnswerKeeps(c, m);
    AtCommitted(c, n);
    AtNode(c, n);
    AtNode(d, n);
    AnswerFrame(node, c.peers, m.from, m.areq, m.aresp, map[], 0);
    AnswerHistory(c, m);
    OnlyByExtends(c.history, d.history, n);
    AnswerCommits(c.history, d.history, node, n');
    PromptlyCertified(d.history, n'.log, n'.commitIndex, n'.term);
    NewlyAppliedFits(d.history, node, n', n'.commitIndex, n'.term);
    if n'.commitIndex > node.commitIndex { LeaderElected(d, n); }
    if n !in c.restarted { AnswerOwnCommits(c.history, d.history, node, n'); }
    SafeStepByKeeps(c, d, n);
  }

  lemma AnswerOwnCommits(h: History, g: History, node: R.Node, n': R.Node)
    requires Inv(h) && Extends(h, g) && OwnCommits(h, node) && n'.id == node.id && node.commitIndex <= n'.commitIndex
    requires forall cm | cm in g.commits && cm !in h.commits :: cm.index == n'.commitIndex
    ensures OwnCommits(g, n')
  {
    forall cm | cm in h.commits ensures cm.term in h.elections { CommitTermElected(h, cm); }
  }

  lemma OnlyByExtends(h: History, g: History, n: NodeId)
    requires OnlyBy(h, g, n)
    ensures Extends(h, g)
  {
  }

  lemma LeaderElected(c: Cluster, n: NodeId)
    requires ClusterInv(c) && n in c.nodes && c.nodes[n].role == R.Leader
    ensures c.nodes[n].term in c.history.elections && c.history.elections[c.nodes[n].term].leader == n
  {
    assert NodeAt(c, n);
  }

  /** A reply adds at most the one commit it leads to. */
  lemma AnswerHistory(c: Cluster, m: Message)
    requires Enabled(c, DeliverAppendAnswer(m)) && Linked(c)
    ensures var d, n := AfterAppendAnswer(c, m), m.areq.leader;
      var node, n' := c.nodes[n], d.nodes[n];
      if n'.commitIndex > node.commitIndex
      then d.history.commits == c.history.commits + {Commit(n'.term, n'.commitIndex, Supporters(n', c.peers, n'.commitIndex))}
      else d.history.commits == c.history.commits
  {
    hide R.OnAppendResponse, Supporters, NewlyApplied;
  }

  // ----- Every run whose claims are safe

  lemma StepSafe(c: Cluster, s: Step)
    requires ClusterInv(c) && RefusalInv(c) && SafeInv(c) && Enabled(c, s) && Linked(c) && Covered(c, s)
    ensures SafeInv(After(c, s))
  {
    hide ClusterInv, RefusalInv, SafeInv;
    match s
    case StartElection(n) => StartElectionSafe(c, n);
    case PollPeer(n, answer) => PollPeerSafe(c, n, answer);
    case FinishElection(n) => FinishElectionSafe(c, n);
    case DeliverVoteAsk(m) => VoteAskSafe(c, m);
    case DeliverAppendAsk(m) => AppendAskSafe(c, m);
    case Propose(n, op, key, value) => ProposeSafe(c, n, op, key, value);
    case SendAppend(n, peer) => SendAppendSafe(c, n, peer);
    case DeliverAppendAnswer(m) => AppendAnswerSafe(c, m);
    case BeginRound(n, r) => RoundsOnlySafe(c, AfterBeginRound(c, n, r));
    case SendProbe(r) => SendProbeSafe(c, r);
    case EndProbe(r, answer) => EndProbeSafe(c, r, answer);
    case FinishRound(r) => RoundsOnlySafe(c, AfterFinishRound(c, r));
    case Restart(n) => RestartSafe(c, n);
  }

  lemma RoundsOnlySafe(c: Cluster, d: Cluster)
    requires SafeInv(c) && d == c.(rounds := d.rounds)
    ensures SafeInv(d)
  {
    forall n | n in d.nodes ensures Committed(d, n) { assert Committed(c, n); }
  }

  /** Every probe the run sends makes a safe claim. */
  ghost predicate CoveredRun(peers: seq<NodeId>, steps: seq<Step>)
    decreases |steps|
  {
    steps == [] ||
    (var before := steps[..|steps| - 1];
     CoveredRun(peers, before) && (Run(peers, before).Some? ==> Covered(Run(peers, before).value, steps[|steps| - 1])))
  }

  lemma {:induction false} RunSafe(peers: seq<NodeId>, steps: seq<Step>)
    requires Distinct(peers) && 0 !in peers && Run(peers, steps).Some? && CoveredRun(peers, steps)
    ensures SafeInv(Run(peers, steps).value)
    decreases |steps|
  {
    hide ClusterInv, RefusalInv, SafeInv, Init, After, Enabled, Covered;
    if steps == [] {
      InitSafe(peers);
    } else {
      var before := steps[..|steps| - 1];
      RunInv(peers, before);
      RunRefusal(peers, before);
      RunSafe(peers, before);
      StepSafe(Run(peers, before).value, steps[|steps| - 1]);
    }
  }

  lemma InitSafe(peers: seq<NodeId>)
    ensures SafeInv(Init(peers))
  {
    var c := Init(peers);
    forall n | n in c.nodes ensures Committed(c, n) {}
  }
}
