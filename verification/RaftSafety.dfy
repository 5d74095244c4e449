/** The safety properties of the cluster, stated over every run. */
module RaftSafety {
  import opened Bytes
  import opened ClusterConfig
  import opened Logs
  import opened Store
  import opened RaftHistory
  import opened RaftHistoryProofs
  import opened RaftCluster
  import opened RaftInvariant
  import opened RaftCommit
  import opened RaftKept
  import opened RaftRefusal
  import opened RaftRead
  import R = RaftSteps

  /** A run over a peer list that configuration validation accepts. */
  ghost predicate IsRun(peers: seq<NodeId>, steps: seq<Step>) {
    Distinct(peers) && 0 !in peers && Run(peers, steps).Some?
  }

  // ----- Elections

  /** Election safety: at most one node ever wins a term. */
  lemma ElectionSafety(peers: seq<NodeId>, steps: seq<Step>, v: Slot, w: Slot)
    requires IsRun(peers, steps)
    requires v in Run(peers, steps).value.won && w in Run(peers, steps).value.won && v.term == w.term
    ensures v.node == w.node
  {
    RunInv(peers, steps);
    var c := Run(peers, steps).value;
    assert WinFits(c.history, v) && WinFits(c.history, w);
  }

  /** Two nodes never lead the same term at the same time. */
  lemma OneLeaderPerTerm(peers: seq<NodeId>, steps: seq<Step>, m: NodeId, n: NodeId)
    requires IsRun(peers, steps)
    requires var c := Run(peers, steps).value;
      && m in c.nodes && n in c.nodes && c.nodes[m].term == c.nodes[n].term
      && c.nodes[m].role == R.Leader && c.nodes[n].role == R.Leader
    ensures m == n
  {
    RunInv(peers, steps);
    var c := Run(peers, steps).value;
    LeaderElected(c, m);
    LeaderElected(c, n);
  }

  // ----- Logs

  /** Log matching: the same term at the same index means identical logs up to that index. */
  lemma LogMatching(peers: seq<NodeId>, steps: seq<Step>, m: NodeId, n: NodeId, i: nat)
    requires IsRun(peers, steps)
    requires var c := Run(peers, steps).value;
      && m in c.nodes && n in c.nodes && i < |c.nodes[m].log| && i < |c.nodes[n].log|
      && c.nodes[m].log[i].term == c.nodes[n].log[i].term
    ensures var c := Run(peers, steps).value;
      c.nodes[m].log[..i + 1] == c.nodes[n].log[..i + 1]
  {
    RunInv(peers, steps);
    var c := Run(peers, steps).value;
    assert NodeAt(c, m) && NodeAt(c, n) && NodeOk(c.history, m) && NodeOk(c.history, n);
    hide ClusterInv, Inv, Run;
    SoundLogsMatch(c.history.ledger, c.nodes[m].log, c.nodes[n].log, i);
  }

  /** Leader completeness: every node that leads, or ever led, a term after that of a commit
      started out with everything committed then, and a present leader still has it. */
  lemma LeaderCompleteness(peers: seq<NodeId>, steps: seq<Step>, cm: Commit, w: Slot)
    requires IsRun(peers, steps)
    requires cm in Run(peers, steps).value.history.commits && w in Run(peers, steps).value.won && cm.term < w.term
    ensures var h := Run(peers, steps).value.history;
      && w.term in h.elections && cm.term in h.ledger
      && Agree(h.elections[w.term].log, h.ledger[cm.term], cm.index)
    ensures var c := Run(peers, steps).value;
      w.node in c.nodes && c.nodes[w.node].role == R.Leader && c.nodes[w.node].term == w.term ==>
        Agree(c.nodes[w.node].log, c.history.ledger[cm.term], cm.index)
  {
    RunInv(peers, steps);
    var c := Run(peers, steps).value;
    assert WinFits(c.history, w);
    hide Run;
    LeadersCarryCommits(c.history, cm, w.term);
    if w.node in c.nodes && c.nodes[w.node].role == R.Leader && c.nodes[w.node].term == w.term {
      assert NodeAt(c, w.node) && ElectionOk(c.history, w.term);
    }
  }

  /** Match indices are truthful: while leader and peer are in the same term, the peer's log
      holds the leader's entries up to the recorded match index. */
  lemma MatchIndexTruthful(peers: seq<NodeId>, steps: seq<Step>, n: NodeId, p: NodeId)
    requires IsRun(peers, steps)
    requires var c := Run(peers, steps).value;
      && n in c.nodes && p in c.nodes && c.nodes[n].role == R.Leader && c.nodes[p].term == c.nodes[n].term
      && p in c.nodes[n].matchIndex
    ensures var c := Run(peers, steps).value;
      Agree(c.nodes[p].log, c.nodes[n].log, c.nodes[n].matchIndex[p])
  {
    RunInv(peers, steps);
    var c := Run(peers, steps).value;
    hide Run, ClusterInv, Inv, NodeFits;
    AtNode(c, n);
    AtNode(c, p);
    MatchHeld(c.history, c.nodes[n], c.nodes[p]);
  }

  lemma MatchHeld(h: History, leader: R.Node, peer: R.Node)
    requires Inv(h) && NodeFits(h, leader) && NodeFits(h, peer) && leader.role == R.Leader
    requires peer.term == leader.term && peer.id in leader.matchIndex
    ensures Agree(peer.log, leader.log, leader.matchIndex[peer.id])
  {
    var t, i := leader.term, leader.matchIndex[peer.id];
    assert NodeOk(h, peer.id) && MatchTrue(h, peer.id, t, i);
    hide Inv, Sound, LedgerOk;
    if i > 0 {
      assert Keeps(h, peer.log, t + 1, t, i);
      assert AllCarry(h, t, t + 1, i);
    }
  }

  /** A leader can always address every peer, so no send is ever blocked. */
  lemma LeadersCanSend(peers: seq<NodeId>, steps: seq<Step>, n: NodeId, peer: NodeId)
    requires IsRun(peers, steps)
    requires var c := Run(peers, steps).value;
      n in c.nodes && c.nodes[n].role == R.Leader && peer in c.peers && peer != n
    ensures CanAddress(Run(peers, steps).value.nodes[n], peer)
  {
    RunInv(peers, steps);
    var c := Run(peers, steps).value;
    assert NodeAt(c, n);
    assert peer in Ids(c.peers);
  }

  // ----- Commit and apply

  /** State machine safety: no two nodes ever apply different entries at one index. */
  lemma StateMachineSafety(peers: seq<NodeId>, steps: seq<Step>, a: Applied, b: Applied)
    requires IsRun(peers, steps) && CoveredRun(peers, steps)
    requires a in Run(peers, steps).value.applied && b in Run(peers, steps).value.applied && a.index == b.index
    ensures a.entry == b.entry
  {
    hide Run, CoveredRun, SafeInv, ClusterInv, Inv;
    RunInv(peers, steps);
    RunSafe(peers, steps);
    var c := Run(peers, steps).value;
    AtApplied(c, a);
    AtApplied(c, b);
    HistoryInv(c);
    var x :| AppliedBy(c.history, a, x);
    var y :| AppliedBy(c.history, b, y);
    if x.term <= y.term { CommitsAgree(c.history, x, y); } else { CommitsAgree(c.history, y, x); }
  }

  lemma AtApplied(c: Cluster, a: Applied)
    requires SafeInv(c) && a in c.applied
    ensures AppliedFits(c.history, a)
  {
  }

  /** The committed prefixes of any two nodes agree. */
  lemma CommittedPrefixesAgree(peers: seq<NodeId>, steps: seq<Step>, m: NodeId, n: NodeId)
    requires IsRun(peers, steps) && CoveredRun(peers, steps)
    requires var c := Run(peers, steps).value;
      m in c.nodes && n in c.nodes && c.nodes[m].commitIndex <= c.nodes[n].commitIndex
    ensures var c := Run(peers, steps).value;
      Agree(c.nodes[m].log, c.nodes[n].log, c.nodes[m].commitIndex)
  {
    hide Run, CoveredRun, SafeInv, ClusterInv, Inv, Applies, OwnCommits;
    RunInv(peers, steps);
    RunSafe(peers, steps);
    var c := Run(peers, steps).value;
    AtCommitted(c, m);
    AtCommitted(c, n);
    var a, b, h := c.nodes[m], c.nodes[n], c.history;
    HistoryInv(c);
    if a.commitIndex > 0 {
      var x :| CertifiedBy(h, a.log, a.commitIndex, a.term, x);
      var y :| CertifiedBy(h, b.log, b.commitIndex, b.term, y);
      if x.term <= y.term { CommitsAgree(h, x, y); } else { CommitsAgree(h, y, x); }
    }
  }

  /** A leader holds everything that any node of its term or an earlier one counts as committed. */
  lemma LeaderHoldsCommitted(peers: seq<NodeId>, steps: seq<Step>, n: NodeId, l: NodeId)
    requires IsRun(peers, steps) && CoveredRun(peers, steps)
    requires var c := Run(peers, steps).value;
      n in c.nodes && l in c.nodes && c.nodes[l].role == R.Leader && c.nodes[n].term <= c.nodes[l].term
    ensures var c := Run(peers, steps).value;
      Agree(c.nodes[n].log, c.nodes[l].log, c.nodes[n].commitIndex)
  {
    hide Run, CoveredRun, SafeInv, ClusterInv, Inv, Applies, OwnCommits, Certified;
    RunInv(peers, steps);
    RunSafe(peers, steps);
    var c := Run(peers, steps).value;
    AtCommitted(c, n);
    AtNode(c, l);
    CommittedReachesLeader(c.history, c.nodes[n].log, c.nodes[n].commitIndex, c.nodes[n].term, c.nodes[l].term);
  }

  /** On a node that has not restarted, memory is exactly the replay of the committed prefix. */
  lemma MemoryIsReplay(peers: seq<NodeId>, steps: seq<Step>, n: NodeId)
    requires IsRun(peers, steps) && CoveredRun(peers, steps)
    requires var c := Run(peers, steps).value; n in c.nodes && n !in c.restarted
    ensures var node := Run(peers, steps).value.nodes[n];
      && node.lastApplied == node.commitIndex <= |node.log|
      && node.kv == Replay(node.log[..node.commitIndex])
  {
    hide Run, CoveredRun, SafeInv, Applies, Promptly, Certified, OwnCommits;
    RunSafe(peers, steps);
    AtCommitted(Run(peers, steps).value, n);
    ReplaysAll(Run(peers, steps).value.nodes[n]);
  }

  /** What a node counts as committed at some moment stays in its log for ever, through restarts as
      well; and only a restart lowers its commit index. */
  lemma {:induction false} CommittedEntriesStay(peers: seq<NodeId>, steps: seq<Step>, more: seq<Step>, n: NodeId)
    requires IsRun(peers, steps) && IsRun(peers, steps + more) && CoveredRun(peers, steps + more)
    requires n in Run(peers, steps).value.nodes
    ensures CoveredRun(peers, steps)
    ensures n in Run(peers, steps + more).value.nodes
    ensures var a, b := Run(peers, steps).value.nodes[n], Run(peers, steps + more).value.nodes[n];
      && Agree(a.log, b.log, a.commitIndex)
      && (Restart(n) !in more ==> a.commitIndex <= b.commitIndex)
  {
    hide ClusterInv, SafeInv, After, Enabled, Init, Covered, Certified, Applies, OwnCommits;
    StillRuns(peers, steps, more);
    RunSafe(peers, steps);
    AtCommitted(Run(peers, steps).value, n);
    CertifiedEntriesStay(peers, steps, more, n, Run(peers, steps).value.nodes[n].commitIndex);
  }

  lemma {:induction false} StillRuns(peers: seq<NodeId>, steps: seq<Step>, more: seq<Step>)
    requires IsRun(peers, steps + more)
    ensures IsRun(peers, steps)
    ensures CoveredRun(peers, steps + more) ==> CoveredRun(peers, steps)
    decreases |more|
  {
    hide After, Enabled, Init, Covered, Linked;
    if more == [] {
      assert steps + more == steps;
    } else {
      assert (steps + more)[..|steps + more| - 1] == steps + more[..|more| - 1];
      StillRuns(peers, steps, more[..|more| - 1]);
    }
  }

  lemma {:induction false} CertifiedEntriesStay(peers: seq<NodeId>, steps: seq<Step>, more: seq<Step>, n: NodeId, k: nat)
    requires IsRun(peers, steps) && IsRun(peers, steps + more) && CoveredRun(peers, steps + more)
    requires var c := Run(peers, steps).value;
      n in c.nodes && Certified(c.history, c.nodes[n].log, k, c.nodes[n].term)
    ensures n in Run(peers, steps + more).value.nodes
    ensures var a, b := Run(peers, steps).value, Run(peers, steps + more).value;
      && Agree(a.nodes[n].log, b.nodes[n].log, k)
      && Certified(b.history, b.nodes[n].log, k, b.nodes[n].term)
      && (Restart(n) !in more ==> a.nodes[n].commitIndex <= b.nodes[n].commitIndex)
    decreases |more|
  {
    hide ClusterInv, RefusalInv, SafeInv, After, Enabled, Init, Covered, Certified, Applies, Linked;
    var c := Run(peers, steps).value;
    if more == [] {
      assert steps + more == steps;
      CertifiedLength(c.history, c.nodes[n].log, k, c.nodes[n].term);
    } else {
      var most, s := more[..|more| - 1], more[|more| - 1];
      assert (steps + more)[..|steps + more| - 1] == steps + most && (steps + more)[|steps + more| - 1] == s;
      CertifiedEntriesStay(peers, steps, most, n, k);
      RunInv(peers, steps + most);
      RunRefusal(peers, steps + most);
      RunSafe(peers, steps + most);
      StepKeepsCommitted(Run(peers, steps + most).value, s, n, k);
    }
  }

  /** Until the node restarts, memory is what it was at some moment with all applied that was committed
      since. */
  lemma {:induction false} MemoryGoesOn(peers: seq<NodeId>, steps: seq<Step>, more: seq<Step>, n: NodeId, base: Contents, k: nat)
    requires IsRun(peers, steps) && IsRun(peers, steps + more) && CoveredRun(peers, steps + more) && Restart(n) !in more
    requires n in Run(peers, steps).value.nodes && Applies(Run(peers, steps).value.nodes[n], base, k)
    ensures n in Run(peers, steps + more).value.nodes && Applies(Run(peers, steps + more).value.nodes[n], base, k)
    decreases |more|
  {
    hide ClusterInv, RefusalInv, SafeInv, After, Enabled, Init, Covered, Applies, Linked;
    if more == [] {
      assert steps + more == steps;
    } else {
      var most, s := more[..|more| - 1], more[|more| - 1];
      assert (steps + more)[..|steps + more| - 1] == steps + most && (steps + more)[|steps + more| - 1] == s;
      MemoryGoesOn(peers, steps, most, n, base, k);
      RunInv(peers, steps + most);
      RunRefusal(peers, steps + most);
      RunSafe(peers, steps + most);
      StepKeepsMemory(Run(peers, steps + most).value, s, n, base, k);
    }
  }

  // ----- Reads

  /** A confirmed round: no leader of a higher term had been elected when it began. */
  lemma ReadConfirmation(peers: seq<NodeId>, steps: seq<Step>, r: nat, t: nat)
    requires IsRun(peers, steps)
    requires var c := Run(peers, steps).value;
      r in c.rounds && c.rounds[r].status == Confirmed && t in c.rounds[r].electedThen
    ensures t <= Run(peers, steps).value.rounds[r].term
  {
    RunInv(peers, steps);
    RunRead(peers, steps);
    ConfirmedRound(Run(peers, steps).value, r, t);
  }

  /** If the round's leader has moreover committed all that it inherited when it was elected, and has
      not restarted, its memory reflects everything committed before the round. */
  lemma ConfirmedReadIsFresh(peers: seq<NodeId>, steps: seq<Step>, r: nat, cm: Commit)
    requires IsRun(peers, steps) && CoveredRun(peers, steps)
    requires var c := Run(peers, steps).value;
      && r in c.rounds && c.rounds[r].status == Confirmed && c.rounds[r].owner !in c.restarted
      && CaughtUp(c, r) && cm in c.rounds[r].committedThen
    ensures var c := Run(peers, steps).value; c.rounds[r].owner in c.nodes && cm.term in c.history.ledger
    ensures var c := Run(peers, steps).value;
      var node := c.nodes[c.rounds[r].owner];
      && cm.index <= node.commitIndex <= |node.log|
      && Agree(node.log, c.history.ledger[cm.term], cm.index)
      && node.kv == Replay(node.log[..node.commitIndex])
  {
    RunInv(peers, steps);
    RunRead(peers, steps);
    RunSafe(peers, steps);
    var c := Run(peers, steps).value;
    hide Run;
    FreshRead(c, r, cm);
  }

  /** The round's leader has committed the whole log it was elected with. */
  ghost predicate CaughtUp(c: Cluster, r: nat) {
    && r in c.rounds && c.rounds[r].owner in c.nodes && c.rounds[r].term in c.history.elections
    && |c.history.elections[c.rounds[r].term].log| <= c.nodes[c.rounds[r].owner].commitIndex
  }

  /** One commit in its own term is enough for that. */
  lemma OwnCommitCatchesUp(peers: seq<NodeId>, steps: seq<Step>, r: nat, own: Commit)
    requires IsRun(peers, steps) && CoveredRun(peers, steps)
    requires var c := Run(peers, steps).value;
      && r in c.rounds && c.rounds[r].owner !in c.restarted
      && own in c.history.commits && own.term == c.rounds[r].term
    ensures CaughtUp(Run(peers, steps).value, r)
  {
    hide Run, CoveredRun, ClusterInv, SafeInv, ReadInv, Certified, Applies;
    RunInv(peers, steps);
    RunRead(peers, steps);
    RunSafe(peers, steps);
    var c := Run(peers, steps).value;
    var h, n := c.history, c.rounds[r].owner;
    AtRound(c, r);
    OwnerInNodes(c, r);
    AtNode(c, n);
    AtCommitted(c, n);
    CommitsPastElection(h, own);
  }

  /** A commit in a leader's own term reaches past the log it was elected with. */
  lemma CommitsPastElection(h: History, cm: Commit)
    requires Inv(h) && cm in h.commits
    ensures cm.term in h.elections && |h.elections[cm.term].log| < cm.index
  {
    CommitTermElected(h, cm);
    assert ElectionOk(h, cm.term) && BidOk(h, Slot(cm.term, h.elections[cm.term].leader));
  }

  lemma FreshRead(c: Cluster, r: nat, cm: Commit)
    requires ClusterInv(c) && SafeInv(c) && ReadInv(c)
    requires r in c.rounds && c.rounds[r].status == Confirmed && c.rounds[r].owner !in c.restarted
    requires CaughtUp(c, r) && cm in c.rounds[r].committedThen
    ensures c.rounds[r].owner in c.nodes && cm.term in c.history.ledger
    ensures var node := c.nodes[c.rounds[r].owner];
      && cm.index <= node.commitIndex <= |node.log|
      && Agree(node.log, c.history.ledger[cm.term], cm.index)
      && node.kv == Replay(node.log[..node.commitIndex])
  {
    hide ClusterInv, SafeInv, ReadInv, Inv, Certified, Promptly, Applies, VotersThen, NodeFits;
    var h, n := c.history, c.rounds[r].owner;
    AtRound(c, r);
    ConfirmedRound(c, r, cm.term);
    AtNode(c, n);
    AtCommitted(c, n);
    var node := c.nodes[n];
    CommitTermElected(h, cm);
    if cm.term < c.rounds[r].term { LeadersCarryCommits(h, cm, c.rounds[r].term); }
    assert cm.index <= node.commitIndex;
    ReplaysAll(node);
    CertifiedHolds(h, node.log, node.commitIndex, node.term, cm);
  }

  lemma OwnerInNodes(c: Cluster, r: nat)
    requires ClusterInv(c) && ReadInv(c) && r in c.rounds
    ensures c.rounds[r].owner in c.nodes
  {
    assert RoundAt(c, r);
  }

  /** A certified prefix contains every commit that is no longer than it. */
  lemma CertifiedHolds(h: History, log: Log, k: nat, t: nat, cm: Commit)
    requires Inv(h) && Certified(h, log, k, t) && cm in h.commits && 0 < cm.index <= k
    ensures cm.term in h.ledger && Agree(log, h.ledger[cm.term], cm.index)
  {
    hide Inv;
    var x :| CertifiedBy(h, log, k, t, x);
    if x.term <= cm.term { CommitsAgree(h, x, cm); } else { CommitsAgree(h, cm, x); }
  }

  // ----- Proposals

  /** A proposed entry is what its leader wrote at that index in that term. */
  ghost predicate ProposalFits(h: History, p: Proposal) {
    && p.entry.term in h.elections && h.elections[p.entry.term].leader == p.node
    && p.entry.term in h.ledger && 0 < p.index <= |h.ledger[p.entry.term]|
    && h.ledger[p.entry.term][p.index - 1] == p.entry
  }

  lemma ProposalFitsStays(h: History, g: History, p: Proposal)
    requires Extends(h, g) && ProposalFits(h, p)
    ensures ProposalFits(g, p)
  {
    assert Agree(h.ledger[p.entry.term], g.ledger[p.entry.term], |h.ledger[p.entry.term]|);
  }

  ghost predicate ProposalsFit(c: Cluster) {
    forall p {:trigger ProposalFits(c.history, p)} | p in c.proposals :: ProposalFits(c.history, p)
  }

  lemma StepProposals(c: Cluster, s: Step)
    requires ClusterInv(c) && ProposalsFit(c) && Enabled(c, s) && Linked(c)
    ensures ProposalsFit(After(c, s))
  {
    hide Extends, Inv, ClusterInv, ProposalFits, R.OnAppendRequest, R.OnAppendResponse, R.OnVoteRequest, R.OnProbeResponse;
    var d := After(c, s);
    StepExtends(c, s);
    forall p | p in d.proposals ensures ProposalFits(d.history, p) {
      if p in c.proposals {
        assert ProposalFits(c.history, p);
        ProposalFitsStays(c.history, d.history, p);
      } else {
        NewProposalFits(c, s.n, s.op, s.key, s.value);
      }
    }
  }

  lemma NewProposalFits(c: Cluster, n: NodeId, op: Op, key: Bytes, value: Bytes)
    requires ClusterInv(c) && Enabled(c, Propose(n, op, key, value)) && Linked(c)
    ensures var e := Entry(c.nodes[n].term, op, key, value);
      ProposalFits(AfterPropose(c, n, op, key, value).history, Proposal(n, |c.nodes[n].log| + 1, e))
  {
    assert NodeAt(c, n);
    hide Inv;
  }

  lemma {:induction false} RunProposals(peers: seq<NodeId>, steps: seq<Step>)
    requires IsRun(peers, steps)
    ensures ProposalsFit(Run(peers, steps).value)
    decreases |steps|
  {
    hide ClusterInv, ProposalsFit, After, Enabled, Init;
    if steps == [] {
      InitProposals(peers);
    } else {
      var before := steps[..|steps| - 1];
      RunInv(peers, before);
      RunProposals(peers, before);
      StepProposals(Run(peers, before).value, steps[|steps| - 1]);
    }
  }

  lemma InitProposals(peers: seq<NodeId>)
    ensures ProposalsFit(Init(peers))
  {
  }

  /** When the proposing node has applied the proposal's index, what it applied there is the
      proposal if and only if its log still shows the proposal's term at that index. */
  lemma AcknowledgedProposal(peers: seq<NodeId>, steps: seq<Step>, p: Proposal)
    requires IsRun(peers, steps) && CoveredRun(peers, steps)
    requires var c := Run(peers, steps).value;
      p in c.proposals && p.node in c.nodes && p.node !in c.restarted && p.index <= c.nodes[p.node].lastApplied
    ensures var node := Run(peers, steps).value.nodes[p.node];
      && 0 < p.index <= node.commitIndex <= |node.log|
      && node.kv == Replay(node.log[..node.commitIndex])
      && (node.log[p.index - 1] == p.entry <==> node.log[p.index - 1].term == p.entry.term)
      && (node.role == R.Leader && node.term == p.entry.term ==> node.log[p.index - 1] == p.entry)
  {
    hide Run, CoveredRun, ClusterInv, SafeInv, ProposalsFit, NodeFits, Inv, Certified, Promptly, Applies, OwnCommits, ProposalFits;
    RunInv(peers, steps);
    RunSafe(peers, steps);
    RunProposals(peers, steps);
    var c := Run(peers, steps).value;
    AtProposal(c, p);
    AtCommitted(c, p.node);
    AtNode(c, p.node);
    ReplaysAll(c.nodes[p.node]);
    ProposalKept(c.history, c.nodes[p.node], p);
  }

  lemma AtProposal(c: Cluster, p: Proposal)
    requires ProposalsFit(c) && p in c.proposals
    ensures ProposalFits(c.history, p) && 0 < p.index
  {
    assert ProposalFits(c.history, p);
  }

  /** The term at the index tells whether the log still holds the proposal. */
  lemma ProposalKept(h: History, node: R.Node, p: Proposal)
    requires Inv(h) && NodeFits(h, node) && ProposalFits(h, p) && 0 < p.index <= |node.log|
    ensures node.log[p.index - 1] == p.entry <==> node.log[p.index - 1].term == p.entry.term
    ensures node.role == R.Leader && node.term == p.entry.term ==> node.log[p.index - 1] == p.entry
  {
    assert NodeOk(h, node.id);
    hide Inv;
    if node.log[p.index - 1].term == p.entry.term {
      assert Backed(h.ledger, node.log, p.index - 1);
    }
  }
}
