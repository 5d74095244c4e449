/** What is committed stays: in the log of every node that holds it, and in its memory. */
module RaftKept {
  import opened ClusterConfig
  import opened Logs
  import opened Store
  import opened RaftHistory
  import opened RaftHistoryProofs
  import opened RaftCluster
  import opened RaftInvariant
  import opened RaftFrame
  import opened RaftRefusal
  import opened RaftCommit
  import R = RaftSteps

  /** No step drops or changes one of the first `k` entries of a node once they are committed. Unless
      the node restarts, its commit index does not fall. */
  lemma StepKeepsCommitted(c: Cluster, s: Step, n: NodeId, k: nat)
    requires ClusterInv(c) && RefusalInv(c) && SafeInv(c) && Enabled(c, s) && Linked(c) && n in c.nodes
    requires Certified(c.history, c.nodes[n].log, k, c.nodes[n].term)
    ensures n in After(c, s).nodes
    ensures Agree(c.nodes[n].log, After(c, s).nodes[n].log, k)
    ensures Certified(After(c, s).history, After(c, s).nodes[n].log, k, After(c, s).nodes[n].term)
    ensures s == Restart(n) || c.nodes[n].commitIndex <= After(c, s).nodes[n].commitIndex
  {
    hide ClusterInv, RefusalInv, SafeInv, Certified, Applies, Extends, After;
    StepExtends(c, s);
    NodeKeeps(c, s, n, k, map[], 0);
    var a, b := c.nodes[n], After(c, s).nodes[n];
    CertifiedStays(c.history, After(c, s).history, a.log, b.log, k, a.term, b.term);
  }

  /** Unless the node restarts, memory stays what it started out as with all applied that was committed
      since. */
  lemma StepKeepsMemory(c: Cluster, s: Step, n: NodeId, base: Contents, j: nat)
    requires ClusterInv(c) && RefusalInv(c) && SafeInv(c) && Enabled(c, s) && Linked(c) && n in c.nodes
    requires s != Restart(n) && Applies(c.nodes[n], base, j)
    ensures n in After(c, s).nodes && Applies(After(c, s).nodes[n], base, j)
  {
    hide ClusterInv, RefusalInv, SafeInv, Certified, Applies, After;
    NothingCertified(c.history, c.nodes[n].log, c.nodes[n].term);
    NodeKeeps(c, s, n, 0, base, j);
  }

  lemma NodeKeeps(c: Cluster, s: Step, n: NodeId, k: nat, base: Contents, j: nat)
    requires ClusterInv(c) && RefusalInv(c) && SafeInv(c) && Enabled(c, s) && Linked(c) && n in c.nodes
    requires Certified(c.history, c.nodes[n].log, k, c.nodes[n].term)
    ensures n in After(c, s).nodes
    ensures Agree(c.nodes[n].log, After(c, s).nodes[n].log, k) && c.nodes[n].term <= After(c, s).nodes[n].term
    ensures s == Restart(n) || c.nodes[n].commitIndex <= After(c, s).nodes[n].commitIndex
    ensures s == Restart(n) || (Applies(c.nodes[n], base, j) ==> Applies(After(c, s).nodes[n], base, j))
  {
    hide ClusterInv, RefusalInv, SafeInv, Certified, Applies, OwnCommits, R.OnAppendRequest, R.OnAppendResponse, After;
    CertifiedLength(c.history, c.nodes[n].log, k, c.nodes[n].term);
    if s.DeliverAppendAsk? {
      if s.m.to == n {
        AskedNode(c, s.m);
        AppendAskKeeps(c, s.m, k, base, j);
      } else {
        NotAsked(c, s.m, n);
      }
    } else if s.DeliverAppendAnswer? {
      AnsweredNode(c, s.m, n);
      AnswerFrame(c.nodes[n], c.peers, s.m.from, s.m.areq, s.m.aresp, base, j);
    } else {
      OtherStepsStay(c, s, n);
      if s != Restart(n) { MemoryStays(c.nodes[n], After(c, s).nodes[n], base, j); }
    }
  }

  lemma MemoryStays(a: R.Node, b: R.Node, base: Contents, j: nat)
    requires OnlyAppends(a, b)
    ensures Applies(a, base, j) ==> Applies(b, base, j)
  {
    hide ReplayOn;
    assert a.commitIndex <= |a.log| ==> Past(a.log, j, a.commitIndex) == Past(b.log, j, b.commitIndex);
  }

  lemma AppendAskKeeps(c: Cluster, m: Message, k: nat, base: Contents, j: nat)
    requires ClusterInv(c) && RefusalInv(c) && SafeInv(c) && Enabled(c, DeliverAppendAsk(m))
    requires Certified(c.history, c.nodes[m.to].log, k, c.nodes[m.to].term)
    ensures var a := c.nodes[m.to];
      var b := R.OnAppendRequest(a, m.areq).0;
      && Agree(a.log, b.log, k) && a.commitIndex <= b.commitIndex && a.term <= b.term
      && (Applies(a, base, j) ==> Applies(b, base, j))
  {
    hide ClusterInv, RefusalInv, SafeInv, Inv, Certified, Promptly, Addressed, NodeFits, SliceFits, R.OnAppendRequest, Applies,
      OwnCommits, SafeClaim;
    AtCommitted(c, m.to);
    AtNode(c, m.to);
    AtAppendAsk(c, m);
    AtClaim(c, m);
    AtAddressed(c, m);
    AppendCommits(c.history, c.nodes[m.to], m.areq, k);
    AppendReplays(c.nodes[m.to], m.areq, base, j);
    AskedTerm(c.nodes[m.to], m.areq);
  }
}
