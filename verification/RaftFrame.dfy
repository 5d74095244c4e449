/** What one step leaves as it was in one node. */
module RaftFrame {
  import opened Bytes
  import opened ClusterConfig
  import opened Logs
  import opened Options
  import opened RaftHistory
  import opened RaftCluster
  import R = RaftSteps

  ghost predicate SameMemory(a: R.Node, b: R.Node) {
    b.commitIndex == a.commitIndex && b.lastApplied == a.lastApplied && b.kv == a.kv && a.term <= b.term
  }

  ghost predicate OnlyAppends(a: R.Node, b: R.Node) {
    Agree(a.log, b.log, |a.log|) && SameMemory(a, b)
  }

  /** If the node leads afterwards, it led before, with the same next indices. */
  ghost predicate LeadsOn(a: R.Node, b: R.Node) {
    b.role == R.Leader ==> a.role == R.Leader && b.term == a.term && b.nextIndex == a.nextIndex
  }

  ghost predicate Stands(a: R.Node, b: R.Node) {
    b.log == a.log && SameMemory(a, b) && LeadsOn(a, b)
  }

  /** Every other step leaves the log as it is or appends a proposal to it, unless it is a restart it
      leaves commit index and memory alone, and unless it ends an election it makes no leader. */
  lemma OtherStepsStay(c: Cluster, s: Step, n: NodeId)
    requires Enabled(c, s) && Linked(c) && n in c.nodes && !s.DeliverAppendAsk? && !s.DeliverAppendAnswer?
    ensures n in After(c, s).nodes
    ensures Agree(c.nodes[n].log, After(c, s).nodes[n].log, |c.nodes[n].log|)
    ensures c.nodes[n].term <= After(c, s).nodes[n].term
    ensures (s.Propose? && s.n == n) || After(c, s).nodes[n].log == c.nodes[n].log
    ensures s == Restart(n) || SameMemory(c.nodes[n], After(c, s).nodes[n])
    ensures s == FinishElection(n) || LeadsOn(c.nodes[n], After(c, s).nodes[n])
  {
    hide AfterStartElection, AfterPollPeer, AfterFinishElection, AfterVoteAsk, AfterAppendAsk, AfterPropose, AfterSendAppend,
      AfterAppendAnswer, AfterSendProbe, AfterEndProbe, AfterRestart;
    match s
    case StartElection(v) => StartElectionStays(c, v, n);
    case PollPeer(v, answer) => PollStays(c, v, answer, n);
    case FinishElection(v) => FinishElectionStays(c, v, n);
    case DeliverVoteAsk(m) => VoteStays(c, m, n);
    case Propose(v, op, key, value) => ProposeStays(c, v, op, key, value, n);
    case EndProbe(r, answer) => EndProbeStays(c, r, answer, n);
    case Restart(v) => RestartStays(c, v, n);
    case _ => SendStays(c, s, n);
  }

  lemma StartElectionStays(c: Cluster, v: NodeId, n: NodeId)
    requires Enabled(c, StartElection(v)) && Linked(c) && n in c.nodes
    ensures n in AfterStartElection(c, v).nodes && Stands(c.nodes[n], AfterStartElection(c, v).nodes[n])
  {
  }

  lemma PollStays(c: Cluster, v: NodeId, answer: Option<Message>, n: NodeId)
    requires Enabled(c, PollPeer(v, answer)) && Linked(c) && n in c.nodes
    ensures n in AfterPollPeer(c, v, answer).nodes && Stands(c.nodes[n], AfterPollPeer(c, v, answer).nodes[n])
  {
    hide Without, RaiseTerm;
  }

  lemma FinishElectionStays(c: Cluster, v: NodeId, n: NodeId)
    requires Enabled(c, FinishElection(v)) && Linked(c) && n in c.nodes
    ensures n in AfterFinishElection(c, v).nodes && AfterFinishElection(c, v).nodes[n].log == c.nodes[n].log
    ensures SameMemory(c.nodes[n], AfterFinishElection(c, v).nodes[n])
    ensures v == n || LeadsOn(c.nodes[n], AfterFinishElection(c, v).nodes[n])
  {
    hide Without, Elect;
  }

  lemma VoteStays(c: Cluster, m: Message, n: NodeId)
    requires Enabled(c, DeliverVoteAsk(m)) && Linked(c) && n in c.nodes
    ensures n in AfterVoteAsk(c, m).nodes && Stands(c.nodes[n], AfterVoteAsk(c, m).nodes[n])
  {
    hide Cast, HeardTerm;
  }

  lemma ProposeStays(c: Cluster, v: NodeId, op: Op, key: Bytes, value: Bytes, n: NodeId)
    requires Enabled(c, Propose(v, op, key, value)) && Linked(c) && n in c.nodes
    ensures n in AfterPropose(c, v, op, key, value).nodes
    ensures OnlyAppends(c.nodes[n], AfterPropose(c, v, op, key, value).nodes[n])
    ensures LeadsOn(c.nodes[n], AfterPropose(c, v, op, key, value).nodes[n])
    ensures v == n || AfterPropose(c, v, op, key, value).nodes[n].log == c.nodes[n].log
  {
    hide Extend;
  }

  lemma EndProbeStays(c: Cluster, r: nat, answer: Option<Message>, n: NodeId)
    requires Enabled(c, EndProbe(r, answer)) && Linked(c) && n in c.nodes
    ensures n in AfterEndProbe(c, r, answer).nodes && Stands(c.nodes[n], AfterEndProbe(c, r, answer).nodes[n])
  {
    hide HeardTerm;
  }

  lemma RestartStays(c: Cluster, v: NodeId, n: NodeId)
    requires Enabled(c, Restart(v)) && n in c.nodes
    ensures n in AfterRestart(c, v).nodes && AfterRestart(c, v).nodes[n].log == c.nodes[n].log
    ensures AfterRestart(c, v).nodes[n].term == c.nodes[n].term && LeadsOn(c.nodes[n], AfterRestart(c, v).nodes[n])
    ensures v != n ==> AfterRestart(c, v).nodes[n] == c.nodes[n]
  {
    hide Without;
  }

  lemma SendStays(c: Cluster, s: Step, n: NodeId)
    requires Enabled(c, s) && Linked(c) && n in c.nodes
    requires s.SendAppend? || s.BeginRound? || s.SendProbe? || s.FinishRound?
    ensures n in After(c, s).nodes && Stands(c.nodes[n], After(c, s).nodes[n])
  {
    hide R.ReplicateRequest, R.ProbeRequest, AfterStartElection, AfterPollPeer, AfterFinishElection, AfterVoteAsk, AfterAppendAsk,
      AfterPropose, AfterAppendAnswer, AfterEndProbe, AfterRestart;
  }
}
