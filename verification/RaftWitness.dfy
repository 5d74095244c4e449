/** Runs of three nodes that show two further claims the code does not keep: an acknowledgement by index
    alone, and a recovery that replays what was never committed. */
module RaftWitness {
  import opened ClusterConfig
  import opened Logs
  import opened Options
  import opened Store
  import opened RaftHistory
  import opened RaftCluster
  import opened RaftInvariant
  import opened RaftCommit
  import opened RaftSafety
  import opened RaftBuild
  import R = RaftSteps

  /** From nothing, node 2 writes `log` with the votes of node 3 and replicates none of it. */
  lemma SecondWrites(log: Log) returns (steps: seq<Step>, c: Cluster)
    requires log != [] && TermsRise(log, LastTerm(log))
    ensures Live(steps, c) && c.nodes.Keys == {1, 2, 3} && c.campaigns == map[] && c.restarted == {} && Clock(c, LastTerm(log))
    ensures c.nodes[2].log == log && c.nodes[1].log == c.nodes[3].log == []
    ensures forall n | n in c.nodes :: c.nodes[n].commitIndex == c.nodes[n].lastApplied == 0
    ensures c.nodes[2].role == R.Leader && c.nodes[2].term == LastTerm(log)
  {
    hide Live, Clock, Writes, TermsRise, MayWrite, Init;
    var d;
    steps, d := Begin();
    LiveMeans(steps, d);
    MayBegin(d, log);
    steps, c := WritesAll(steps, d, 2, 3, 1, log);
    WritesMeans(c.nodes[2], 1);
  }

  lemma MayBegin(c: Cluster, log: Log)
    requires c.nodes.Keys == {1, 2, 3} && (forall n | n in c.nodes :: c.nodes[n] == R.Fresh(n))
    requires log != [] && TermsRise(log, LastTerm(log))
    ensures MayWrite(c, 2, 1, log[0].term)
  {
    hide Writes;
  }

  // ----- Acknowledging by index

  /** Comparing indices alone acknowledges a lost write: for any two commands there is a run in which node 2
      proposed the one as entry 1 and has applied entry 1, but what it holds and applied there is the other. */
  lemma LostProposalAcknowledged(x: Entry, y: Entry) returns (steps: seq<Step>, c: Cluster)
    requires x.term == 1 && y.term == 2
    ensures IsRun(PEERS, steps) && CoveredRun(PEERS, steps) && Run(PEERS, steps) == Some(c) && c.restarted == {}
    ensures Proposal(2, 1, x) in c.proposals && 2 in c.nodes && c.nodes[2].lastApplied == 1 && c.nodes[2].log == [y]
  {
    hide Live, Clock, R.ReplicateRequest;
    var d, d1;
    steps, d := Overtaken(x, y);
    LeaderIs(steps, d, 1, 2);
    RequestsAll(d.nodes[1], 2);
    Overwritten(d.nodes[2], x, y, FullRequest(d.nodes[1]));
    steps, d1 := DoSend(steps, d, 1, 2);
    hide R.OnAppendRequest;
    steps, c := DoDeliver(steps, d1, AppendAsk(2, Replicate, FullRequest(d.nodes[1])));
    LiveRuns(steps, c);
  }

  lemma Overwritten(n: R.Node, x: Entry, y: Entry, req: R.AppendRequest)
    requires x.term == 1 && y.term == 2 && n.log == [x] && n.term < 2 && n.commitIndex == n.lastApplied == 0
    requires req.term == 2 && req.prevIndex == 0 && req.leaderCommit == 1 && req.entries == [y]
    ensures var n' := R.OnAppendRequest(n, req).0; n'.log == [y] && n'.lastApplied == 1
  {
    assert Merge([x], 0, [y]) == Merge([x][..0] + [y], 1, [y][1..]) == [y];
    var n2 := R.Follow(n, req).(log := [y], commitIndex := 1);
    AppliesAll(n2);
  }

  /** Node 2 has proposed `x`; node 1 has committed `y` in its place. */
  lemma Overtaken(x: Entry, y: Entry) returns (steps: seq<Step>, c: Cluster)
    requires x.term == 1 && y.term == 2
    ensures Live(steps, c) && c.nodes.Keys == {1, 2, 3} && c.restarted == {} && Proposal(2, 1, x) in c.proposals
    ensures var n := c.nodes[1];
      n.id == 1 && n.role == R.Leader && n.term == 2 && n.log == [y] && n.commitIndex == 1 && 2 in n.nextIndex && n.nextIndex[2] == 1
    ensures var n := c.nodes[2]; n.log == [x] && n.term < 2 && n.commitIndex == n.lastApplied == 0
  {
    hide Live, Clock, Writes, TermsRise, MayWrite, Init;
    var d, d0, d1, d2, d3, cm;
    steps, d := Begin();
    LiveMeans(steps, d);
    ShortLogs(d, x, y);
    steps, d0 := Takes(steps, d, 2, 3, 1, 1);
    WritesMeans(d0.nodes[2], 1);
    steps, d1 := DoPropose(steps, d0, 2, x);
    ClockAt(d0, 2, 1);
    ClockSame(d0, d1, 2, 1);
    NewTerm(d1);
    steps, d2 := WritesAll(steps, d1, 1, 3, 2, [y]);
    steps, d3 := ShipsAll(steps, d2, 1, 3, 2);
    ClockAt(d3, 1, 2);
    WritesMeans(d3.nodes[1], 2);
    steps, c, cm := Commits(steps, d3, 1, 3, 2,
      AppendAnswer(3, Replicate, FullRequest(d2.nodes[1]), R.AppendResponse(d2.nodes[1].term, true)));
    ClockAt(d1, 2, 1);
    FromStart(d3.nodes[1], y);
  }

  lemma ShortLogs(c: Cluster, x: Entry, y: Entry)
    requires c.nodes.Keys == {1, 2, 3} && (forall n | n in c.nodes :: c.nodes[n] == R.Fresh(n)) && x.term == 1 && y.term == 2
    ensures MayWrite(c, 2, 1, 1) && TermsRise([], 1) && TermsRise([y], LastTerm([y]))
  {
    hide Writes;
  }

  lemma NewTerm(c: Cluster)
    requires 1 in c.nodes && c.nodes[1].log == [] && Clock(c, 1)
    ensures MayWrite(c, 1, 2, 2)
  {
    hide Writes;
  }

  lemma FromStart(n: R.Node, y: Entry)
    requires Writes(n, 2) && n.log == [y] && n.term == y.term == 2
    ensures 2 in n.nextIndex && n.nextIndex[2] == 1
  {
  }

  // ----- Restart

  /** Recovery replays what was never committed: for every log there is a run in which nothing is ever
      committed and node 2, restarted, serves all of that log. */
  lemma RestartServesUncommitted(log: Log) returns (steps: seq<Step>, c: Cluster)
    requires log != [] && TermsRise(log, LastTerm(log))
    ensures IsRun(PEERS, steps) && CoveredRun(PEERS, steps) && Run(PEERS, steps) == Some(c) && c.history.commits == {}
    ensures 2 in c.nodes && c.nodes[2].commitIndex == 0 && c.nodes[2].lastApplied == |log| && c.nodes[2].kv == Replay(log)
  {
    hide Live, Clock, TermsRise, Replay, After;
    var d;
    steps, d := SecondWrites(log);
    LiveMeans(steps, d);
    NothingCommitted(steps, d);
    RestartEffect(d, 2);
    steps, c := Do(steps, d, Restart(2));
    LiveRuns(steps, c);
  }

  lemma RestartEffect(c: Cluster, n: NodeId)
    requires n in c.nodes && Linked(c)
    ensures After(c, Restart(n)).nodes == c.nodes[n := R.Restart(c.nodes[n])] && After(c, Restart(n)).history == c.history
    ensures Enabled(c, Restart(n)) && Covered(c, Restart(n))
  {
    hide Replay, Without;
  }

  /** As long as no node counts anything as committed and none has restarted, nothing is. */
  lemma NothingCommitted(steps: seq<Step>, c: Cluster)
    requires Live(steps, c) && c.restarted == {} && forall n | n in c.nodes :: c.nodes[n].commitIndex == 0
    ensures c.history.commits == {}
  {
    hide Run, CoveredRun, ClusterInv, SafeInv, Promptly, Applies, Certified, Inv;
    PeersAre();
    RunInv(PEERS, steps);
    RunSafe(PEERS, steps);
    AtNode(c, 1);
    forall cm | cm in c.history.commits ensures false {
      CommitTermElected(c.history, cm);
      LeaderIsNode(c, cm.term);
      AtCommitted(c, c.history.elections[cm.term].leader);
      AtNode(c, c.history.elections[cm.term].leader);
    }
  }

  lemma LeaderIsNode(c: Cluster, t: nat)
    requires ClusterInv(c) && t in c.history.elections
    ensures c.history.elections[t].leader in c.nodes
  {
    assert ElectionOk(c.history, t);
    assert BidOk(c.history, Slot(t, c.history.elections[t].leader));
  }
}
