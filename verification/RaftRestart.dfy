/** What a restarted node serves. Recovery replays the whole log, so it is committed data exactly if
    the whole log was committed when the node went down. */
module RaftRestart {
  import opened ClusterConfig
  import opened Logs
  import opened Store
  import opened RaftCluster
  import opened RaftCommit
  import opened RaftSafety
  import R = RaftSteps

  /** Every entry in the node's log is committed. */
  ghost predicate WhollyCommitted(c: Cluster, n: NodeId) {
    n in c.nodes && Certified(c.history, c.nodes[n].log, |c.nodes[n].log|, c.nodes[n].term)
  }

  /** It is enough that the node itself has committed all it holds. */
  lemma KnownCommitted(peers: seq<NodeId>, steps: seq<Step>, n: NodeId)
    requires IsRun(peers, steps) && CoveredRun(peers, steps)
    requires var c := Run(peers, steps).value; n in c.nodes && c.nodes[n].commitIndex == |c.nodes[n].log|
    ensures WhollyCommitted(Run(peers, steps).value, n)
  {
    hide Run, CoveredRun, SafeInv;
    RunSafe(peers, steps);
    AtCommitted(Run(peers, steps).value, n);
  }

  /** The run up to and including a restart of `n`. */
  function Restarted(before: seq<Step>, n: NodeId): seq<Step> {
    before + [Restart(n)]
  }

  lemma AfterTheRestart(peers: seq<NodeId>, before: seq<Step>, n: NodeId)
    requires IsRun(peers, Restarted(before, n))
    ensures IsRun(peers, before) && (CoveredRun(peers, Restarted(before, n)) ==> CoveredRun(peers, before))
    ensures n in Run(peers, before).value.nodes
    ensures var c, d := Run(peers, before).value, Run(peers, Restarted(before, n)).value;
      && d.history == c.history && d.nodes.Keys == c.nodes.Keys && d.nodes[n] == R.Restart(c.nodes[n])
  {
    hide Init, Covered;
    assert Restarted(before, n)[..|before|] == before;
  }

  // ----- Memory after a restart

  /** At every later moment until the next restart, memory is the replay of the log that the node
      restarted on, with what was committed past that log's length applied to it. What is committed
      below that length, in place of entries that the log had there, is never applied. */
  lemma RestartedMemory(peers: seq<NodeId>, before: seq<Step>, n: NodeId, more: seq<Step>)
    requires IsRun(peers, Restarted(before, n) + more) && CoveredRun(peers, Restarted(before, n) + more)
    requires Restart(n) !in more && Run(peers, before).Some? && n in Run(peers, before).value.nodes
    ensures n in Run(peers, Restarted(before, n) + more).value.nodes
    ensures var log := Run(peers, before).value.nodes[n].log;
      var node := Run(peers, Restarted(before, n) + more).value.nodes[n];
      && node.commitIndex <= |node.log| && node.lastApplied == Max(|log|, node.commitIndex)
      && node.kv == ReplayOn(Replay(log), Past(node.log, |log|, node.commitIndex))
  {
    hide Run, CoveredRun, Replay;
    StillRuns(peers, Restarted(before, n), more);
    AfterTheRestart(peers, before, n);
    var log := Run(peers, before).value.nodes[n].log;
    MemoryGoesOn(peers, Restarted(before, n), more, n, Replay(log), |log|);
  }

  // ----- A log that was wholly committed

  /** After a restart on a wholly committed log of length `k`, at every later moment until the next
      restart, memory is the replay of the first `k` entries or of the committed prefix, whichever is
      longer, and all of that is committed. */
  lemma RestartedMemoryIsReplay(peers: seq<NodeId>, before: seq<Step>, n: NodeId, more: seq<Step>)
    requires IsRun(peers, Restarted(before, n) + more) && CoveredRun(peers, Restarted(before, n) + more)
    requires Restart(n) !in more && Run(peers, before).Some? && WhollyCommitted(Run(peers, before).value, n)
    ensures n in Run(peers, Restarted(before, n) + more).value.nodes
    ensures var k := |Run(peers, before).value.nodes[n].log|;
      var c := Run(peers, Restarted(before, n) + more).value;
      var node := c.nodes[n];
      node.lastApplied == Max(k, node.commitIndex) && ServesCommitted(c, n)
  {
    hide Run, CoveredRun, Certified, SafeInv, OwnCommits, Promptly, Replay, ReplayOn;
    RestartedMemory(peers, before, n, more);
    StillRuns(peers, Restarted(before, n), more);
    AfterTheRestart(peers, before, n);
    var log := Run(peers, before).value.nodes[n].log;
    CertifiedEntriesStay(peers, Restarted(before, n), more, n, |log|);
    RunSafe(peers, Restarted(before, n) + more);
    var c := Run(peers, Restarted(before, n) + more).value;
    AtCommitted(c, n);
    SameReplay(c.nodes[n], log);
  }

  /** Memory is the replay of the applied prefix, and all of that is committed. */
  ghost predicate ServesCommitted(c: Cluster, n: NodeId) {
    && n in c.nodes && c.nodes[n].lastApplied <= |c.nodes[n].log|
    && c.nodes[n].kv == Replay(c.nodes[n].log[..c.nodes[n].lastApplied])
    && Certified(c.history, c.nodes[n].log, c.nodes[n].lastApplied, c.nodes[n].term)
  }

  lemma SameReplay(node: R.Node, log: Log)
    requires Agree(log, node.log, |log|) && node.commitIndex <= |node.log| && node.lastApplied == Max(|log|, node.commitIndex)
    ensures ReplayOn(Replay(log), Past(node.log, |log|, node.commitIndex)) == Replay(node.log[..node.lastApplied])
  {
    assert node.log[..|log|] == log;
    ReplaySplit(node.log, |log|, node.lastApplied);
    assert Past(node.log, |log|, node.commitIndex) == node.log[|log|..node.lastApplied];
  }

  // ----- A log with an uncommitted entry

  /** What a reader sees of the last command. */
  ghost predicate Reflects(kv: Contents, e: Entry) {
    e.key != [] ==> if e.op == Set then e.key in kv && kv[e.key] == e.value else e.key !in kv
  }

  /** A restart on any other log applies an entry that is not committed, and serves it. It does so until
      something is committed past that log's length, whatever is committed below. */
  lemma UncommittedIsServed(peers: seq<NodeId>, before: seq<Step>, n: NodeId, more: seq<Step>)
    requires IsRun(peers, Restarted(before, n) + more) && CoveredRun(peers, Restarted(before, n) + more)
    requires Restart(n) !in more && Run(peers, before).Some? && n in Run(peers, before).value.nodes
    requires !WhollyCommitted(Run(peers, before).value, n)
    ensures var log := Run(peers, before).value.nodes[n].log; log != []
    ensures n in Run(peers, Restarted(before, n) + more).value.nodes
    ensures var log := Run(peers, before).value.nodes[n].log;
      var node := Run(peers, Restarted(before, n) + more).value.nodes[n];
      node.commitIndex <= |log| ==> node.lastApplied == |log| && node.kv == Replay(log) && Reflects(node.kv, log[|log| - 1])
  {
    hide Run, CoveredRun, Certified;
    RestartedMemory(peers, before, n, more);
    var log := Run(peers, before).value.nodes[n].log;
    NothingCertified(Run(peers, before).value.history, log, Run(peers, before).value.nodes[n].term);
    assert Replay(log) == ApplyEntry(Replay(log[..|log| - 1]), log[|log| - 1]);
  }

  /** What the node serves stays committed for as long as it runs if and only if its whole log was
      committed when it went down. */
  lemma RestartServesCommittedIff(peers: seq<NodeId>, before: seq<Step>, n: NodeId)
    requires IsRun(peers, Restarted(before, n)) && CoveredRun(peers, Restarted(before, n)) && Run(peers, before).Some?
    ensures WhollyCommitted(Run(peers, before).value, n) <==>
      forall more | GoesOn(peers, before, n, more) :: ServesCommitted(Run(peers, Restarted(before, n) + more).value, n)
  {
    hide Run, CoveredRun, Certified, ServesCommitted;
    AfterTheRestart(peers, before, n);
    if WhollyCommitted(Run(peers, before).value, n) {
      forall more | GoesOn(peers, before, n, more) ensures ServesCommitted(Run(peers, Restarted(before, n) + more).value, n) {
        RestartedMemoryIsReplay(peers, before, n, more);
      }
    } else {
      NotServed(peers, before, n);
    }
  }

  /** A way to go on after the restart, up to the next one. */
  ghost predicate GoesOn(peers: seq<NodeId>, before: seq<Step>, n: NodeId, more: seq<Step>) {
    IsRun(peers, Restarted(before, n) + more) && CoveredRun(peers, Restarted(before, n) + more) && Restart(n) !in more
  }

  lemma NotServed(peers: seq<NodeId>, before: seq<Step>, n: NodeId)
    requires IsRun(peers, Restarted(before, n)) && CoveredRun(peers, Restarted(before, n)) && Run(peers, before).Some?
    requires !WhollyCommitted(Run(peers, before).value, n)
    ensures GoesOn(peers, before, n, []) && !ServesCommitted(Run(peers, Restarted(before, n) + []).value, n)
  {
    hide Run, CoveredRun, Certified;
    AfterTheRestart(peers, before, n);
    assert Restarted(before, n) + [] == Restarted(before, n);
  }
}
