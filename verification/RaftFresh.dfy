/** Exactly when a confirmed leader may serve reads: a leader that has not committed the whole log it was
    elected with may be behind, whatever that log is. */
module RaftFresh {
  import opened Logs
  import opened Options
  import opened RaftHistory
  import opened RaftCluster
  import opened RaftInvariant
  import opened RaftRefusal
  import opened RaftCommit
  import opened RaftSafety
  import opened RaftBuild
  import C = ClusterConfig
  import R = RaftSteps

  /** In a run whose claims are safe, a leader elected with the log `elected` has confirmed round `r` and
      counts `k` entries as committed, although more had been committed before the round. */
  ghost predicate StaleRead(peers: seq<C.NodeId>, steps: seq<Step>, r: nat, elected: Log, k: nat) {
    && IsRun(peers, steps) && CoveredRun(peers, steps)
    && var c := Run(peers, steps).value;
    && r in c.rounds && c.rounds[r].status == Confirmed && c.rounds[r].owner in c.nodes && c.rounds[r].owner !in c.restarted
    && c.rounds[r].term in c.history.elections && c.history.elections[c.rounds[r].term].log == elected
    && c.nodes[c.rounds[r].owner].commitIndex == k
    && exists cm :: cm in c.rounds[r].committedThen && cm.index > k
  }

  lemma CaughtUpIsFresh(peers: seq<C.NodeId>, steps: seq<Step>, r: nat, elected: Log, k: nat)
    requires |elected| <= k
    ensures !StaleRead(peers, steps, r, elected, k)
  {
    hide Run, CoveredRun;
    if StaleRead(peers, steps, r, elected, k) {
      var cm :| cm in Run(peers, steps).value.rounds[r].committedThen && cm.index > k;
      ConfirmedReadIsFresh(peers, steps, r, cm);
    }
  }

  // ----- A leader that is behind

  /** Node 3 leads with `log`, and nodes 1 and 3 know that the first `k` entries are committed. */
  ghost predicate Known(c: Cluster, log: Log, k: nat) {
    && c.nodes.Keys == {1, 2, 3} && c.campaigns == map[] && c.rounds == map[] && c.restarted == {} && Clock(c, LastTerm(log))
    && c.nodes[3].log == c.nodes[1].log == log && c.nodes[2].log == []
    && c.nodes[3].commitIndex == c.nodes[1].commitIndex == k
    && (log != [] ==> Writes(c.nodes[3], 2) && c.nodes[3].term == LastTerm(log))
  }

  lemma KnowsNothing() returns (steps: seq<Step>, c: Cluster)
    ensures Live(steps, c) && Known(c, [], 0)
  {
    hide Live, Init;
    steps, c := Begin();
    LiveMeans(steps, c);
  }

  lemma FirstTerm(c: Cluster, log: Log)
    requires Known(c, [], 0) && log != [] && TermsRise(log, LastTerm(log))
    ensures MayWrite(c, 3, 2, log[0].term)
  {
    hide Writes;
  }

  /** Node 3 writes `log`, commits all of it with node 1, and tells node 1 so. */
  lemma KnowsAll(log: Log) returns (steps: seq<Step>, c: Cluster)
    requires log != [] && TermsRise(log, LastTerm(log))
    ensures Live(steps, c) && Known(c, log, |log|)
  {
    hide Live, Clock, Writes, TermsRise, MayWrite, R.ReplicateRequest;
    var d, d1, d2, d3, cm;
    steps, d := KnowsNothing();
    FirstTerm(d, log);
    steps, d1 := WritesAll(steps, d, 3, 2, 2, log);
    steps, d2 := ShipsAll(steps, d1, 3, 1, 2);
    ClockAt(d2, 3, LastTerm(log));
    WritesMeans(d2.nodes[3], 2);
    steps, d3, cm := Commits(steps, d2, 3, 1, 2,
      AppendAnswer(1, Replicate, FullRequest(d1.nodes[3]), R.AppendResponse(d1.nodes[3].term, true)));
    ClockSame(d2, d3, 3, LastTerm(log));
    WritesSame(d2.nodes[3], d3.nodes[3], 2);
    steps, c := Ships(steps, d3, 3, 1);
  }

  /** Node 3 has committed all of `log`; node 1 holds it and knows of the first `k` entries only. */
  ghost predicate Behind(c: Cluster, log: Log, k: nat, cm: Commit) {
    && c.nodes.Keys == {1, 2, 3} && c.campaigns == map[] && c.rounds == map[] && c.restarted == {} && Clock(c, LastTerm(log))
    && c.nodes[3].log == c.nodes[1].log == log && c.nodes[2].log == [] && c.nodes[1].commitIndex == k
    && cm in c.history.commits && cm.index == |log|
  }

  /** Node 3 writes the rest. */
  lemma GoesOn(steps: seq<Step>, c: Cluster, log: Log, k: nat) returns (steps': seq<Step>, d: Cluster)
    requires Live(steps, c) && k < |log| && Known(c, log[..k], k) && TermsRise(log, LastTerm(log))
    ensures Live(steps', d) && Wrote(c, d, 3, 2, log)
    ensures Writes(d.nodes[3], 2) && d.nodes[3].term == LastTerm(log) && Clock(d, LastTerm(log))
  {
    hide Live, Clock, Writes, TermsRise, MayWrite;
    if k == 0 {
      FirstTerm(c, log);
    } else {
      NextMay(c, 3, 2, log, k - 1);
    }
    steps', d := WritesAll(steps, c, 3, 2, 2, log);
  }

  /** It replicates that to node 1 and commits it without node 1 hearing of it. */
  lemma FallsBehind(steps: seq<Step>, c: Cluster, log: Log, k: nat) returns (steps': seq<Step>, d: Cluster, cm: Commit)
    requires Live(steps, c) && k < |log| && Known(c, log[..k], k) && TermsRise(log, LastTerm(log))
    ensures Live(steps', d) && Behind(d, log, k, cm)
  {
    hide Live, Clock, Writes, TermsRise, MayWrite, R.ReplicateRequest, R.PrevMatches, R.ProbeRequest;
    var d1, d2, d3;
    steps', d1 := GoesOn(steps, c, log, k);
    WritesMeans(d1.nodes[3], 2);
    LeaderIs(steps', d1, 3, 1);
    steps', d2 := Reaches(steps', d1, k);
    RequestIs(d2.nodes[3], 1);
    EntriesAre(log, d2.nodes[3].nextIndex[1]);
    steps', d3 := Ships(steps', d2, 3, 1);
    ClockAt(d3, 3, LastTerm(log));
    steps', d, cm := Commits(steps', d3, 3, 1, 2,
      AppendAnswer(1, Replicate, R.ReplicateRequest(d2.nodes[3], 1), R.AppendResponse(d2.nodes[3].term, true)));
    ClockSame(d3, d, 3, LastTerm(log));
  }

  /** Node 3 backs off to where node 1 is, if it has to. */
  lemma Reaches(steps: seq<Step>, c: Cluster, k: nat) returns (steps': seq<Step>, d: Cluster)
    requires Live(steps, c) && c.nodes.Keys == {1, 2, 3} && Clock(c, c.nodes[3].term) && c.nodes[3].role == R.Leader
    requires CanAddress(c.nodes[3], 1) && c.nodes[3].nextIndex[1] <= |c.nodes[3].log| + 1 && |c.nodes[1].log| == k
    ensures Live(steps', d) && Calm(c, d) && d.campaigns == c.campaigns && d.nodes.Keys == {1, 2, 3} && Clock(d, c.nodes[3].term)
    ensures Same(c.nodes[1], d.nodes[1]) && d.nodes[2] == c.nodes[2]
    ensures d.nodes[3] == c.nodes[3].(nextIndex := d.nodes[3].nextIndex)
    ensures CanAddress(d.nodes[3], 1) && d.nodes[3].nextIndex[1] <= k + 1
  {
    hide Live, Clock, R.PrevMatches, R.ProbeRequest;
    if c.nodes[3].nextIndex[1] <= k + 1 {
      steps', d := steps, c;
    } else {
      TooFar(c.nodes[3], 1, c.nodes[1].log);
      steps', d := BacksOff(steps, c, 3, 1, k);
    }
  }

  lemma TooFar(n: R.Node, f: C.NodeId, log: Log)
    requires CanAddress(n, f) && n.nextIndex[f] > |log| + 1
    ensures !R.PrevMatches(log, R.ProbeRequest(n, f))
  {
  }

  lemma EntriesAre(log: Log, next: nat)
    requires 0 < next <= |log|
    ensures R.EntriesFrom(log, next) != [] && next - 1 + |R.EntriesFrom(log, next)| == |log|
  {
  }

  /** Node 1 is elected with the log, confirms a round, and is still behind. */
  lemma ReadsStale(steps: seq<Step>, c: Cluster, log: Log, k: nat, cm: Commit) returns (steps': seq<Step>)
    requires Live(steps, c) && Behind(c, log, k, cm) && k < |log| && TermsRise(log, LastTerm(log))
    ensures StaleRead(PEERS, steps', 0, log, k)
  {
    hide Live, Clock, TermsRise, UpToDate;
    var t := LastTerm(log) + 1;
    ClockAt(c, 1, t - 1);
    ClockAt(c, 2, t - 1);
    ClockAt(c, 3, t - 1);
    PrefixUpToDate(log, 0, LastTerm(log));
    var d, d1;
    steps', d := Elected(steps, c, 1, 2, t);
    steps', d1 := Confirms(steps', d, log, t, k);
    ElectedWith(steps', d1, log, t);
    LiveRuns(steps', d1);
    assert cm in d1.rounds[0].committedThen && cm.index > k;
  }

  /** A leader with no entry of its own term was elected with the log it has. */
  lemma ElectedWith(steps: seq<Step>, c: Cluster, log: Log, t: nat)
    requires Live(steps, c) && 1 in c.nodes && c.nodes[1].role == R.Leader && c.nodes[1].log == log && c.nodes[1].term == t
    requires TermsRise(log, LastTerm(log)) && LastTerm(log) < t
    ensures t in c.history.elections && c.history.elections[t].log == log
  {
    hide Run, CoveredRun, ClusterInv, RefusalInv, Inv;
    PeersAre();
    RunInv(PEERS, steps);
    RunRefusal(PEERS, steps);
    AtNode(c, 1);
    AtTail(c, t);
    SameAsElected(c.history, log, t);
  }

  lemma SameAsElected(h: History, log: Log, t: nat)
    requires Inv(h) && OwnTail(h, t) && h.ledger[t] == log && TermsRise(log, LastTerm(log)) && LastTerm(log) < t
    ensures h.elections[t].log == log
  {
    assert ElectionOk(h, t);
  }

  /** Node 1 confirms a round with the reply of node 3. */
  lemma Confirms(steps: seq<Step>, c: Cluster, log: Log, t: nat, k: nat) returns (steps': seq<Step>, d: Cluster)
    requires Live(steps, c) && c.nodes.Keys == {1, 2, 3} && c.rounds == map[] && c.nodes[1].id == 1 && NewLeader(c.nodes[1], t)
    requires c.nodes[1].log == c.nodes[3].log == log && c.nodes[3].term < t && c.nodes[1].commitIndex == k <= |log|
    ensures Live(steps', d) && 0 in d.rounds && d.rounds[0].status == Confirmed && d.rounds[0].owner == 1 && d.rounds[0].term == t
    ensures d.rounds[0].committedThen == c.history.commits && d.restarted == c.restarted
    ensures 1 in d.nodes && d.nodes[1] == c.nodes[1]
  {
    hide Live, R.ProbeRequest, R.OnAppendRequest;
    var req := R.ProbeRequest(c.nodes[1], 3);
    ProbesAll(c.nodes[1], 2);
    ProbesAll(c.nodes[1], 3);
    Accepts(c.nodes[3], log, req);
    assert PEERS[0] == 1 && PEERS[1] == 2 && PEERS[2] == 3;
    steps', d := DoBegin(steps, c, 1, 0);
    steps', d := DoPass(steps', d, 0, 1, 0);
    steps', d := DoProbe(steps', d, 0, 1, 1);
    steps', d := DoEnd(steps', d, 0, 1, 1, None);
    steps', d := DoProbe(steps', d, 0, 1, 2);
    steps', d := DoDeliver(steps', d, AppendAsk(3, Probe(0), req));
    steps', d := DoEnd(steps', d, 0, 1, 2, Some(AppendAnswer(3, Probe(0), req, R.AppendResponse(t, true))));
    steps', d := DoConfirm(steps', d, 0, 1);
  }

  lemma ProbesAll(n: R.Node, f: C.NodeId)
    requires f in n.nextIndex && n.nextIndex[f] == |n.log| + 1 && n.commitIndex <= |n.log|
    ensures var req := R.ProbeRequest(n, f);
      && CanAddress(n, f) && Covers(req) && req.term == n.term && req.prevIndex == |n.log| && req.entries == []
      && (n.log != [] ==> req.prevTerm == LastTerm(n.log))
  {
  }

  lemma Accepts(n: R.Node, log: Log, req: R.AppendRequest)
    requires n.term < req.term && n.log == log && req.prevIndex == |log| && req.entries == []
    requires log != [] ==> req.prevTerm == LastTerm(log)
    ensures R.OnAppendRequest(n, req).1 == R.AppendResponse(req.term, true)
  {
    hide R.ApplyCommitted;
  }

  /** A confirmed leader that counts `k` entries as committed reads fresh in every run if and only if that
      covers the log it was elected with. */
  lemma ReadFreshIff(elected: Log, k: nat)
    requires TermsRise(elected, LastTerm(elected))
    ensures |elected| <= k <==> !exists peers, steps, r :: StaleRead(peers, steps, r, elected, k)
  {
    hide StaleRead, TermsRise;
    if |elected| <= k {
      forall peers, steps, r ensures !StaleRead(peers, steps, r, elected, k) {
        CaughtUpIsFresh(peers, steps, r, elected, k);
      }
    } else {
      var steps := FallsAndReads(elected, k);
    }
  }

  lemma FallsAndReads(log: Log, k: nat) returns (steps: seq<Step>)
    requires TermsRise(log, LastTerm(log)) && k < |log|
    ensures StaleRead(PEERS, steps, 0, log, k)
  {
    hide Live, StaleRead;
    var c, d, cm;
    if k == 0 {
      steps, c := KnowsNothing();
      assert log[..0] == [];
    } else {
      PrefixesRise(log, k);
      steps, c := KnowsAll(log[..k]);
    }
    steps, d, cm := FallsBehind(steps, c, log, k);
    steps := ReadsStale(steps, d, log, k, cm);
  }

  lemma PrefixesRise(log: Log, k: nat)
    requires TermsRise(log, LastTerm(log)) && 0 < k <= |log|
    ensures TermsRise(log[..k], LastTerm(log[..k]))
  {
  }
}
