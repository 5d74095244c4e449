/** Exactly when a leader may claim a commit index in a confirmation probe: a claim that is not safe
    misleads a receiver in some run of three nodes in which every other claim is safe. */
module RaftClaim {
  import opened Logs
  import opened Options
  import opened RaftHistory
  import opened RaftCluster
  import opened RaftInvariant
  import opened RaftRefusal
  import opened RaftCommit
  import opened RaftSafety
  import opened RaftBuild
  import C = ClusterConfig
  import R = RaftSteps

  /** A probe that a leader with log `leader` may come to send. */
  ghost predicate IsProbe(leader: Log, req: R.AppendRequest) {
    && req.term > 0 && TermsRise(leader, req.term) && req.entries == []
    && req.prevIndex <= |leader| && req.leaderCommit <= |leader|
    && req.prevTerm == if req.prevIndex > 0 then leader[req.prevIndex - 1].term else 0
  }

  /** After handling the request, everything the receiver counts as committed is the leader's. */
  ghost predicate CommitsOnlyLeaders(leader: Log, n: R.Node, req: R.AppendRequest) {
    var n' := R.OnAppendRequest(n, req).0;
    Agree(n'.log, leader, n'.commitIndex)
  }

  /** In a run whose claims so far are safe, a leader with log `leader` is about to send `req` as the
      probe of round `r` to a node in no later term, which then commits what the leader does not have. */
  ghost predicate Misleads(peers: seq<C.NodeId>, steps: seq<Step>, r: nat, leader: Log, req: R.AppendRequest) {
    && IsRun(peers, steps) && CoveredRun(peers, steps)
    && var c := Run(peers, steps).value;
    && Enabled(c, SendProbe(r)) && Holds(c, r)
    && var (n, p) := (c.rounds[r].owner, c.peers[c.rounds[r].next]);
    && p != n && p in c.nodes && CanAddress(c.nodes[n], p) && c.nodes[n].log == leader
    && R.ProbeRequest(c.nodes[n], p) == req.(leader := n)
    && c.nodes[p].term <= req.term && !CommitsOnlyLeaders(leader, c.nodes[p], req.(leader := n))
  }

  // ----- Safe claims

  /** No run is misled by a safe claim. */
  lemma SafeClaimIsSafe(peers: seq<C.NodeId>, steps: seq<Step>, r: nat, leader: Log, req: R.AppendRequest)
    requires SafeClaim(leader, req)
    ensures !Misleads(peers, steps, r, leader, req)
  {
    hide Run, CoveredRun, ClusterInv, RefusalInv, SafeInv, SafeClaim, CommitsOnlyLeaders, R.ProbeRequest;
    if Misleads(peers, steps, r, leader, req) {
      RunInv(peers, steps);
      RunRefusal(peers, steps);
      RunSafe(peers, steps);
      var c := Run(peers, steps).value;
      SentSafely(c, r, leader, req);
    }
  }

  lemma SentSafely(c: Cluster, r: nat, leader: Log, req: R.AppendRequest)
    requires ClusterInv(c) && RefusalInv(c) && SafeInv(c) && Enabled(c, SendProbe(r)) && Holds(c, r) && SafeClaim(leader, req)
    requires var (n, p) := (c.rounds[r].owner, c.peers[c.rounds[r].next]);
      && p != n && p in c.nodes && CanAddress(c.nodes[n], p) && c.nodes[n].log == leader
      && R.ProbeRequest(c.nodes[n], p) == req.(leader := n) && c.nodes[p].term <= req.term
    ensures var (n, p) := (c.rounds[r].owner, c.peers[c.rounds[r].next]);
      CommitsOnlyLeaders(leader, c.nodes[p], req.(leader := n))
  {
    hide ClusterInv, RefusalInv, SafeInv, SafeClaim, R.ProbeRequest, Inv, NodeFits, Promptly, Certified, Addressed, R.OnAppendRequest,
      Linked, SliceFits, Applies, OwnCommits;
    var n, p := c.rounds[r].owner, c.peers[c.rounds[r].next];
    var req' := req.(leader := n);
    var m := AppendAsk(p, Probe(r), req');
    var d := AfterSendProbe(c, r);
    SameClaim(leader, req, n);
    ProbeMeans(c.nodes[n], p);
    SendProbeKeeps(c, r);
    SendProbeSafe(c, r);
    AtNode(c, n);
    AtNode(c, p);
    ProbeRefusal(c, r);
    AtCommitted(d, p);
    AtAppendAsk(d, m);
    AtClaim(d, m);
    AtAddressed(d, m);
    NothingCertified(d.history, d.nodes[p].log, d.nodes[p].term);
    AppendCommits(d.history, d.nodes[p], req', 0);
    LeaderLedger(c, n);
    Heeded(d.history, d.nodes[p], req');
  }

  lemma SameClaim(leader: Log, req: R.AppendRequest, n: C.NodeId)
    ensures SafeClaim(leader, req.(leader := n)) == SafeClaim(leader, req)
  {
  }

  lemma ProbeRefusal(c: Cluster, r: nat)
    requires ClusterInv(c) && RefusalInv(c) && Enabled(c, SendProbe(r)) && Linked(c)
    ensures RefusalInv(AfterSendProbe(c, r))
  {
    hide ClusterInv, RefusalInv;
    StepRefusal(c, SendProbe(r));
  }

  lemma LeaderLedger(c: Cluster, n: C.NodeId)
    requires ClusterInv(c) && n in c.nodes && c.nodes[n].role == R.Leader
    ensures c.nodes[n].term in c.history.elections && c.nodes[n].term in c.history.ledger
    ensures c.history.ledger[c.nodes[n].term] == c.nodes[n].log
  {
    assert NodeAt(c, n);
  }

  lemma Heeded(h: History, node: R.Node, req: R.AppendRequest)
    requires Inv(h) && node.term <= req.term && req.term in h.elections
    requires var n' := R.OnAppendRequest(node, req).0; Promptly(h, n'.log, n'.commitIndex, n'.term)
    ensures req.term in h.ledger && CommitsOnlyLeaders(h.ledger[req.term], node, req)
  {
    hide Inv, Promptly, Certified, R.OnAppendRequest;
    var n' := R.OnAppendRequest(node, req).0;
    AskedTerm(node, req);
    PromptlyCertified(h, n'.log, n'.commitIndex, n'.term);
    CommittedReachesLeader(h, n'.log, n'.commitIndex, n'.term, req.term);
  }

  // ----- A run that is misled by an unsafe claim

  /** The logs of nodes 1 and 2 part while nothing is committed and node 3 holds nothing. */
  ghost predicate Parted(c: Cluster, first: Log, second: Log, t: nat) {
    && c.nodes.Keys == {1, 2, 3} && c.campaigns == map[] && c.rounds == map[] && Clock(c, t)
    && c.nodes[1].log == first && c.nodes[2].log == second && c.nodes[3].log == []
    && c.nodes[1].commitIndex == c.nodes[2].commitIndex == c.nodes[3].commitIndex == 0
    && c.nodes[1].lastApplied == c.nodes[2].lastApplied == 0 && c.restarted == {}
  }

  /** Node 1 has applied the first `k` entries of `log`. */
  ghost predicate AppliedTo(c: Cluster, log: Log, k: nat) {
    c.restarted == {} && k <= |log| && forall j | 0 <= j < k :: Applied(1, j + 1, log[j]) in c.applied
  }

  lemma AppliedStays(c: Cluster, d: Cluster, log: Log, k: nat)
    requires c.applied <= d.applied && d.restarted == c.restarted && AppliedTo(c, log, k)
    ensures AppliedTo(d, log, k)
  {
  }

  lemma Fresh() returns (steps: seq<Step>, c: Cluster)
    ensures Live(steps, c) && Parted(c, [], [], 0)
  {
    hide Live, Init;
    steps, c := Begin();
    LiveMeans(steps, c);
  }

  lemma PrefixesRise(log: Log, t: nat, k: nat)
    requires TermsRise(log, t) && 0 < k <= |log|
    ensures TermsRise(log[..k], log[k - 1].term) && LastTerm(log[..k]) == log[k - 1].term > 0
  {
  }

  lemma FirstTerm(c: Cluster, n: C.NodeId, p: C.NodeId, log: Log)
    requires n in c.nodes && c.nodes[n].log == [] && Clock(c, 0) && log != [] && TermsRise(log, LastTerm(log))
    ensures MayWrite(c, n, p, log[0].term)
  {
    hide Writes;
  }

  /** From nothing, `n` writes a log with the votes of node 3 and ships it to `f`. */
  lemma WritesAndShips(n: C.NodeId, f: C.NodeId, log: Log) returns (steps: seq<Step>, c: Cluster)
    requires {n, f} == {1, 2} && TermsRise(log, LastTerm(log)) && log != []
    ensures Live(steps, c) && Parted(c, log, log, LastTerm(log))
    ensures Writes(c.nodes[n], 3) && c.nodes[n].term == LastTerm(log)
  {
    hide Live, Clock, Writes, TermsRise, MayWrite;
    var d, d1;
    steps, d := Fresh();
    FirstTerm(d, n, 3, log);
    steps, d1 := WritesAll(steps, d, n, 3, 3, log);
    steps, c := ShipsAll(steps, d1, n, f, 3);
  }

  /** The leader of the term that the request builds on goes on after what the later leaders have. */
  lemma PartsByTail(log: Log, t: nat, i: nat, x: Entry) returns (steps: seq<Step>, c: Cluster)
    requires TermsRise(log, t) && i <= |log| && x.term == (if i == 0 then 1 else log[i - 1].term)
    ensures Live(steps, c) && Parted(c, log[..i], log[..i] + [x], x.term)
  {
    hide Live, Clock, Writes, TermsRise, MayWrite;
    var d;
    if i == 0 {
      var d0;
      steps, d0 := Fresh();
      EmptyRises(1);
      FirstTerm(d0, 2, 3, [x]);
      steps, d := Takes(steps, d0, 2, 3, 3, 1);
    } else {
      PrefixesRise(log, t, i);
      steps, d := WritesAndShips(2, 1, log[..i]);
    }
    WritesMeans(d.nodes[2], 3);
    steps, c := DoPropose(steps, d, 2, x);
    ClockAt(d, 2, x.term);
    ClockSame(d, c, 2, x.term);
  }

  lemma EmptyRises(t: nat)
    ensures TermsRise([], t) && forall x: Entry :: x.term > 0 ==> TermsRise([x], x.term) && LastTerm([x]) == x.term
  {
  }

  /** Another leader of a term in between goes on from a shorter log. */
  lemma PartsBetween(log: Log, t: nat, m: nat, k: nat, x: Entry) returns (steps: seq<Step>, c: Cluster)
    requires TermsRise(log, t) && m < k <= |log| && log[m].term == log[k - 1].term
    requires m > 0 ==> log[m - 1].term == log[m].term
    requires x.term == log[m].term + 1
    ensures Live(steps, c) && Parted(c, log[..k], log[..m] + [x], x.term)
  {
    hide Live, Clock, Writes, TermsRise, MayWrite;
    var d, d1, d2;
    PrefixesRise(log, t, k);
    if m == 0 {
      steps, d := Fresh();
      FirstTerm(d, 1, 3, log[..k]);
    } else {
      PrefixesRise(log, t, m);
      steps, d := WritesAndShips(1, 2, log[..m]);
      NextMay(d, 1, 3, log[..k], m - 1);
    }
    steps, d1 := WritesAll(steps, d, 1, 3, 3, log[..k]);
    NewTerm(d1, 2, 3, log, t, m, x.term);
    steps, d2 := Takes(steps, d1, 2, 3, 3, x.term);
    WritesMeans(d2.nodes[2], 3);
    steps, c := DoPropose(steps, d2, 2, x);
    ClockAt(d2, 2, x.term);
    ClockSame(d2, c, 2, x.term);
  }

  lemma NewTerm(c: Cluster, n: C.NodeId, p: C.NodeId, log: Log, last: nat, m: nat, t: nat)
    requires n in c.nodes && TermsRise(log, last) && m < |log| && c.nodes[n].log == log[..m] && log[m].term < t && Clock(c, t - 1)
    ensures MayWrite(c, n, p, t) && TermsRise(c.nodes[n].log, t)
  {
    hide Writes;
  }

  /** Node 1 has committed the first `k` entries of `log` and holds no more; node 3 holds as much. */
  ghost predicate CommittedTo(c: Cluster, log: Log, k: nat, second: Log) {
    && c.nodes.Keys == {1, 2, 3} && c.campaigns == map[] && c.rounds == map[] && 0 < k <= |log|
    && Writes(c.nodes[1], 2) && c.nodes[1].term == log[k - 1].term && Clock(c, log[k - 1].term)
    && c.nodes[1].log == c.nodes[3].log == log[..k] && c.nodes[1].commitIndex == k
    && c.nodes[2].log == second && c.nodes[2].commitIndex == c.nodes[2].lastApplied == 0 && AppliedTo(c, log, k)
  }

  /** Node 1 goes on to entry `k` and commits it with node 3. */
  lemma CommitsTo(steps: seq<Step>, c: Cluster, log: Log, t: nat, q: nat, k: nat, second: Log, u: nat)
      returns (steps': seq<Step>, d: Cluster)
    requires Live(steps, c) && TermsRise(log, t) && q < k <= |log| && Parted(c, log[..q], second, u)
    requires u < log[q].term && (q > 0 ==> log[q - 1].term <= u)
    ensures Live(steps', d) && CommittedTo(d, log, k, second)
  {
    hide Live, Clock, Writes, TermsRise, MayWrite;
    PrefixesRise(log, t, k);
    GoesOn(c, log[..k], q, u);
    var d1, d2;
    steps', d1 := WritesAll(steps, c, 1, 3, 2, log[..k]);
    steps', d2 := ShipsAll(steps', d1, 1, 3, 2);
    var m := AppendAnswer(3, Replicate, FullRequest(d1.nodes[1]), R.AppendResponse(d1.nodes[1].term, true));
    ClockAt(d2, 1, log[k - 1].term);
    WritesMeans(d2.nodes[1], 2);
    var cm;
    steps', d, cm := Commits(steps', d2, 1, 3, 2, m);
    WritesSame(d2.nodes[1], d.nodes[1], 2);
    ClockSame(d2, d, 1, log[k - 1].term);
    assert forall j | 0 <= j < k :: log[..k][j] == log[j];
  }

  lemma GoesOn(c: Cluster, log: Log, q: nat, u: nat)
    requires 1 in c.nodes && q < |log| && c.nodes[1].log == log[..q] && Clock(c, u) && u < log[q].term
    requires q > 0 ==> log[q - 1].term <= u
    ensures MayWrite(c, 1, 2, log[q].term) && log[..q] < log
  {
    hide Writes;
  }

  /** Node 1 leads term `t` with `log`, of which it has committed `k` entries. */
  ghost predicate LeadsLog(c: Cluster, log: Log, t: nat, k: nat, second: Log) {
    && c.nodes.Keys == {1, 2, 3} && c.rounds == map[] && Clock(c, t)
    && Writes(c.nodes[1], 2) && c.nodes[1].term == t && c.nodes[1].log == log && c.nodes[1].commitIndex == k
    && c.nodes[2].log == second && c.nodes[2].commitIndex == c.nodes[2].lastApplied == 0 && AppliedTo(c, log, k)
  }

  /** Node 1 goes on to the end of `log` and to term `t`. */
  lemma LeadsWith(steps: seq<Step>, c: Cluster, log: Log, t: nat, k: nat, second: Log) returns (steps': seq<Step>, d: Cluster)
    requires Live(steps, c) && TermsRise(log, t) && CommittedTo(c, log, k, second)
    ensures Live(steps', d) && LeadsLog(d, log, t, k, second)
  {
    hide Live, Clock, Writes, TermsRise, MayWrite, AppliedTo;
    PrefixesRise(log, t, |log|);
    assert log[..|log|] == log;
    var d1;
    if k < |log| {
      NextMay(c, 1, 2, log, k - 1);
      steps', d1 := WritesAll(steps, c, 1, 3, 2, log);
    } else {
      steps', d1 := steps, c;
    }
    AppliedStays(c, d1, log, k);
    LastMay(d1, log, t);
    steps', d := Takes(steps', d1, 1, 3, 2, t);
    AppliedStays(d1, d, log, k);
  }

  lemma LastMay(c: Cluster, log: Log, t: nat)
    requires 1 in c.nodes && log != [] && TermsRise(log, t) && c.nodes[1].log == log
    requires Writes(c.nodes[1], 2) && c.nodes[1].term == LastTerm(log) && Clock(c, LastTerm(log))
    ensures MayWrite(c, 1, 2, t)
  {
    hide Writes;
  }

  /** Node 1 is about to probe node 2 in round 0. */
  ghost predicate Poised(c: Cluster, log: Log, req: R.AppendRequest, second: Log) {
    && 0 in c.rounds && c.rounds[0].owner == 1 && 1 in c.nodes && 2 in c.nodes
    && Enabled(c, SendProbe(0)) && Holds(c, 0) && c.peers[c.rounds[0].next] == 2
    && c.nodes[1].log == log && CanAddress(c.nodes[1], 2) && R.ProbeRequest(c.nodes[1], 2) == req
    && c.nodes[2].id == 2 && c.nodes[2].term <= req.term && c.nodes[2].log == second
    && c.nodes[2].commitIndex == c.nodes[2].lastApplied == 0
    && AppliedTo(c, log, req.leaderCommit)
  }

  /** Node 2 refuses what a leader starts with. */
  ghost predicate TurnsDown(log: Log, t: nat, second: Log) {
    var e := Below(log, t);
    e > 0 && (e > |second| || second[e - 1].term != log[e - 1].term)
  }

  /** Node 1 backs off for node 2 and begins a round. */
  lemma Probes(steps: seq<Step>, c: Cluster, log: Log, req: R.AppendRequest, second: Log)
      returns (steps': seq<Step>, d: Cluster)
    requires Live(steps, c) && LeadsLog(c, log, req.term, req.leaderCommit, second) && IsProbe(log, req)
    requires req.prevIndex <= Below(log, req.term)
    requires req.prevIndex < Below(log, req.term) ==> TurnsDown(log, req.term, second)
    ensures Live(steps', d) && Poised(d, log, req.(leader := 1), second)
  {
    hide Live, Clock, R.PrevMatches, R.ProbeRequest, Below, TermsRise, AppliedTo;
    var d1, d2;
    ClockAt(c, 1, req.term);
    RefusedAt(c.nodes[1], 2, second);
    steps', d1 := BacksOff(steps, c, 1, 2, req.prevIndex);
    ClockAt(d1, 2, req.term);
    steps', d2 := DoBegin(steps', d1, 1, 0);
    steps', d := DoPass(steps', d2, 0, 1, 0);
    AppliedStays(c, d, log, req.leaderCommit);
    ProbeIs(d.nodes[1], 2);
  }

  lemma RefusedAt(n: R.Node, f: C.NodeId, log: Log)
    requires CanAddress(n, f) && n.nextIndex[f] <= |n.log| + 1
    ensures var p := n.nextIndex[f] - 1;
      p > 0 && (p > |log| || log[p - 1].term != n.log[p - 1].term) ==> !R.PrevMatches(log, R.ProbeRequest(n, f))
  {
  }

  lemma ProbeIs(n: R.Node, f: C.NodeId)
    requires CanAddress(n, f) && n.nextIndex[f] <= |n.log| + 1
    ensures var m := n.nextIndex[f] - 1;
      R.ProbeRequest(n, f) == R.AppendRequest(n.term, n.id, m, if m > 0 then n.log[m - 1].term else 0, n.commitIndex, [])
  {
  }

  /** The entries below a term are those at the front. */
  lemma BelowAt(log: Log, last: nat, t: nat, j: nat)
    requires TermsRise(log, last) && j < |log|
    ensures j < Below(log, t) <==> log[j].term < t
  {
    var k := Below(log, t);
    if k <= j { assert log[k].term <= log[j].term; }
  }

  /** Where the receiver's log leaves the leader's, the term it goes on with, and how much node 1
      holds by then. */
  ghost predicate PartsAt(leader: Log, req: R.AppendRequest, i: nat, t: nat, q: nat) {
    && req.prevIndex <= i <= q < req.leaderCommit <= |leader|
    && t != leader[i].term && 0 < t < leader[q].term && (q > 0 ==> leader[q - 1].term <= t)
    && (i == q ==> t == if i == 0 then 1 else leader[i - 1].term)
    && (i < q ==> leader[i].term == leader[q - 1].term && t == leader[i].term + 1)
    && (0 < i < q ==> leader[i - 1].term == leader[i].term)
    && req.prevIndex <= Below(leader, req.term)
    && (req.prevIndex < Below(leader, req.term) ==> i < Below(leader, req.term))
  }

  lemma Parting(leader: Log, req: R.AppendRequest) returns (i: nat, t: nat, q: nat)
    requires IsProbe(leader, req) && !SafeClaim(leader, req)
    ensures PartsAt(leader, req, i, t, q)
  {
    var a, m, k, e := Anchor(req), req.prevIndex, req.leaderCommit, Below(leader, req.term);
    AnchorIs(leader, req);
    i := Below(leader, a + 1);
    BelowAt(leader, req.term, a + 1, k - 1);
    if m > 0 {
      BelowAt(leader, req.term, a + 1, m - 1);
      BelowAt(leader, req.term, req.term, m - 1);
    }
    BelowAt(leader, req.term, req.term, i);
    hide TermsRise, SafeClaim, Below;
    if i < e || m >= e {
      TailTerm(leader, req.term, m, i, a);
      t, q := a, i;
    } else {
      MiddleTerm(leader, req, a, i, e);
      i, t, q := m, a + 1, e;
    }
  }

  lemma AnchorIs(leader: Log, req: R.AppendRequest)
    requires IsProbe(leader, req) && !SafeClaim(leader, req)
    ensures var a, m, k := Anchor(req), req.prevIndex, req.leaderCommit;
      && m < k && 0 < a < leader[k - 1].term <= req.term && a <= leader[m].term && (m > 0 ==> leader[m - 1].term == a)
      && (m == 0 ==> a == 1) && !(a + 1 == req.term && leader[m].term == a)
  {
    hide Below;
    var m, k := req.prevIndex, req.leaderCommit;
    assert m > 0 ==> leader[m - 1].term <= leader[m].term;
    assert leader[m].term <= leader[k - 1].term;
  }

  /** The last entry of terms up to `a` has that term. */
  lemma TailTerm(log: Log, last: nat, m: nat, i: nat, a: nat)
    requires TermsRise(log, last) && m <= i == Below(log, a + 1) && (m > 0 ==> log[m - 1].term == a) && (m == 0 ==> a == 1)
    ensures i > 0 ==> log[i - 1].term == a
  {
    if i > m > 0 { assert log[m - 1].term <= log[i - 1].term; }
  }

  lemma MiddleTerm(leader: Log, req: R.AppendRequest, a: nat, i: nat, e: nat)
    requires IsProbe(leader, req) && e == Below(leader, req.term) && i == Below(leader, a + 1) && e <= i < |leader|
    requires req.prevIndex < e && a < req.term && a <= leader[req.prevIndex].term && !(a + 1 == req.term && leader[req.prevIndex].term == a)
    ensures e == i && leader[req.prevIndex].term == a == leader[e - 1].term && leader[e].term == req.term > a + 1
  {
    BelowAt(leader, req.term, a + 1, req.prevIndex);
    assert leader[req.prevIndex].term <= leader[e - 1].term;
    BelowAt(leader, req.term, a + 1, e - 1);
  }

  /** A run in which node 1 leads with the given log and node 2 has left it. */
  lemma LeadsApart(leader: Log, req: R.AppendRequest, i: nat, t: nat, q: nat) returns (steps: seq<Step>, c: Cluster)
    requires IsProbe(leader, req) && PartsAt(leader, req, i, t, q)
    ensures Live(steps, c) && LeadsLog(c, leader, req.term, req.leaderCommit, leader[..i] + [leader[i].(term := t)])
  {
    hide Live, TermsRise, Below, Parted, CommittedTo, LeadsLog;
    var x := leader[i].(term := t);
    var c1, c2;
    if i == q {
      steps, c1 := PartsByTail(leader, req.term, i, x);
    } else {
      steps, c1 := PartsBetween(leader, req.term, i, q, x);
    }
    steps, c2 := CommitsTo(steps, c1, leader, req.term, q, req.leaderCommit, leader[..i] + [x], t);
    steps, c := LeadsWith(steps, c2, leader, req.term, req.leaderCommit, leader[..i] + [x]);
  }

  /** A run in which node 1 is about to send the probe to node 2, whose log has left its own. */
  lemma PoisedApart(leader: Log, req: R.AppendRequest) returns (steps: seq<Step>, c: Cluster, i: nat, x: Entry)
    requires IsProbe(leader, req) && !SafeClaim(leader, req)
    ensures req.prevIndex <= i < req.leaderCommit && x != leader[i]
    ensures Live(steps, c) && Poised(c, leader, req.(leader := 1), leader[..i] + [x])
  {
    hide Live, TermsRise, SafeClaim, Below, LeadsLog, Poised;
    var t, q;
    i, t, q := Parting(leader, req);
    x := leader[i].(term := t);
    var c1;
    steps, c1 := LeadsApart(leader, req, i, t, q);
    Turned(leader, req.term, i, x);
    steps, c := Probes(steps, c1, leader, req, leader[..i] + [x]);
  }

  /** Every unsafe claim misleads a receiver in some run of three nodes. */
  lemma UnsafeClaimMisleads(leader: Log, req: R.AppendRequest) returns (steps: seq<Step>)
    requires IsProbe(leader, req) && !SafeClaim(leader, req)
    ensures Misleads(PEERS, steps, 0, leader, req)
  {
    hide Live, TermsRise, SafeClaim, CommitsOnlyLeaders, R.ProbeRequest, Enabled;
    var c, i, x;
    steps, c, i, x := PoisedApart(leader, req);
    Misled(leader, c.nodes[2], req.(leader := 1), i, x);
    LiveRuns(steps, c);
  }

  /** It breaks state machine safety: two nodes apply different entries at one index. */
  lemma UnsafeClaimBreaksSafety(leader: Log, req: R.AppendRequest)
      returns (steps: seq<Step>, more: seq<Step>, c: Cluster, i: nat, x: Entry)
    requires IsProbe(leader, req) && !SafeClaim(leader, req)
    ensures CoveredRun(PEERS, steps) && IsRun(PEERS, steps + more) && Run(PEERS, steps + more) == Some(c) && c.restarted == {}
    ensures |more| == 2 && more[0] == SendProbe(0) && more[1].DeliverAppendAsk?
    ensures i < |leader| && x != leader[i]
    ensures Applied(1, i + 1, leader[i]) in c.applied && Applied(2, i + 1, x) in c.applied
  {
    hide Live, TermsRise, SafeClaim, R.ProbeRequest, Enabled, Run, CoveredRun, Holds;
    var c0, c1;
    var req' := req.(leader := 1);
    steps, c0, i, x := PoisedApart(leader, req);
    LiveRuns(steps, c0);
    LiveMeans(steps, c0);
    ProbeTaken(c0, leader, req', leader[..i] + [x]);
    c1 := Another(steps, c0, SendProbe(0));
    var m := AppendAsk(2, Probe(0), req');
    AppliesOther(leader, c1, m, i, x);
    c := Another(steps + [SendProbe(0)], c1, DeliverAppendAsk(m));
    more := [SendProbe(0), DeliverAppendAsk(m)];
    assert steps + [SendProbe(0)] + [DeliverAppendAsk(m)] == steps + more;
  }

  /** One more step of a run. */
  lemma Another(steps: seq<Step>, c: Cluster, s: Step) returns (d: Cluster)
    requires Run(PEERS, steps) == Some(c) && Enabled(c, s) && Linked(c)
    ensures Run(PEERS, steps + [s]) == Some(d) && d == After(c, s) && IsRun(PEERS, steps + [s]) && Linked(d)
  {
    hide After, Enabled, ClusterInv, Init, Linked;
    d := After(c, s);
    assert (steps + [s])[..|steps + [s]| - 1] == steps;
    PeersAre();
    RunInv(PEERS, steps + [s]);
    RunPeers(PEERS, steps + [s]);
    InvLive(d);
  }

  lemma ProbeTaken(c: Cluster, log: Log, req: R.AppendRequest, second: Log)
    requires Poised(c, log, req, second) && Linked(c)
    ensures var d := After(c, SendProbe(0));
      d.nodes == c.nodes && d.applied == c.applied && d.restarted == c.restarted && AppendAsk(2, Probe(0), req) in d.net
  {
    hide R.ProbeRequest, AfterStartElection, AfterPollPeer, AfterFinishElection, AfterVoteAsk, AfterAppendAsk, AfterPropose,
      AfterSendAppend, AfterAppendAnswer, AfterEndProbe, AfterRestart, AppliedTo;
  }

  lemma AppliesOther(leader: Log, c: Cluster, m: Message, i: nat, x: Entry)
    requires Linked(c) && m in c.net && m.AppendAsk? && m.to == 2 && 2 in c.nodes
    requires IsProbe(leader, m.areq) && m.areq.prevIndex <= i < m.areq.leaderCommit
    requires var n := c.nodes[2];
      n.id == 2 && n.log == leader[..i] + [x] && n.commitIndex == n.lastApplied == 0 && n.term <= m.areq.term
    ensures Enabled(c, DeliverAppendAsk(m))
    ensures var d := After(c, DeliverAppendAsk(m));
      c.applied <= d.applied && d.restarted == c.restarted && Applied(2, i + 1, x) in d.applied
  {
    hide R.OnAppendRequest, Accept, HeardTerm, TermsRise;
    CommitsOther(leader, c.nodes[2], m.areq, i, x);
  }

  lemma CommitsOther(leader: Log, n: R.Node, req: R.AppendRequest, i: nat, x: Entry)
    requires IsProbe(leader, req) && req.prevIndex <= i < req.leaderCommit
    requires n.log == leader[..i] + [x] && n.commitIndex == n.lastApplied == 0 && n.term <= req.term
    ensures var n' := R.OnAppendRequest(n, req).0;
      n'.id == n.id && n'.log == n.log && n'.lastApplied == i + 1 && n'.log[i] == x
  {
    hide R.ApplyCommitted, TermsRise;
    assert req.prevIndex > 0 ==> n.log[req.prevIndex - 1] == leader[req.prevIndex - 1];
    assert R.PrevMatches(n.log, req);
    AppliesAll(R.Follow(n, req).(commitIndex := i + 1));
  }

  lemma Turned(log: Log, t: nat, i: nat, x: Entry)
    requires i < |log| && x.term != log[i].term
    ensures i < Below(log, t) ==> TurnsDown(log, t, log[..i] + [x])
  {
  }

  lemma Misled(leader: Log, n: R.Node, req: R.AppendRequest, i: nat, x: Entry)
    requires IsProbe(leader, req) && req.prevIndex <= i < req.leaderCommit && x != leader[i]
    requires n.log == leader[..i] + [x] && n.commitIndex == 0 && n.term <= req.term
    ensures !CommitsOnlyLeaders(leader, n, req)
  {
    hide R.ApplyCommitted, TermsRise;
    assert n.log[..i] == leader[..i];
    assert req.prevIndex > 0 ==> n.log[req.prevIndex - 1] == leader[req.prevIndex - 1];
    assert R.PrevMatches(n.log, req);
    assert n.log[i] == x;
  }

  /** A claim is safe if and only if it misleads no run whose other claims are safe. The leader can
      check the condition on its own log before it sends. */
  lemma ClaimSafeIff(leader: Log, req: R.AppendRequest)
    requires IsProbe(leader, req)
    ensures SafeClaim(leader, req) <==> !exists peers, steps, r :: Misleads(peers, steps, r, leader, req)
  {
    hide Misleads, SafeClaim, IsProbe;
    if SafeClaim(leader, req) {
      forall peers, steps, r ensures !Misleads(peers, steps, r, leader, req) {
        SafeClaimIsSafe(peers, steps, r, leader, req);
      }
    } else {
      var steps := UnsafeClaimMisleads(leader, req);
    }
  }

  // ----- Every probe is of that kind

  lemma SoundRises(h: History, log: Log, t: nat)
    requires Inv(h) && Sound(h.ledger, log) && TermsBelow(log, t + 1)
    ensures TermsRise(log, t)
  {
    forall i, j | 0 <= i <= j < |log| ensures 0 < log[i].term <= log[j].term {
      assert Backed(h.ledger, log, i) && Backed(h.ledger, log, j);
      assert LedgerOk(h, log[i].term) && LedgerOk(h, log[j].term);
      TermsNeverFall(h, log, i, j);
    }
  }

  /** In every run whose claims are safe, whatever a leader may send as a probe is one in this sense. */
  lemma ReachableProbe(peers: seq<C.NodeId>, steps: seq<Step>, n: C.NodeId, p: C.NodeId)
    requires IsRun(peers, steps) && CoveredRun(peers, steps)
    requires var c := Run(peers, steps).value;
      n in c.nodes && c.nodes[n].role == R.Leader && p in c.nodes[n].nextIndex && CanAddress(c.nodes[n], p)
    ensures var node := Run(peers, steps).value.nodes[n]; IsProbe(node.log, R.ProbeRequest(node, p))
  {
    hide Run, CoveredRun, ClusterInv, SafeInv, TermsRise, Inv, NodeFits;
    RunInv(peers, steps);
    RunSafe(peers, steps);
    var c := Run(peers, steps).value;
    AtNode(c, n);
    CommitWithinLog(c, n);
    LeaderNext(c, n, p);
    LeaderRising(c.history, c.nodes[n]);
    ProbeIs(c.nodes[n], p);
  }

  lemma LeaderRising(h: History, n: R.Node)
    requires Inv(h) && NodeFits(h, n) && n.role == R.Leader
    ensures n.term > 0 && TermsRise(n.log, n.term)
  {
    assert LedgerOk(h, n.term) && NodeOk(h, n.id);
    SoundRises(h, n.log, n.term);
  }
}
