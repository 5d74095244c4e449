/** Building blocks for runs of a cluster of three: elections, proposals, backing off and shipping a
    log, each with what it does to the nodes. */
module RaftBuild {
  import opened ClusterConfig
  import opened Logs
  import opened Options
  import opened QuorumIndex
  import opened RaftHistory
  import opened RaftCluster
  import opened RaftInvariant
  import opened RaftCommit
  import opened RaftSafety
  import Store
  import R = RaftSteps

  const PEERS: seq<NodeId> := [1, 2, 3]

  lemma PeersAre()
    ensures forall p :: p in PEERS <==> p == 1 || p == 2 || p == 3
    ensures Distinct(PEERS) && 0 !in PEERS && Majority(PEERS) == 2 && Ids(PEERS) == {1, 2, 3}
  {
    assert PEERS[0] == 1 && PEERS[1] == 2 && PEERS[2] == 3;
  }

  /** `steps` make only safe claims and lead to `c`. */
  ghost predicate Live(steps: seq<Step>, c: Cluster) {
    && Run(PEERS, steps) == Some(c) && CoveredRun(PEERS, steps)
    && Linked(c) && c.peers == PEERS && c.nodes.Keys == {1, 2, 3}
  }

  /** What building steps leave alone. */
  ghost predicate Calm(c: Cluster, d: Cluster) {
    && d.peers == c.peers && d.rounds == c.rounds && d.restarted == c.restarted
    && c.net <= d.net && c.proposals <= d.proposals && c.applied <= d.applied && c.history.commits <= d.history.commits
  }

  /** The part of a node that elections do not touch. */
  ghost predicate Same(a: R.Node, b: R.Node) {
    b.id == a.id && b.log == a.log && b.commitIndex == a.commitIndex && b.lastApplied == a.lastApplied && b.kv == a.kv
  }

  lemma Do(steps: seq<Step>, c: Cluster, s: Step) returns (steps': seq<Step>, d: Cluster)
    requires Live(steps, c) && Enabled(c, s) && Covered(c, s)
    ensures Live(steps', d) && d == After(c, s)
  {
    hide After, Enabled, Covered, ClusterInv, Init, Linked;
    steps', d := steps + [s], After(c, s);
    assert steps'[..|steps'| - 1] == steps;
    PeersAre();
    RunInv(PEERS, steps');
    RunPeers(PEERS, steps');
    InvLive(d);
  }

  lemma InvLive(c: Cluster)
    requires ClusterInv(c) && c.peers == PEERS
    ensures Linked(c) && c.nodes.Keys == {1, 2, 3}
  {
    PeersAre();
  }

  lemma {:induction false} RunPeers(peers: seq<NodeId>, steps: seq<Step>)
    requires Run(peers, steps).Some?
    ensures Run(peers, steps).value.peers == peers
    decreases |steps|
  {
    hide Enabled, After;
    if steps != [] {
      var before, s := steps[..|steps| - 1], steps[|steps| - 1];
      RunPeers(peers, before);
      StepPeers(Run(peers, before).value, s);
    }
  }

  lemma StepPeers(c: Cluster, s: Step)
    requires Enabled(c, s) && Linked(c)
    ensures After(c, s).peers == c.peers
  {
    hide R.OnAppendRequest, R.OnVoteRequest, R.OnAppendResponse, R.OnProbeResponse, R.ReplicateRequest, R.ProbeRequest, NewlyApplied,
      Without, Supporters, Accept, Cast, HeardTerm, Bid, Elect, Extend, Record, RaiseTerm;
  }

  lemma Begin() returns (steps: seq<Step>, c: Cluster)
    ensures Live(steps, c) && c == Init(PEERS)
    ensures forall n | n in c.nodes :: c.nodes[n] == R.Fresh(n)
    ensures c.campaigns == map[] && c.rounds == map[] && c.restarted == {}
  {
    steps, c := [], Init(PEERS);
    PeersAre();
  }

  lemma LiveRuns(steps: seq<Step>, c: Cluster)
    requires Live(steps, c)
    ensures IsRun(PEERS, steps) && CoveredRun(PEERS, steps) && Run(PEERS, steps) == Some(c)
  {
    PeersAre();
  }

  // ----- Elections

  lemma StartEffect(c: Cluster, n: NodeId)
    requires Enabled(c, StartElection(n)) && Linked(c)
    ensures var d, node := After(c, StartElection(n)), R.StartElection(c.nodes[n]);
      && Calm(c, d) && d.nodes == c.nodes[n := node] && d.campaigns == c.campaigns[n := Campaign(node.term, 0, 1, {n})]
      && forall p | p in c.peers && p != n :: VoteAsk(p, R.CampaignRequest(node)) in d.net
  {
  }

  lemma DoStart(steps: seq<Step>, c: Cluster, n: NodeId) returns (steps': seq<Step>, d: Cluster)
    requires Live(steps, c) && n in c.nodes && n !in c.campaigns
    ensures Live(steps', d) && Calm(c, d) && d.nodes == c.nodes[n := R.StartElection(c.nodes[n])]
    ensures d.campaigns == c.campaigns[n := Campaign(c.nodes[n].term + 1, 0, 1, {n})]
    ensures forall p | p in {1, 2, 3} && p != n :: VoteAsk(p, R.CampaignRequest(d.nodes[n])) in d.net
  {
    hide After;
    PeersAre();
    StartEffect(c, n);
    steps', d := Do(steps, c, StartElection(n));
  }

  lemma VoteEffect(c: Cluster, n: NodeId, req: R.VoteRequest)
    requires VoteAsk(n, req) in c.net && n in c.nodes && Linked(c)
    ensures Enabled(c, DeliverVoteAsk(VoteAsk(n, req)))
    ensures var d, (node, resp) := After(c, DeliverVoteAsk(VoteAsk(n, req))), R.OnVoteRequest(c.nodes[n], req);
      && Calm(c, d) && d.nodes == c.nodes[n := node] && d.campaigns == c.campaigns && VoteAnswer(n, req, resp) in d.net
  {
    hide R.OnVoteRequest;
  }

  /** A node that is behind in term and not ahead in its log gives its vote. */
  lemma DoVote(steps: seq<Step>, c: Cluster, v: NodeId, req: R.VoteRequest) returns (steps': seq<Step>, d: Cluster)
    requires Live(steps, c) && v in c.nodes && VoteAsk(v, req) in c.net && c.nodes[v].term < req.term
    requires req.lastLogTerm > LastTerm(c.nodes[v].log)
      || (req.lastLogTerm == LastTerm(c.nodes[v].log) && req.lastLogIndex >= |c.nodes[v].log|)
    ensures Live(steps', d) && Calm(c, d) && d.campaigns == c.campaigns
    ensures d.nodes == c.nodes[v := c.nodes[v].(term := req.term, votedFor := req.candidate, role := R.Follower, leaderId := 0)]
    ensures VoteAnswer(v, req, R.VoteResponse(req.term, true)) in d.net
  {
    hide After, R.OnVoteRequest;
    Votes(c.nodes[v], req);
    VoteEffect(c, v, req);
    steps', d := Do(steps, c, DeliverVoteAsk(VoteAsk(v, req)));
  }

  lemma Votes(node: R.Node, req: R.VoteRequest)
    requires node.term < req.term
    requires req.lastLogTerm > LastTerm(node.log) || (req.lastLogTerm == LastTerm(node.log) && req.lastLogIndex >= |node.log|)
    ensures R.OnVoteRequest(node, req) ==
      (node.(term := req.term, votedFor := req.candidate, role := R.Follower, leaderId := 0), R.VoteResponse(req.term, true))
  {
  }

  lemma SkipEffect(c: Cluster, n: NodeId)
    requires Enabled(c, PollPeer(n, None)) && Linked(c)
    ensures var d := After(c, PollPeer(n, None));
      && Calm(c, d) && d.nodes == c.nodes
      && d.campaigns == c.campaigns[n := c.campaigns[n].(next := c.campaigns[n].next + 1)]
  {
  }

  lemma DoSkip(steps: seq<Step>, c: Cluster, n: NodeId) returns (steps': seq<Step>, d: Cluster)
    requires Live(steps, c) && n in c.nodes && n in c.campaigns && c.campaigns[n].next < 3
    ensures Live(steps', d) && Calm(c, d) && d.nodes == c.nodes
    ensures d.campaigns == c.campaigns[n := c.campaigns[n].(next := c.campaigns[n].next + 1)]
  {
    hide After;
    SkipEffect(c, n);
    steps', d := Do(steps, c, PollPeer(n, None));
  }

  lemma CountEffect(c: Cluster, n: NodeId, m: Message)
    requires Enabled(c, PollPeer(n, Some(m))) && Linked(c) && m.vresp.granted && m.vresp.term <= c.nodes[n].term
    requires c.nodes[n].role == R.Candidate && c.nodes[n].term == c.campaigns[n].term
    ensures var d := After(c, PollPeer(n, Some(m)));
      && Calm(c, d) && d.nodes == c.nodes
      && d.campaigns == c.campaigns[n := Campaign(c.campaigns[n].term, c.campaigns[n].next + 1, c.campaigns[n].votes + 1,
           c.campaigns[n].granted + {m.from})]
  {
  }

  lemma DoCount(steps: seq<Step>, c: Cluster, n: NodeId, m: Message) returns (steps': seq<Step>, d: Cluster)
    requires Live(steps, c) && n in c.nodes && n in c.campaigns && c.campaigns[n].next < 3
    requires m in c.net && m.VoteAnswer? && m.from == PEERS[c.campaigns[n].next] != n && m.vreq.candidate == n
    requires c.nodes[n].role == R.Candidate && m.vreq.term == c.nodes[n].term == c.campaigns[n].term
    requires m.vresp == R.VoteResponse(c.nodes[n].term, true)
    ensures Live(steps', d) && Calm(c, d) && d.nodes == c.nodes
    ensures d.campaigns == c.campaigns[n := Campaign(c.campaigns[n].term, c.campaigns[n].next + 1, c.campaigns[n].votes + 1,
              c.campaigns[n].granted + {m.from})]
  {
    hide After;
    CountEffect(c, n, m);
    steps', d := Do(steps, c, PollPeer(n, Some(m)));
  }

  lemma FinishEffect(c: Cluster, n: NodeId)
    requires Enabled(c, FinishElection(n)) && Linked(c)
    requires c.nodes[n].role == R.Candidate && c.nodes[n].term == c.campaigns[n].term
    ensures var d := After(c, FinishElection(n));
      && Calm(c, d) && d.campaigns == Without(c.campaigns, n)
      && d.nodes == if c.campaigns[n].votes >= Majority(c.peers) then c.nodes[n := R.BecomeLeader(c.nodes[n], c.peers)] else c.nodes
  {
    hide Without, R.BecomeLeader;
  }

  lemma DoFinish(steps: seq<Step>, c: Cluster, n: NodeId) returns (steps': seq<Step>, d: Cluster)
    requires Live(steps, c) && n in c.nodes && n in c.campaigns && c.campaigns == map[n := c.campaigns[n]] && c.campaigns[n].next == 3
    requires c.nodes[n].role == R.Candidate && c.nodes[n].term == c.campaigns[n].term
    ensures Live(steps', d) && Calm(c, d) && d.campaigns == map[]
    ensures d.nodes == if c.campaigns[n].votes >= 2 then c.nodes[n := R.BecomeLeader(c.nodes[n], PEERS)] else c.nodes
  {
    hide After, Without, R.BecomeLeader;
    PeersAre();
    FinishEffect(c, n);
    Alone(map[], n, c.campaigns[n]);
    steps', d := Do(steps, c, FinishElection(n));
  }

  lemma Alone(campaigns: map<NodeId, Campaign>, n: NodeId, x: Campaign)
    requires campaigns == map[]
    ensures Without(campaigns[n := x], n) == map[]
  {
  }

  /** A campaign in which every reply is lost: the term goes up by one. */
  lemma Fails(steps: seq<Step>, c: Cluster, n: NodeId) returns (steps': seq<Step>, d: Cluster)
    requires Live(steps, c) && n in c.nodes && c.campaigns == map[]
    ensures Live(steps', d) && Calm(c, d) && d.campaigns == map[] && d.nodes == c.nodes[n := R.StartElection(c.nodes[n])]
  {
    hide Live;
    steps', d := DoStart(steps, c, n);
    steps', d := DoSkip(steps', d, n);
    steps', d := DoSkip(steps', d, n);
    steps', d := DoSkip(steps', d, n);
    steps', d := DoFinish(steps', d, n);
  }

  lemma LiveMeans(steps: seq<Step>, c: Cluster)
    requires Live(steps, c)
    ensures Linked(c) && c.peers == PEERS && c.nodes.Keys == {1, 2, 3} && |c.peers| == 3
  {
  }

  /** Failed campaigns up to a given term. */
  lemma {:induction false} Raise(steps: seq<Step>, c: Cluster, n: NodeId, t: nat) returns (steps': seq<Step>, d: Cluster)
    requires Live(steps, c) && n in c.nodes && c.campaigns == map[] && c.nodes[n].term <= t
    ensures Live(steps', d) && Calm(c, d) && d.campaigns == map[] && n in d.nodes
    ensures Same(c.nodes[n], d.nodes[n]) && d.nodes[n].term == t && d.nodes == c.nodes[n := d.nodes[n]]
    decreases t - c.nodes[n].term
  {
    hide Live;
    if c.nodes[n].term == t {
      steps', d := steps, c;
    } else {
      steps', d := Fails(steps, c, n);
      steps', d := Raise(steps', d, n, t);
    }
  }

  /** A candidate `n` to whom `v` has given its vote, with the peers before `next` polled. */
  ghost predicate Running(c: Cluster, n: NodeId, v: NodeId, next: nat) {
    && n in c.nodes && v in c.nodes && n != v && next <= 3
    && c.nodes[n].role == R.Candidate && c.nodes[n].id == n
    && n in c.campaigns && c.campaigns == map[n := c.campaigns[n]]
    && c.campaigns[n].term == c.nodes[n].term && c.campaigns[n].next == next
    && c.campaigns[n].votes == (if v < next + 1 then 2 else 1)
    && VoteAnswer(v, R.CampaignRequest(c.nodes[n]), R.VoteResponse(c.nodes[n].term, true)) in c.net
  }

  lemma Poll(steps: seq<Step>, c: Cluster, n: NodeId, v: NodeId, next: nat) returns (steps': seq<Step>, d: Cluster)
    requires Live(steps, c) && Running(c, n, v, next) && next < 3
    ensures Live(steps', d) && Calm(c, d) && d.nodes == c.nodes && Running(d, n, v, next + 1)
  {
    hide Live;
    assert PEERS[next] == next + 1;
    if v == next + 1 {
      steps', d := DoCount(steps, c, n, VoteAnswer(v, R.CampaignRequest(c.nodes[n]), R.VoteResponse(c.nodes[n].term, true)));
    } else {
      steps', d := DoSkip(steps, c, n);
    }
  }

  /** It wins. */
  lemma Wins(steps: seq<Step>, c: Cluster, n: NodeId, v: NodeId) returns (steps': seq<Step>, d: Cluster)
    requires Live(steps, c) && Running(c, n, v, 0)
    ensures Live(steps', d) && Calm(c, d) && d.campaigns == map[]
    ensures d.nodes == c.nodes[n := R.BecomeLeader(c.nodes[n], PEERS)]
  {
    hide Live, R.BecomeLeader;
    steps', d := Poll(steps, c, n, v, 0);
    steps', d := Poll(steps', d, n, v, 1);
    steps', d := Poll(steps', d, n, v, 2);
    LiveMeans(steps', d);
    steps', d := DoFinish(steps', d, n);
  }

  /** `n` leads term `t` and has addressed no one yet. */
  ghost predicate NewLeader(n: R.Node, t: nat) {
    && n.role == R.Leader && n.term == t
    && forall p | p in {1, 2, 3} && p != n.id ::
      p in n.nextIndex && n.nextIndex[p] == |n.log| + 1 && p in n.matchIndex && n.matchIndex[p] == 0
  }

  lemma BecomesNew(n: R.Node)
    ensures NewLeader(R.BecomeLeader(n, PEERS), n.term) && Same(n, R.BecomeLeader(n, PEERS))
  {
    PeersAre();
  }

  /** `n` campaigns in the next term and `v` gives it its vote. */
  lemma Campaigns(steps: seq<Step>, c: Cluster, n: NodeId, v: NodeId) returns (steps': seq<Step>, d: Cluster)
    requires Live(steps, c) && n in c.nodes && v in c.nodes && n != v && c.campaigns == map[] && c.nodes[n].id == n
    requires c.nodes[v].term <= c.nodes[n].term && UpToDate(c.nodes[n].log, c.nodes[v].log)
    ensures Live(steps', d) && Calm(c, d) && Running(d, n, v, 0)
    ensures Same(c.nodes[n], d.nodes[n]) && d.nodes[n].term == c.nodes[n].term + 1
    ensures Same(c.nodes[v], d.nodes[v]) && d.nodes[v].term == c.nodes[n].term + 1
    ensures d.nodes == c.nodes[n := d.nodes[n]][v := d.nodes[v]]
  {
    hide Live;
    LiveMeans(steps, c);
    steps', d := DoStart(steps, c, n);
    steps', d := DoVote(steps', d, v, R.CampaignRequest(d.nodes[n]));
  }

  /** `n` becomes leader of term `t` on the vote of `v`. */
  lemma Elected(steps: seq<Step>, c: Cluster, n: NodeId, v: NodeId, t: nat) returns (steps': seq<Step>, d: Cluster)
    requires Live(steps, c) && n in c.nodes && v in c.nodes && n != v && c.campaigns == map[] && c.nodes[n].id == n
    requires c.nodes[n].term < t && c.nodes[v].term < t && UpToDate(c.nodes[n].log, c.nodes[v].log)
    ensures Live(steps', d) && Calm(c, d) && d.campaigns == map[] && n in d.nodes && v in d.nodes && NewLeader(d.nodes[n], t)
    ensures Same(c.nodes[n], d.nodes[n]) && Same(c.nodes[v], d.nodes[v]) && d.nodes[v].term == t
    ensures d.nodes == c.nodes[n := d.nodes[n]][v := d.nodes[v]]
  {
    hide Live, NewLeader, R.BecomeLeader, Running;
    var d1, d2;
    steps', d1 := Raise(steps, c, n, t - 1);
    steps', d2 := Campaigns(steps', d1, n, v);
    BecomesNew(d2.nodes[n]);
    steps', d := Wins(steps', d2, n, v);
    assert d.nodes == c.nodes[n := d.nodes[n]][v := d.nodes[v]];
  }

  // ----- Writing a log

  lemma DoPropose(steps: seq<Step>, c: Cluster, n: NodeId, e: Entry) returns (steps': seq<Step>, d: Cluster)
    requires Live(steps, c) && n in c.nodes && c.nodes[n].role == R.Leader && e.term == c.nodes[n].term
    ensures Live(steps', d) && Calm(c, d) && d.campaigns == c.campaigns
    ensures d.nodes == c.nodes[n := c.nodes[n].(log := c.nodes[n].log + [e])]
    ensures Proposal(n, |c.nodes[n].log| + 1, e) in d.proposals
  {
    hide After;
    ProposeEffect(c, n, e);
    steps', d := Do(steps, c, Propose(n, e.op, e.key, e.value));
  }

  lemma ProposeEffect(c: Cluster, n: NodeId, e: Entry)
    requires Enabled(c, Propose(n, e.op, e.key, e.value)) && Linked(c) && e.term == c.nodes[n].term
    ensures var d := After(c, Propose(n, e.op, e.key, e.value));
      && Calm(c, d) && d.campaigns == c.campaigns && d.nodes == c.nodes[n := c.nodes[n].(log := c.nodes[n].log + [e])]
      && Proposal(n, |c.nodes[n].log| + 1, e) in d.proposals
  {
  }

  /** Terms in a log never fall, and lie between 1 and `t`. */
  ghost predicate TermsRise(log: Log, t: nat) {
    && (forall i | 0 <= i < |log| :: 0 < log[i].term <= t)
    && (forall i, j | 0 <= i <= j < |log| :: log[i].term <= log[j].term)
  }

  /** How many entries at the front are of terms below `t`. */
  function Below(log: Log, t: nat): (k: nat)
    ensures k <= |log| && (k < |log| ==> log[k].term >= t) && forall i | 0 <= i < k :: log[i].term < t
  {
    if log == [] || log[0].term >= t then 0 else 1 + Below(log[1..], t)
  }

  lemma BelowIs(log: Log, t: nat, k: nat)
    requires k <= |log| && (k < |log| ==> log[k].term >= t) && forall i | 0 <= i < k :: log[i].term < t
    ensures Below(log, t) == k
  {
  }

  /** Everyone is at most in term `t`. */
  ghost predicate Clock(c: Cluster, t: nat) {
    forall n | n in c.nodes :: c.nodes[n].id == n && c.nodes[n].term <= t
  }

  /** `n` leads its term with the log of that term so far, and addresses `p` past what it inherited. */
  ghost predicate Writes(n: R.Node, p: NodeId) {
    && n.role == R.Leader && p in n.nextIndex && n.nextIndex[p] == Below(n.log, n.term) + 1
    && p in n.matchIndex && n.matchIndex[p] == 0
  }

  /** Who may write an entry of term `t`: the leader of that term, or anyone if the term is new. */
  ghost predicate MayWrite(c: Cluster, n: NodeId, p: NodeId, t: nat) {
    n in c.nodes && ((Writes(c.nodes[n], p) && c.nodes[n].term == t && Clock(c, t)) || (LastTerm(c.nodes[n].log) < t && Clock(c, t - 1)))
  }

  /** What a longer stretch of writing by `n` with the votes of `v` leaves. */
  ghost predicate Wrote(c: Cluster, d: Cluster, n: NodeId, v: NodeId, log: Log) {
    && n in c.nodes && v in c.nodes && n in d.nodes && v in d.nodes && n != v
    && Calm(c, d) && d.campaigns == map[]
    && d.nodes[n].log == log && Same(c.nodes[n].(log := log), d.nodes[n]) && Same(c.nodes[v], d.nodes[v])
    && d.nodes == c.nodes[n := d.nodes[n]][v := d.nodes[v]]
  }

  lemma PrefixUpToDate(log: Log, k: nat, t: nat)
    requires TermsRise(log, t) && k <= |log|
    ensures UpToDate(log, log[..k])
  {
  }

  /** `n` comes to lead the term, if it does not lead it yet. */
  lemma Takes(steps: seq<Step>, c: Cluster, n: NodeId, v: NodeId, p: NodeId, t: nat) returns (steps': seq<Step>, d: Cluster)
    requires Live(steps, c) && n in c.nodes && v in c.nodes && n != v && p in {1, 2, 3} && p != n && c.campaigns == map[]
    requires MayWrite(c, n, p, t) && TermsRise(c.nodes[n].log, t) && c.nodes[v].log <= c.nodes[n].log
    ensures Live(steps', d) && Wrote(c, d, n, v, c.nodes[n].log)
    ensures Writes(d.nodes[n], p) && d.nodes[n].term == t && Clock(d, t)
  {
    hide Live, Clock, Writes, NewLeader, TermsRise, UpToDate;
    if Writes(c.nodes[n], p) && c.nodes[n].term == t && Clock(c, t) {
      steps', d := steps, c;
    } else {
      var log := c.nodes[n].log;
      ClockAt(c, n, t - 1);
      ClockAt(c, v, t - 1);
      assert c.nodes[v].log == log[..|c.nodes[v].log|];
      PrefixUpToDate(log, |c.nodes[v].log|, t);
      steps', d := Elected(steps, c, n, v, t);
      NewWrites(d.nodes[n], p, t);
      ClockNext(c, d, n, v, t);
    }
  }

  lemma ClockAt(c: Cluster, n: NodeId, t: nat)
    requires Clock(c, t) && n in c.nodes
    ensures c.nodes[n].id == n && c.nodes[n].term <= t
  {
  }

  lemma NewWrites(n: R.Node, p: NodeId, t: nat)
    requires NewLeader(n, t) && p in {1, 2, 3} && p != n.id && TermsRise(n.log, t) && LastTerm(n.log) < t
    ensures Writes(n, p) && n.term == t
  {
    BelowAll(n.log, t);
  }

  lemma ClockNext(c: Cluster, d: Cluster, n: NodeId, v: NodeId, t: nat)
    requires n in d.nodes && v in d.nodes && d.nodes == c.nodes[n := d.nodes[n]][v := d.nodes[v]] && t > 0 && Clock(c, t - 1)
    requires d.nodes[n].id == n && d.nodes[v].id == v && d.nodes[n].term <= t && d.nodes[v].term <= t
    ensures Clock(d, t)
  {
  }

  lemma BelowAll(log: Log, t: nat)
    requires TermsRise(log, t) && (log == [] || LastTerm(log) < t)
    ensures Below(log, t) == |log|
  {
    BelowIs(log, t, |log|);
  }

  /** `n` writes the next entry of `log`. */
  lemma WritesOne(steps: seq<Step>, c: Cluster, n: NodeId, v: NodeId, p: NodeId, log: Log)
      returns (steps': seq<Step>, d: Cluster)
    requires Live(steps, c) && n in c.nodes && v in c.nodes && n != v && p in {1, 2, 3} && p != n && c.campaigns == map[]
    requires c.nodes[n].log < log && c.nodes[v].log <= c.nodes[n].log && TermsRise(log, LastTerm(log))
    requires MayWrite(c, n, p, log[|c.nodes[n].log|].term)
    ensures Live(steps', d) && Wrote(c, d, n, v, log[..|c.nodes[n].log| + 1])
    ensures var t := log[|c.nodes[n].log|].term; Writes(d.nodes[n], p) && d.nodes[n].term == t && Clock(d, t)
  {
    hide Live, Clock, Writes, TermsRise, MayWrite;
    var k := |c.nodes[n].log|;
    var e := log[k];
    assert log[..k] == c.nodes[n].log && log[..k + 1] == log[..k] + [e];
    PrefixRises(log, k);
    var d1;
    steps', d1 := Takes(steps, c, n, v, p, e.term);
    StillWrites(d1.nodes[n], p, e);
    ClockAt(d1, n, e.term);
    ClockAt(d1, v, e.term);
    steps', d := DoPropose(steps', d1, n, e);
    ClockSame(d1, d, n, e.term);
    assert d.nodes == c.nodes[n := d.nodes[n]][v := d.nodes[v]];
  }

  lemma PrefixRises(log: Log, k: nat)
    requires k < |log| && TermsRise(log, LastTerm(log))
    ensures TermsRise(log[..k], log[k].term)
  {
  }

  lemma StillWrites(n: R.Node, p: NodeId, e: Entry)
    requires Writes(n, p) && e.term == n.term
    ensures n.role == R.Leader && Writes(n.(log := n.log + [e]), p)
  {
    BelowNext(n.log, e);
  }

  lemma ClockSame(c: Cluster, d: Cluster, n: NodeId, t: nat)
    requires n in c.nodes && n in d.nodes && Clock(c, t)
    requires d.nodes == c.nodes[n := d.nodes[n]] && d.nodes[n].id == n && d.nodes[n].term <= t
    ensures Clock(d, t)
  {
  }

  lemma BelowNext(log: Log, e: Entry)
    ensures Below(log + [e], e.term) == Below(log, e.term)
  {
    var k := Below(log, e.term);
    BelowIs(log + [e], e.term, k);
  }

  lemma NextMay(c: Cluster, n: NodeId, p: NodeId, log: Log, k: nat)
    requires n in c.nodes && k + 1 < |log| && c.nodes[n].log == log[..k + 1] && TermsRise(log, LastTerm(log))
    requires Writes(c.nodes[n], p) && c.nodes[n].term == log[k].term && Clock(c, log[k].term)
    ensures MayWrite(c, n, p, log[k + 1].term)
  {
    hide Writes;
    assert log[k].term <= log[k + 1].term;
  }

  /** `n` writes `log` up to its end. */
  lemma {:induction false} WritesAll(steps: seq<Step>, c: Cluster, n: NodeId, v: NodeId, p: NodeId, log: Log)
      returns (steps': seq<Step>, d: Cluster)
    requires Live(steps, c) && n in c.nodes && v in c.nodes && n != v && p in {1, 2, 3} && p != n && c.campaigns == map[]
    requires c.nodes[n].log < log && c.nodes[v].log <= c.nodes[n].log && TermsRise(log, LastTerm(log))
    requires MayWrite(c, n, p, log[|c.nodes[n].log|].term)
    ensures Live(steps', d) && Wrote(c, d, n, v, log)
    ensures Writes(d.nodes[n], p) && d.nodes[n].term == LastTerm(log) && Clock(d, LastTerm(log))
    decreases |log| - |c.nodes[n].log|
  {
    hide Live, Clock, Writes, TermsRise;
    var k := |c.nodes[n].log|;
    var d1;
    steps', d1 := WritesOne(steps, c, n, v, p, log);
    if k + 1 < |log| {
      assert log[..k + 1] < log;
      NextMay(d1, n, p, log, k);
      steps', d := WritesAll(steps', d1, n, v, p, log);
      assert d.nodes == c.nodes[n := d.nodes[n]][v := d.nodes[v]];
    } else {
      assert log[..k + 1] == log;
      d := d1;
    }
  }

  lemma WritesMeans(n: R.Node, p: NodeId)
    requires Writes(n, p)
    ensures n.role == R.Leader && p in n.nextIndex && p in n.matchIndex && n.matchIndex[p] == 0
  {
  }

  lemma WritesSame(a: R.Node, b: R.Node, p: NodeId)
    requires Writes(a, p) && b.role == R.Leader && b.log == a.log && b.term == a.term
    requires p in b.nextIndex && p in b.matchIndex && b.nextIndex[p] == a.nextIndex[p] && b.matchIndex[p] == a.matchIndex[p]
    ensures Writes(b, p)
  {
  }


  // ----- Replication

  lemma LeaderIs(steps: seq<Step>, c: Cluster, n: NodeId, f: NodeId)
    requires Live(steps, c) && n in c.nodes && c.nodes[n].role == R.Leader && f in c.nodes && f != n
    ensures f in c.nodes[n].nextIndex && 1 <= c.nodes[n].nextIndex[f] <= |c.nodes[n].log| + 1 && f in c.nodes[n].matchIndex
    ensures CanAddress(c.nodes[n], f)
  {
    hide Run, CoveredRun, Inv;
    PeersAre();
    RunInv(PEERS, steps);
    AtNode(c, n);
  }

  lemma DoSend(steps: seq<Step>, c: Cluster, n: NodeId, f: NodeId) returns (steps': seq<Step>, d: Cluster)
    requires Live(steps, c) && n in c.nodes && c.nodes[n].role == R.Leader && f in c.nodes && f != n && CanAddress(c.nodes[n], f)
    ensures Live(steps', d) && Calm(c, d) && d.campaigns == c.campaigns && d.nodes == c.nodes
    ensures AppendAsk(f, Replicate, R.ReplicateRequest(c.nodes[n], f)) in d.net
  {
    hide R.ReplicateRequest, After;
    PeersAre();
    SendEffect(c, n, f);
    steps', d := Do(steps, c, SendAppend(n, f));
  }

  lemma SendEffect(c: Cluster, n: NodeId, f: NodeId)
    requires Enabled(c, SendAppend(n, f)) && Linked(c)
    ensures var d := After(c, SendAppend(n, f));
      && Calm(c, d) && d.campaigns == c.campaigns && d.nodes == c.nodes
      && AppendAsk(f, Replicate, R.ReplicateRequest(c.nodes[n], f)) in d.net
  {
    hide R.ReplicateRequest;
  }

  lemma DoDeliver(steps: seq<Step>, c: Cluster, m: Message) returns (steps': seq<Step>, d: Cluster)
    requires Live(steps, c) && m in c.net && m.AppendAsk? && m.to in c.nodes
    ensures Live(steps', d) && Calm(c, d) && d.campaigns == c.campaigns
    ensures d.nodes == c.nodes[m.to := R.OnAppendRequest(c.nodes[m.to], m.areq).0]
    ensures AppendAnswer(m.to, m.tag, m.areq, R.OnAppendRequest(c.nodes[m.to], m.areq).1) in d.net
  {
    hide R.OnAppendRequest, After;
    DeliverEffect(c, m);
    steps', d := Do(steps, c, DeliverAppendAsk(m));
  }

  lemma DeliverEffect(c: Cluster, m: Message)
    requires Enabled(c, DeliverAppendAsk(m)) && Linked(c)
    ensures var d, (node, resp) := After(c, DeliverAppendAsk(m)), R.OnAppendRequest(c.nodes[m.to], m.areq);
      && Calm(c, d) && d.campaigns == c.campaigns && d.nodes == c.nodes[m.to := node]
      && AppendAnswer(m.to, m.tag, m.areq, resp) in d.net
  {
    hide R.OnAppendRequest, NewlyApplied, Accept, HeardTerm;
    DeliverHistory(c, m);
  }

  lemma DeliverHistory(c: Cluster, m: Message)
    requires Enabled(c, DeliverAppendAsk(m)) && Linked(c)
    ensures After(c, DeliverAppendAsk(m)).history.commits == c.history.commits
  {
    hide R.OnAppendRequest, NewlyApplied;
  }

  lemma DoAnswer(steps: seq<Step>, c: Cluster, m: Message) returns (steps': seq<Step>, d: Cluster)
    requires Live(steps, c) && m in c.net && m.AppendAnswer? && m.tag == Replicate && m.areq.leader in c.nodes
    ensures Live(steps', d) && Calm(c, d) && d.campaigns == c.campaigns
    ensures var n := m.areq.leader;
      var node := R.OnAppendResponse(c.nodes[n], PEERS, m.from, m.areq, m.aresp);
      && d.nodes == c.nodes[n := node]
      && NewlyApplied(c.nodes[n], node) <= d.applied
      && (node.commitIndex > c.nodes[n].commitIndex ==> exists cm :: cm in d.history.commits && cm.index == node.commitIndex)
  {
    hide R.OnAppendResponse, After, Supporters, NewlyApplied;
    AnswerEffect(c, m);
    steps', d := Do(steps, c, DeliverAppendAnswer(m));
  }

  lemma AnswerEffect(c: Cluster, m: Message)
    requires Enabled(c, DeliverAppendAnswer(m)) && Linked(c)
    ensures var d, n := After(c, DeliverAppendAnswer(m)), m.areq.leader;
      var node := R.OnAppendResponse(c.nodes[n], c.peers, m.from, m.areq, m.aresp);
      && Calm(c, d) && d.campaigns == c.campaigns && d.nodes == c.nodes[n := node]
      && NewlyApplied(c.nodes[n], node) <= d.applied
      && (node.commitIndex > c.nodes[n].commitIndex ==> exists cm :: cm in d.history.commits && cm.index == node.commitIndex)
  {
    hide R.OnAppendResponse, NewlyApplied, Supporters;
    AnswerHistory(c, m);
  }

  /** `n` lowers its next index for `f` to `q + 1`, on one refusal that arrives as often as it takes. */
  lemma BacksOff(steps: seq<Step>, c: Cluster, n: NodeId, f: NodeId, q: nat) returns (steps': seq<Step>, d: Cluster)
    requires Live(steps, c) && n in c.nodes && f in c.nodes && n != f && Clock(c, c.nodes[n].term) && c.nodes[n].role == R.Leader
    requires CanAddress(c.nodes[n], f) && q < c.nodes[n].nextIndex[f]
    requires q + 1 < c.nodes[n].nextIndex[f] ==> !R.PrevMatches(c.nodes[f].log, R.ProbeRequest(c.nodes[n], f))
    ensures Live(steps', d) && Calm(c, d) && d.campaigns == c.campaigns && n in d.nodes && f in d.nodes
    ensures d.nodes[n] == c.nodes[n].(nextIndex := c.nodes[n].nextIndex[f := q + 1])
    ensures Same(c.nodes[f], d.nodes[f]) && Clock(d, c.nodes[n].term)
    ensures d.nodes == c.nodes[n := d.nodes[n]][f := d.nodes[f]]
  {
    hide Live, R.PrevMatches, R.ReplicateRequest, R.OnAppendRequest, Clock;
    var a, req := c.nodes[n], R.ReplicateRequest(c.nodes[n], f);
    ClockAt(c, n, a.term);
    ClockAt(c, f, a.term);
    if q + 1 == a.nextIndex[f] {
      assert a.nextIndex[f := q + 1] == a.nextIndex;
      steps', d := steps, c;
    } else {
      var d1;
      RequestIs(a, f);
      Refuses(c.nodes[f], req);
      steps', d1 := DoSend(steps, c, n, f);
      steps', d1 := DoDeliver(steps', d1, AppendAsk(f, Replicate, req));
      steps', d := Lowers(steps', d1, n, f, q, AppendAnswer(f, Replicate, req, R.AppendResponse(a.term, false)));
      ClockPair(c, d, n, f, a.term);
    }
  }

  lemma RequestIs(n: R.Node, f: NodeId)
    requires CanAddress(n, f)
    ensures var req, probe := R.ReplicateRequest(n, f), R.ProbeRequest(n, f);
      && req.term == n.term && req.leader == n.id && req.prevIndex == probe.prevIndex == n.nextIndex[f] - 1
      && req.leaderCommit == n.commitIndex && req.entries == R.EntriesFrom(n.log, n.nextIndex[f])
      && (0 < req.prevIndex <= |n.log| ==> req.prevTerm == n.log[req.prevIndex - 1].term)
      && forall log :: R.PrevMatches(log, req) == R.PrevMatches(log, probe)
  {
  }

  lemma Refuses(f: R.Node, req: R.AppendRequest)
    requires f.term <= req.term && !R.PrevMatches(f.log, req)
    ensures var (f', resp) := R.OnAppendRequest(f, req);
      Same(f, f') && f'.term == req.term && resp == R.AppendResponse(req.term, false)
  {
    hide R.PrevMatches, Merge, R.ApplyCommitted;
  }

  lemma ClockPair(c: Cluster, d: Cluster, n: NodeId, f: NodeId, t: nat)
    requires n in d.nodes && f in d.nodes && d.nodes == c.nodes[n := d.nodes[n]][f := d.nodes[f]] && Clock(c, t)
    requires d.nodes[n].id == n && d.nodes[f].id == f && d.nodes[n].term <= t && d.nodes[f].term <= t
    ensures Clock(d, t)
  {
  }

  lemma {:induction false} Lowers(steps: seq<Step>, c: Cluster, n: NodeId, f: NodeId, q: nat, m: Message)
      returns (steps': seq<Step>, d: Cluster)
    requires Live(steps, c) && n in c.nodes && f in c.nodes && c.nodes[n].role == R.Leader && f in c.nodes[n].nextIndex
    requires q < c.nodes[n].nextIndex[f] && m in c.net && m.AppendAnswer? && m.from == f && m.tag == Replicate
    requires m.areq.leader == n && m.areq.term == c.nodes[n].term && m.aresp == R.AppendResponse(c.nodes[n].term, false)
    ensures Live(steps', d) && Calm(c, d) && d.campaigns == c.campaigns && n in d.nodes
    ensures d.nodes[n] == c.nodes[n].(nextIndex := c.nodes[n].nextIndex[f := q + 1]) && d.nodes == c.nodes[n := d.nodes[n]]
    decreases c.nodes[n].nextIndex[f]
  {
    hide Live, R.AdvanceCommit;
    var a := c.nodes[n];
    if a.nextIndex[f] == q + 1 {
      assert a.nextIndex[f := q + 1] == a.nextIndex;
      steps', d := steps, c;
    } else {
      var d1;
      steps', d1 := DoAnswer(steps, c, m);
      assert d1.nodes[n] == a.(nextIndex := a.nextIndex[f := a.nextIndex[f] - 1]);
      steps', d := Lowers(steps', d1, n, f, q, m);
      assert a.nextIndex[f := a.nextIndex[f] - 1][f := q + 1] == a.nextIndex[f := q + 1];
    }
  }

  /** `n` sends its log from its next index on, and `f`, which holds all before that, takes it over. */
  lemma Ships(steps: seq<Step>, c: Cluster, n: NodeId, f: NodeId) returns (steps': seq<Step>, d: Cluster)
    requires Live(steps, c) && n in c.nodes && f in c.nodes && n != f && Clock(c, c.nodes[n].term) && c.nodes[n].role == R.Leader
    requires CanAddress(c.nodes[n], f) && c.nodes[f].log <= c.nodes[n].log && c.nodes[n].nextIndex[f] <= |c.nodes[f].log| + 1
    requires c.nodes[n].commitIndex <= |c.nodes[n].log|
    ensures Live(steps', d) && Calm(c, d) && d.campaigns == c.campaigns && n in d.nodes && f in d.nodes
    ensures d.nodes == c.nodes[f := d.nodes[f]] && d.nodes[f].log == c.nodes[n].log && d.nodes[f].id == f
    ensures d.nodes[f].commitIndex == Max(c.nodes[f].commitIndex, c.nodes[n].commitIndex) && Clock(d, c.nodes[n].term)
    ensures c.nodes[n].commitIndex <= c.nodes[f].commitIndex ==> d.nodes[f].lastApplied == c.nodes[f].lastApplied
    ensures AppendAnswer(f, Replicate, R.ReplicateRequest(c.nodes[n], f), R.AppendResponse(c.nodes[n].term, true)) in d.net
  {
    hide Live, R.PrevMatches, R.ReplicateRequest, R.OnAppendRequest, Clock;
    var a, req := c.nodes[n], R.ReplicateRequest(c.nodes[n], f);
    ClockAt(c, n, a.term);
    ClockAt(c, f, a.term);
    RequestIs(a, f);
    Adopts(c.nodes[f], a.log, req);
    var d1;
    steps', d1 := DoSend(steps, c, n, f);
    steps', d := DoDeliver(steps', d1, AppendAsk(f, Replicate, req));
    ClockSame(c, d, f, a.term);
  }

  lemma Adopts(f: R.Node, log: Log, req: R.AppendRequest)
    requires f.term <= req.term && f.log <= log && req.prevIndex <= |f.log| && req.leaderCommit <= |log|
    requires req.entries == R.EntriesFrom(log, req.prevIndex + 1) && (req.prevIndex > 0 ==> req.prevTerm == log[req.prevIndex - 1].term)
    ensures var (f', resp) := R.OnAppendRequest(f, req);
      && f'.log == log && f'.id == f.id && f'.term == req.term && resp == R.AppendResponse(req.term, true)
      && f'.commitIndex == Max(f.commitIndex, req.leaderCommit)
      && (req.leaderCommit <= f.commitIndex ==> f'.lastApplied == f.lastApplied)
  {
    hide Merge, R.ApplyCommitted;
    assert R.PrevMatches(f.log, req);
    assert req.entries == log[req.prevIndex..];
    MergeFollowsLeader(f.log, req.prevIndex, req.entries, log);
    assert log[..|log|] == log;
    var n1 := R.Follow(f, req);
    assert n1.log == f.log && n1.term == req.term && n1.commitIndex == f.commitIndex;
  }

  /** `n` brings `f`, which holds nothing, up to date from the start. */
  lemma ShipsAll(steps: seq<Step>, c: Cluster, n: NodeId, f: NodeId, p: NodeId) returns (steps': seq<Step>, d: Cluster)
    requires Live(steps, c) && n in c.nodes && f in c.nodes && n != f && p != f && Writes(c.nodes[n], p)
    requires Clock(c, c.nodes[n].term) && c.nodes[f].log == [] && c.nodes[n].commitIndex <= |c.nodes[n].log|
    ensures Live(steps', d) && Calm(c, d) && d.campaigns == c.campaigns && n in d.nodes && f in d.nodes
    ensures d.nodes[n] == c.nodes[n].(nextIndex := c.nodes[n].nextIndex[f := 1]) && Writes(d.nodes[n], p)
    ensures d.nodes[f].log == c.nodes[n].log && d.nodes[f].commitIndex == Max(c.nodes[f].commitIndex, c.nodes[n].commitIndex)
    ensures c.nodes[n].commitIndex <= c.nodes[f].commitIndex ==> d.nodes[f].lastApplied == c.nodes[f].lastApplied
    ensures d.nodes == c.nodes[n := d.nodes[n]][f := d.nodes[f]] && Clock(d, c.nodes[n].term)
    ensures AppendAnswer(f, Replicate, FullRequest(c.nodes[n]), R.AppendResponse(c.nodes[n].term, true)) in d.net
  {
    hide Live, Clock, R.ReplicateRequest, R.PrevMatches, R.ProbeRequest;
    LeaderIs(steps, c, n, f);
    NothingMatches(c.nodes[n], f);
    var d1;
    steps', d1 := BacksOff(steps, c, n, f, 0);
    RequestsAll(d1.nodes[n], f);
    steps', d := Ships(steps', d1, n, f);
  }

  /** The request that carries a whole log. */
  function FullRequest(n: R.Node): R.AppendRequest {
    R.AppendRequest(n.term, n.id, 0, 0, n.commitIndex, n.log)
  }

  lemma RequestsAll(n: R.Node, f: NodeId)
    requires f in n.nextIndex && n.nextIndex[f] == 1
    ensures R.ReplicateRequest(n, f) == FullRequest(n)
  {
    if n.log != [] { assert n.log[0..] == n.log; }
  }

  lemma NothingMatches(n: R.Node, f: NodeId)
    requires CanAddress(n, f)
    ensures n.nextIndex[f] > 1 ==> !R.PrevMatches([], R.ProbeRequest(n, f))
  {
  }

  // ----- Committing

  /** The reply of `f` completes a majority for the whole log of `n`. */
  lemma Commits(steps: seq<Step>, c: Cluster, n: NodeId, f: NodeId, w: NodeId, m: Message)
      returns (steps': seq<Step>, d: Cluster, cm: Commit)
    requires Live(steps, c) && n in c.nodes && c.nodes[n].role == R.Leader && c.nodes[n].id == n
    requires {n, f, w} == {1, 2, 3} && n != f && f != w && w != n
    requires m in c.net && m.AppendAnswer? && m.from == f && m.tag == Replicate && m.areq.leader == n
    requires m.areq.term == c.nodes[n].term && m.aresp == R.AppendResponse(c.nodes[n].term, true)
    requires m.areq.entries != [] && m.areq.prevIndex + |m.areq.entries| == |c.nodes[n].log|
    requires w in c.nodes[n].matchIndex && c.nodes[n].matchIndex[w] == 0
    requires LastTerm(c.nodes[n].log) == c.nodes[n].term && c.nodes[n].commitIndex < |c.nodes[n].log|
    ensures Live(steps', d) && Calm(c, d) && d.campaigns == c.campaigns && n in d.nodes && d.nodes == c.nodes[n := d.nodes[n]]
    ensures var a, b := c.nodes[n], d.nodes[n];
      && b.id == n && b.role == R.Leader && b.term == a.term && b.log == a.log && b.commitIndex == |a.log|
      && b.nextIndex == a.nextIndex[f := |a.log| + 1] && b.matchIndex == a.matchIndex[f := |a.log|]
    ensures cm in d.history.commits && cm.index == |c.nodes[n].log|
    ensures forall j | c.nodes[n].lastApplied <= j < |c.nodes[n].log| :: Applied(n, j + 1, c.nodes[n].log[j]) in d.applied
  {
    hide Live, R.AdvanceCommit;
    var a := c.nodes[n];
    var a1 := Matched(a, f, m.areq);
    AdvanceFrame(a1, PEERS);
    AdvancesTo(a1, f, w);
    steps', d := DoAnswer(steps, c, m);
    cm :| cm in d.history.commits && cm.index == |a.log|;
  }

  lemma AdvancesTo(n: R.Node, f: NodeId, w: NodeId)
    requires {n.id, f, w} == {1, 2, 3} && n.id != f && f != w && w != n.id
    requires f in n.matchIndex && w in n.matchIndex && n.matchIndex[f] == |n.log| && n.matchIndex[w] == 0
    requires n.log != [] && LastTerm(n.log) == n.term && n.commitIndex < |n.log|
    ensures var n' := R.AdvanceCommit(n, PEERS);
      n'.commitIndex == |n.log| && n'.role == n.role && (n.lastApplied <= |n.log| ==> n'.lastApplied == |n.log|)
  {
    hide QuorumIndexOf, R.KnownIndices, R.ApplyCommitted;
    TwoOfThree(n, f, w);
    if n.lastApplied <= |n.log| { AppliesAll(n.(commitIndex := |n.log|)); }
  }

  lemma {:induction false} AppliesAll(n: R.Node)
    requires n.lastApplied <= n.commitIndex <= |n.log|
    ensures R.ApplyCommitted(n).lastApplied == n.commitIndex
    decreases n.commitIndex - n.lastApplied
  {
    if n.lastApplied < n.commitIndex {
      AppliesAll(n.(kv := Store.ApplyEntry(n.kv, n.log[n.lastApplied]), lastApplied := n.lastApplied + 1));
    }
  }

  lemma TwoOfThree(n: R.Node, f: NodeId, w: NodeId)
    requires {n.id, f, w} == {1, 2, 3} && n.id != f && f != w && w != n.id
    requires f in n.matchIndex && w in n.matchIndex && n.matchIndex[f] == |n.log| && n.matchIndex[w] == 0
    ensures QuorumIndexOf(R.KnownIndices(n, PEERS)) == |n.log|
  {
    hide QuorumIndexOf, R.MatchList;
    Matches(n, f, w);
    var s, k := R.KnownIndices(n, PEERS), |n.log|;
    assert s == [s[0], s[1], s[2]];
    forall y: nat ensures CountAtLeast(s, y) == (if k >= y then 2 else 0) + (if 0 >= y then 1 else 0) {
      CountThree(s[0], s[1], s[2], y);
    }
    QuorumIndexUnique(s, k, QuorumIndexOf(s));
  }

  lemma Matches(n: R.Node, f: NodeId, w: NodeId)
    requires {n.id, f, w} == {1, 2, 3} && n.id != f && f != w && w != n.id
    requires f in n.matchIndex && w in n.matchIndex && n.matchIndex[f] == |n.log| && n.matchIndex[w] == 0
    ensures R.MatchList(n, PEERS) == [|n.log|, 0] || R.MatchList(n, PEERS) == [0, |n.log|]
  {
    hide R.MatchList;
    NoMatches(n);
    MatchNext(n, [], 1);
    MatchNext(n, [1], 2);
    MatchNext(n, [1, 2], 3);
    assert [] + [1] == [1] && [1] + [2] == [1, 2] && [1, 2] + [3] == PEERS;
    assert 1 in {n.id, f, w} && 2 in {n.id, f, w} && 3 in {n.id, f, w};
    assert n.id in {1, 2, 3};
  }

  lemma NoMatches(n: R.Node)
    ensures R.MatchList(n, []) == []
  {
  }

  lemma MatchNext(n: R.Node, rest: seq<NodeId>, p: NodeId)
    ensures R.MatchList(n, rest + [p]) ==
      if p != n.id && p in n.matchIndex then R.MatchList(n, rest) + [n.matchIndex[p]] else R.MatchList(n, rest)
  {
    assert (rest + [p])[..|rest|] == rest;
  }

  lemma CountThree(a: nat, b: nat, c: nat, y: nat)
    ensures CountAtLeast([a, b, c], y) == (if a >= y then 1 else 0) + (if b >= y then 1 else 0) + (if c >= y then 1 else 0)
  {
    CountAppend([], a, y);
    CountAppend([a], b, y);
    CountAppend([a, b], c, y);
    assert [] + [a] == [a] && [a] + [b] == [a, b] && [a, b] + [c] == [a, b, c];
  }

  // ----- Confirmation rounds

  lemma DoBegin(steps: seq<Step>, c: Cluster, n: NodeId, r: nat) returns (steps': seq<Step>, d: Cluster)
    requires Live(steps, c) && n in c.nodes && c.nodes[n].role == R.Leader && r !in c.rounds
    ensures Live(steps', d) && d == c.(rounds := d.rounds) && r in d.rounds
    ensures d.rounds[r] == Round(n, c.nodes[n].term, 0, false, 1, {n}, RoundStatus.Running,
              c.history.term, c.history.elections.Keys, c.history.commits)
    ensures c.nodes[n].id == n ==> InRound(d, r, n, 0, false)
  {
    steps', d := Do(steps, c, BeginRound(n, r));
  }

  /** A round that runs and whose owner still leads. */
  ghost predicate InRound(c: Cluster, r: nat, n: NodeId, next: nat, sent: bool) {
    && r in c.rounds && n in c.nodes && c.nodes[n].id == n && c.nodes[n].role == R.Leader && c.nodes[n].term == c.rounds[r].term
    && c.rounds[r].owner == n && c.rounds[r].next == next && c.rounds[r].sent == sent && c.rounds[r].status == RoundStatus.Running
  }

  /** The round passes over its owner. */
  lemma DoPass(steps: seq<Step>, c: Cluster, r: nat, n: NodeId, next: nat) returns (steps': seq<Step>, d: Cluster)
    requires Live(steps, c) && InRound(c, r, n, next, false) && next < 3 && PEERS[next] == n
    ensures Live(steps', d) && d == c.(rounds := c.rounds[r := c.rounds[r].(next := next + 1)]) && InRound(d, r, n, next + 1, false)
  {
    hide After;
    PassEffect(c, r, n, next);
    steps', d := Do(steps, c, SendProbe(r));
  }

  lemma PassEffect(c: Cluster, r: nat, n: NodeId, next: nat)
    requires c.peers == PEERS && InRound(c, r, n, next, false) && next < 3 && PEERS[next] == n && Linked(c)
    ensures Enabled(c, SendProbe(r)) && Covered(c, SendProbe(r))
    ensures After(c, SendProbe(r)) == c.(rounds := c.rounds[r := c.rounds[r].(next := next + 1)])
  {
    hide R.ProbeRequest, AfterStartElection, AfterPollPeer, AfterFinishElection, AfterVoteAsk, AfterAppendAsk, AfterPropose,
      AfterSendAppend, AfterAppendAnswer, AfterEndProbe, AfterRestart;
  }

  /** The owner probes the next peer, with a claim that the probe covers. */
  lemma DoProbe(steps: seq<Step>, c: Cluster, r: nat, n: NodeId, next: nat) returns (steps': seq<Step>, d: Cluster)
    requires Live(steps, c) && InRound(c, r, n, next, false) && next < 3 && PEERS[next] != n && CanAddress(c.nodes[n], PEERS[next])
    requires Covers(R.ProbeRequest(c.nodes[n], PEERS[next]))
    ensures Live(steps', d) && InRound(d, r, n, next, true)
    ensures d == c.(rounds := c.rounds[r := c.rounds[r].(sent := true)],
                    net := c.net + {AppendAsk(PEERS[next], Probe(r), R.ProbeRequest(c.nodes[n], PEERS[next]))})
  {
    hide After, R.ProbeRequest;
    ProbeEffect(c, r, n, next);
    steps', d := Do(steps, c, SendProbe(r));
  }

  lemma ProbeEffect(c: Cluster, r: nat, n: NodeId, next: nat)
    requires c.peers == PEERS && InRound(c, r, n, next, false) && next < 3 && PEERS[next] != n && Linked(c)
    requires CanAddress(c.nodes[n], PEERS[next]) && Covers(R.ProbeRequest(c.nodes[n], PEERS[next]))
    ensures Enabled(c, SendProbe(r)) && Covered(c, SendProbe(r))
    ensures After(c, SendProbe(r)) == c.(rounds := c.rounds[r := c.rounds[r].(sent := true)],
                    net := c.net + {AppendAsk(PEERS[next], Probe(r), R.ProbeRequest(c.nodes[n], PEERS[next]))})
  {
    hide R.ProbeRequest, AfterStartElection, AfterPollPeer, AfterFinishElection, AfterVoteAsk, AfterAppendAsk, AfterPropose,
      AfterSendAppend, AfterAppendAnswer, AfterEndProbe, AfterRestart;
  }

  /** No reply comes, or one that counts. */
  lemma DoEnd(steps: seq<Step>, c: Cluster, r: nat, n: NodeId, next: nat, answer: Option<Message>)
      returns (steps': seq<Step>, d: Cluster)
    requires Live(steps, c) && InRound(c, r, n, next, true) && next < 3
    requires answer.Some? ==>
      && answer.value in c.net && answer.value.AppendAnswer? && answer.value.from == PEERS[next] && answer.value.tag == Probe(r)
      && answer.value.aresp == R.AppendResponse(c.nodes[n].term, true)
    ensures Live(steps', d) && InRound(d, r, n, next + 1, false) && d.nodes == c.nodes && d.restarted == c.restarted
    ensures d.rounds[r].acks == c.rounds[r].acks + (if answer.Some? then 1 else 0)
    ensures d.rounds[r].committedThen == c.rounds[r].committedThen
  {
    hide After;
    EndEffect(c, r, n, next, answer);
    steps', d := Do(steps, c, EndProbe(r, answer));
  }

  lemma EndEffect(c: Cluster, r: nat, n: NodeId, next: nat, answer: Option<Message>)
    requires Linked(c) && InRound(c, r, n, next, true) && Enabled(c, EndProbe(r, answer))
    requires answer.Some? ==> answer.value.aresp == R.AppendResponse(c.nodes[n].term, true)
    ensures var d := After(c, EndProbe(r, answer));
      && InRound(d, r, n, next + 1, false) && d.nodes == c.nodes && d.restarted == c.restarted
      && d.rounds[r].acks == c.rounds[r].acks + (if answer.Some? then 1 else 0)
      && d.rounds[r].committedThen == c.rounds[r].committedThen
  {
    hide HeardTerm, AfterStartElection, AfterPollPeer, AfterFinishElection, AfterVoteAsk, AfterAppendAsk, AfterPropose,
      AfterSendAppend, AfterAppendAnswer, AfterSendProbe, AfterRestart;
    assert c.nodes[n := c.nodes[n]] == c.nodes;
  }

  lemma DoConfirm(steps: seq<Step>, c: Cluster, r: nat, n: NodeId) returns (steps': seq<Step>, d: Cluster)
    requires Live(steps, c) && InRound(c, r, n, 3, false) && c.rounds[r].acks >= 2
    ensures Live(steps', d) && d == c.(rounds := c.rounds[r := c.rounds[r].(status := Confirmed)])
  {
    hide After;
    PeersAre();
    ConfirmEffect(c, r);
    steps', d := Do(steps, c, FinishRound(r));
  }

  lemma ConfirmEffect(c: Cluster, r: nat)
    requires Linked(c) && Enabled(c, FinishRound(r)) && c.rounds[r].acks >= Majority(c.peers)
    ensures After(c, FinishRound(r)) == c.(rounds := c.rounds[r := c.rounds[r].(status := Confirmed)])
  {
  }
}
