/** Leadership confirmation rounds: a confirmed round rules out that a newer leader had been elected when
    it began. */
module RaftRead {
  import opened ClusterConfig
  import opened Logs
  import opened Options
  import opened RaftHistory
  import opened RaftHistoryProofs
  import opened RaftCluster
  import opened RaftInvariant
  import opened RaftCommit
  import R = RaftSteps

  // ----- The invariant

  /** A voter of an election won before the round was already in that term when the round began. */
  ghost predicate VotersThen(h: History, elected: set<nat>, terms: map<NodeId, nat>) {
    forall t, v | t in elected && t in h.elections && v in h.elections[t].voters :: v in terms && t <= terms[v]
  }

  ghost predicate RoundFits(h: History, round: Round) {
    && round.next <= |h.peers| && round.owner in Ids(h.peers)
    && round.acks == |round.acked| && round.acked <= Ids(h.peers[..round.next]) + {round.owner}
    && round.termsThen.Keys == Ids(h.peers)
    && (forall p | p in round.termsThen :: p in h.term && round.termsThen[p] <= h.term[p])
    && (forall p | p in round.acked :: p in round.termsThen && round.termsThen[p] <= round.term)
    && round.electedThen <= h.elections.Keys && round.committedThen <= h.commits
    && (forall cm | cm in round.committedThen :: cm.term in round.electedThen)
    && VotersThen(h, round.electedThen, round.termsThen)
    && (round.status == Confirmed ==> round.acks >= Majority(h.peers))
    && (round.term in h.elections && h.elections[round.term].leader == round.owner)
  }

  /** A probe's reply speaks of its own round: the replier had not passed the round's term when
      the round began. */
  ghost predicate ProbeFits(c: Cluster, m: Message) {
    && (m.AppendAsk? && m.tag.Probe? ==> m.tag.round in c.rounds && m.areq.term == c.rounds[m.tag.round].term)
    && (m.AppendAnswer? && m.tag.Probe? ==>
      && m.tag.round in c.rounds && m.areq.term == c.rounds[m.tag.round].term
      && (m.aresp.success ==>
        && m.from in c.rounds[m.tag.round].termsThen
        && c.rounds[m.tag.round].termsThen[m.from] <= m.areq.term))
  }

  ghost predicate RoundAt(c: Cluster, r: nat) {
    r in c.rounds && RoundFits(c.history, c.rounds[r])
  }

  ghost predicate ReadInv(c: Cluster) {
    && (forall r {:trigger RoundAt(c, r)} | r in c.rounds :: RoundAt(c, r))
    && (forall m {:trigger ProbeFits(c, m)} | m in c.net :: ProbeFits(c, m))
  }

  // ----- Framing

  lemma RoundFitsStays(h: History, g: History, round: Round)
    requires Extends(h, g) && RoundFits(h, round)
    ensures RoundFits(g, round)
  {
  }

  /** Only what a round learns may change: its position, its count and its status. */
  ghost predicate SameStart(a: Round, b: Round) {
    a.term == b.term && a.termsThen == b.termsThen
  }

  lemma ProbeFitsStays(c: Cluster, d: Cluster, m: Message)
    requires forall r | r in c.rounds :: r in d.rounds && SameStart(c.rounds[r], d.rounds[r])
    requires ProbeFits(c, m)
    ensures ProbeFits(d, m)
  {
  }

  ghost predicate ReadStep(c: Cluster, d: Cluster) {
    && Extends(c.history, d.history)
    && (forall r | r in c.rounds :: r in d.rounds && SameStart(c.rounds[r], d.rounds[r]))
    && (forall r {:trigger RoundAt(d, r)} | r in d.rounds ::
          (r in c.rounds && d.rounds[r] == c.rounds[r]) || RoundAt(d, r))
    && (forall m {:trigger ProbeFits(d, m)} | m in d.net && m !in c.net :: ProbeFits(d, m))
  }

  lemma ReadStepKeeps(c: Cluster, d: Cluster)
    requires ReadInv(c) && ReadStep(c, d)
    ensures ReadInv(d)
  {
    hide RoundFits, ProbeFits, Extends;
    forall r | r in d.rounds ensures RoundAt(d, r) {
      if r in c.rounds && d.rounds[r] == c.rounds[r] {
        assert RoundAt(c, r);
        RoundFitsStays(c.history, d.history, c.rounds[r]);
      }
    }
    forall m | m in d.net ensures ProbeFits(d, m) {
      if m in c.net {
        assert ProbeFits(c, m);
        ProbeFitsStays(c, d, m);
      }
    }
  }

  /** A step that touches no round and sends nothing belonging to one. */
  lemma UnrelatedStep(c: Cluster, d: Cluster, n: NodeId)
    requires ReadInv(c) && OnlyBy(c.history, d.history, n) && d.rounds == c.rounds
    requires forall m | m in d.net && m !in c.net :: m.VoteAsk? || m.VoteAnswer? || m.tag.Replicate?
    ensures ReadInv(d)
  {
    OnlyByExtends(c.history, d.history, n);
    hide Extends, ReadInv, OnlyBy;
    ReadStepKeeps(c, d);
  }

  lemma AtRound(c: Cluster, r: nat)
    requires ReadInv(c) && r in c.rounds
    ensures RoundFits(c.history, c.rounds[r])
  {
    assert RoundAt(c, r);
  }

  lemma AtProbe(c: Cluster, m: Message)
    requires ReadInv(c) && m in c.net
    ensures ProbeFits(c, m)
  {
  }

  // ----- Steps of a round

  lemma BeginRoundKeeps(c: Cluster, n: NodeId, r: nat)
    requires ClusterInv(c) && ReadInv(c) && Enabled(c, BeginRound(n, r))
    ensures ReadInv(AfterBeginRound(c, n, r))
  {
    hide ClusterInv, ReadInv, Inv, NodeFits, Extends;
    var d := AfterBeginRound(c, n, r);
    AtNode(c, n);
    SameExtends(c.history);
    NewRoundFits(c, n, d.rounds[r]);
    ReadStepKeeps(c, d);
  }

  lemma NewRoundFits(c: Cluster, n: NodeId, round: Round)
    requires ClusterInv(c) && n in c.nodes && c.nodes[n].role == R.Leader
    requires round == Round(n, c.nodes[n].term, 0, false, 1, {n}, Running,
      c.history.term, c.history.elections.Keys, c.history.commits)
    ensures RoundFits(c.history, round)
  {
    var h := c.history;
    assert NodeAt(c, n);
    assert Shape(h);
    forall t, v | t in h.elections && v in h.elections[t].voters ensures v in h.term && t <= h.term[v] {
      assert ElectionOk(h, t) && VoterOk(h, t, v) && BallotOk(h, Slot(t, v));
    }
    forall cm | cm in h.commits ensures cm.term in h.elections { CommitTermElected(h, cm); }
  }

  lemma SendProbeRead(c: Cluster, r: nat)
    requires ClusterInv(c) && ReadInv(c) && Enabled(c, SendProbe(r))
    ensures ReadInv(AfterSendProbe(c, r))
  {
    hide ClusterInv, ReadInv, Inv, RoundFits, Extends, NodeFits;
    var d := AfterSendProbe(c, r);
    AtNode(c, c.rounds[r].owner);
    AtRound(c, r);
    SameExtends(c.history);
    NextFits(c.history, c.rounds[r], d.rounds[r]);
    ReadStepKeeps(c, d);
  }

  /** Moving on, or giving up, without counting anyone. */
  lemma NextFits(h: History, a: Round, b: Round)
    requires RoundFits(h, a) && a.next <= b.next <= a.next + 1 && b.next <= |h.peers|
    requires b == a.(next := b.next, sent := b.sent, status := b.status)
    requires b.status == Confirmed ==> b.acks >= Majority(h.peers)
    ensures RoundFits(h, b)
  {
    hide Ids, VotersThen;
    if b.next > a.next { IdsPrefix(h.peers, a.next); }
  }

  lemma CountFits(h: History, a: Round, p: NodeId)
    requires RoundFits(h, a) && a.next < |h.peers| && Distinct(h.peers) && p == h.peers[a.next] != a.owner
    requires p in a.termsThen && a.termsThen[p] <= a.term && a.status == Running
    ensures RoundFits(h, a.(next := a.next + 1, sent := false, acks := a.acks + 1, acked := a.acked + {p}))
  {
    hide Ids, Distinct, VotersThen;
    IdsPrefix(h.peers, a.next);
    assert p !in a.acked;
  }

  lemma EndProbeRead(c: Cluster, r: nat, answer: Option<Message>)
    requires ClusterInv(c) && ReadInv(c) && Enabled(c, EndProbe(r, answer)) && Linked(c)
    ensures ReadInv(AfterEndProbe(c, r, answer))
  {
    hide ClusterInv, ReadInv, RoundFits, OnlyBy, Extends, HeardTerm, R.OnProbeResponse;
    var d, round := AfterEndProbe(c, r, answer), c.rounds[r];
    EndProbeKeeps(c, r, answer);
    OnlyByExtends(c.history, d.history, round.owner);
    EndProbeFits(c, r, answer);
    RoundFitsStays(c.history, d.history, d.rounds[r]);
    ReadStepKeeps(c, d);
  }

  lemma EndProbeFits(c: Cluster, r: nat, answer: Option<Message>)
    requires ClusterInv(c) && ReadInv(c) && Enabled(c, EndProbe(r, answer)) && Linked(c)
    ensures RoundFits(c.history, AfterEndProbe(c, r, answer).rounds[r])
  {
    hide ClusterInv, ReadInv, RoundFits, HeardTerm;
    var round, round' := c.rounds[r], AfterEndProbe(c, r, answer).rounds[r];
    AtRound(c, r);
    PeersDistinct(c);
    if answer.Some? && round'.acks != round.acks {
      AtProbe(c, answer.value);
      ProbePeer(c, answer.value);
      CountFits(c.history, round, answer.value.from);
    } else {
      NextFits(c.history, round, round');
    }
  }

  lemma PeersDistinct(c: Cluster)
    requires ClusterInv(c)
    ensures Distinct(c.peers) && c.peers == c.history.peers
  {
    ShapeOf(c.history);
  }

  /** The owner never probes itself. */
  lemma ProbePeer(c: Cluster, m: Message)
    requires ClusterInv(c) && ReadInv(c) && m in c.net && m.AppendAnswer? && m.tag.Probe?
    ensures m.tag.round in c.rounds && m.from != c.rounds[m.tag.round].owner
  {
    assert MessageFits(c.history, m) && ProbeFits(c, m) && RoundAt(c, m.tag.round);
  }

  lemma FinishRoundRead(c: Cluster, r: nat)
    requires ClusterInv(c) && ReadInv(c) && Enabled(c, FinishRound(r))
    ensures ReadInv(AfterFinishRound(c, r))
  {
    hide ClusterInv, ReadInv, Inv, RoundFits, Extends;
    var d := AfterFinishRound(c, r);
    AtRound(c, r);
    PeersDistinct(c);
    HistoryInv(c);
    SameExtends(c.history);
    NextFits(c.history, c.rounds[r], d.rounds[r]);
    ReadStepKeeps(c, d);
  }

  lemma HistoryInv(c: Cluster)
    requires ClusterInv(c)
    ensures Inv(c.history)
  {
  }

  lemma RestartRead(c: Cluster, n: NodeId)
    requires ClusterInv(c) && ReadInv(c) && Enabled(c, Restart(n))
    ensures ReadInv(AfterRestart(c, n))
  {
    hide ClusterInv, ReadInv, Inv, RoundFits, Extends;
    var d := AfterRestart(c, n);
    HistoryInv(c);
    SameExtends(c.history);
    forall r | r in d.rounds ensures RoundAt(d, r) {
      AtRound(c, r);
      FailFits(c.history, c.rounds[r]);
    }
    ReadStepKeeps(c, d);
  }

  lemma FailFits(h: History, a: Round)
    requires RoundFits(h, a)
    ensures RoundFits(h, a.(status := Failed))
  {
  }

  lemma AppendAskRead(c: Cluster, m: Message)
    requires ClusterInv(c) && ReadInv(c) && Enabled(c, DeliverAppendAsk(m)) && Linked(c)
    ensures ReadInv(AfterAppendAsk(c, m))
  {
    hide ClusterInv, ReadInv, Inv, RoundFits, OnlyBy, NodeFits, NewlyApplied, Accept, HeardTerm, Merge, R.PrevMatches, R.CommitUpTo, Extends;
    var d := AfterAppendAsk(c, m);
    AppendAskKeeps(c, m);
    OnlyByExtends(c.history, d.history, m.to);
    AtProbe(c, m);
    NodeTerm(c, m.to);
    PeersDistinct(c);
    if m.tag.Probe? {
      AtRound(c, m.tag.round);
      RoundTerms(c.history, c.rounds[m.tag.round], m.to);
    }
    ReadStepKeeps(c, d);
  }

  lemma RoundTerms(h: History, round: Round, p: NodeId)
    requires RoundFits(h, round) && p in h.term && h.term.Keys == Ids(h.peers)
    ensures p in round.termsThen && round.termsThen[p] <= h.term[p]
  {
  }

  // ----- Every run

  lemma StepRead(c: Cluster, s: Step)
    requires ClusterInv(c) && ReadInv(c) && Enabled(c, s) && Linked(c)
    ensures ReadInv(After(c, s))
  {
    hide ClusterInv, ReadInv, AfterStartElection, AfterPollPeer, AfterFinishElection, AfterVoteAsk, AfterAppendAsk, AfterPropose,
      AfterSendAppend, AfterAppendAnswer, AfterSendProbe, AfterEndProbe, AfterRestart;
    match s
    case StartElection(n) => ElectionStepRead(c, s);
    case PollPeer(n, answer) => ElectionStepRead(c, s);
    case FinishElection(n) => ElectionStepRead(c, s);
    case DeliverVoteAsk(m) => ElectionStepRead(c, s);
    case DeliverAppendAsk(m) => AppendAskRead(c, m);
    case Propose(n, op, key, value) => LogStepRead(c, s);
    case SendAppend(n, peer) => LogStepRead(c, s);
    case DeliverAppendAnswer(m) => LogStepRead(c, s);
    case BeginRound(n, r) => BeginRoundKeeps(c, n, r);
    case SendProbe(r) => SendProbeRead(c, r);
    case EndProbe(r, answer) => EndProbeRead(c, r, answer);
    case FinishRound(r) => FinishRoundRead(c, r);
    case Restart(n) => RestartRead(c, n);
  }

  lemma ElectionStepRead(c: Cluster, s: Step)
    requires ClusterInv(c) && ReadInv(c) && Enabled(c, s) && Linked(c)
    requires s.StartElection? || s.PollPeer? || s.FinishElection? || s.DeliverVoteAsk?
    ensures ReadInv(After(c, s))
  {
    hide ClusterInv, ReadInv, OnlyBy, Inv, R.OnVoteRequest, HeardTerm, Bid, Cast, Elect, Without;
    match s
    case StartElection(n) => StartElectionKeeps(c, n); UnrelatedStep(c, AfterStartElection(c, n), n);
    case PollPeer(n, answer) => PollPeerKeeps(c, n, answer); UnrelatedStep(c, AfterPollPeer(c, n, answer), n);
    case FinishElection(n) => FinishElectionKeeps(c, n); UnrelatedStep(c, AfterFinishElection(c, n), n);
    case DeliverVoteAsk(m) => VoteAskKeeps(c, m); UnrelatedStep(c, AfterVoteAsk(c, m), m.to);
  }

  lemma LogStepRead(c: Cluster, s: Step)
    requires ClusterInv(c) && ReadInv(c) && Enabled(c, s) && Linked(c)
    requires s.Propose? || s.SendAppend? || s.DeliverAppendAnswer?
    ensures ReadInv(After(c, s))
  {
    hide ClusterInv, ReadInv, OnlyBy, Inv, R.OnAppendResponse, R.ReplicateRequest, HeardTerm, Extend, NewlyApplied, Supporters;
    match s
    case Propose(n, op, key, value) =>
      ProposeKeeps(c, n, op, key, value);
      UnrelatedStep(c, AfterPropose(c, n, op, key, value), n);
    case SendAppend(n, peer) =>
      HistoryInv(c);
      SameOnlyBy(c.history, n);
      UnrelatedStep(c, AfterSendAppend(c, n, peer), n);
    case DeliverAppendAnswer(m) => AppendAnswerKeeps(c, m); UnrelatedStep(c, AfterAppendAnswer(c, m), m.areq.leader);
  }

  lemma {:induction false} RunRead(peers: seq<NodeId>, steps: seq<Step>)
    requires Distinct(peers) && 0 !in peers && Run(peers, steps).Some?
    ensures ReadInv(Run(peers, steps).value)
    decreases |steps|
  {
    hide ClusterInv, ReadInv, After, Enabled;
    if steps == [] {
      InitRead(peers);
    } else {
      var before := steps[..|steps| - 1];
      RunInv(peers, before);
      RunRead(peers, before);
      StepRead(Run(peers, before).value, steps[|steps| - 1]);
    }
  }

  lemma InitRead(peers: seq<NodeId>)
    ensures ReadInv(Init(peers))
  {
  }

  // ----- What a confirmed round means

  /** No leader of a higher term had been elected when a confirmed round began. */
  lemma ConfirmedRound(c: Cluster, r: nat, t: nat)
    requires ClusterInv(c) && ReadInv(c) && r in c.rounds && c.rounds[r].status == Confirmed
    requires t in c.rounds[r].electedThen
    ensures t <= c.rounds[r].term
  {
    var h, round := c.history, c.rounds[r];
    assert RoundAt(c, r) && Shape(h) && ElectionOk(h, t);
    assert Quorum(h.peers, round.acked) by {
      assert Ids(h.peers[..round.next]) <= Ids(h.peers);
    }
    hide Inv, ClusterInv, ReadInv, ElectionOk, Quorum;
    var v := QuorumsMeet(h.peers, round.acked, h.elections[t].voters) by { assert ElectionOk(h, t); }
  }
}
