/** From one client's write to another's read. */
module RaftClient {
  import opened ClusterConfig
  import opened Logs
  import opened Options
  import opened Store
  import opened RaftHistory
  import opened RaftHistoryProofs
  import opened RaftCluster
  import opened RaftInvariant
  import opened RaftCommit
  import opened RaftRead
  import opened RaftSafety
  import R = RaftSteps

  /** Once a node has applied a proposal while still leading the proposal's term, every later read that
      is confirmed by a round of a leader that has caught up is served from a log and memory that hold
      the proposal. */
  lemma AcknowledgedThenRead(peers: seq<NodeId>, before: seq<Step>, more: seq<Step>, p: Proposal, r: nat)
    requires IsRun(peers, before) && IsRun(peers, before + more) && CoveredRun(peers, before + more)
    requires var c := Run(peers, before).value;
      && p in c.proposals && p.node in c.nodes && p.node !in c.restarted && p.index <= c.nodes[p.node].lastApplied
      && c.nodes[p.node].role == R.Leader && c.nodes[p.node].term == p.entry.term && r !in c.rounds
    requires var c := Run(peers, before + more).value;
      && r in c.rounds && c.rounds[r].status == Confirmed && c.rounds[r].owner !in c.restarted && CaughtUp(c, r)
    ensures var c := Run(peers, before + more).value;
      var node := c.nodes[c.rounds[r].owner];
      && 0 < p.index <= node.commitIndex <= |node.log| && node.log[p.index - 1] == p.entry
      && node.kv == Replay(node.log[..node.commitIndex])
  {
    hide Run, CoveredRun, ClusterInv, SafeInv, Inv, NodeFits, OwnCommits, CaughtUp, Extends;
    StillRuns(peers, before, more);
    AcknowledgedProposal(peers, before, p);
    RunSafe(peers, before);
    var c, d := Run(peers, before).value, Run(peers, before + more).value;
    AtCommitted(c, p.node);
    var node := c.nodes[p.node];
    var cm :| CertifiedBy(c.history, node.log, node.commitIndex, node.term, cm);
    LaterRounds(peers, before, more, r);
    ConfirmedReadIsFresh(peers, before + more, r, cm);
    LedgerGrows(c.history, d.history, cm.term);
  }

  lemma LedgerGrows(h: History, g: History, t: nat)
    requires Extends(h, g) && t in h.ledger
    ensures t in g.ledger && Agree(h.ledger[t], g.ledger[t], |h.ledger[t]|)
  {
  }

  /** A round that began later knows of every commit made before. */
  lemma {:induction false} LaterRounds(peers: seq<NodeId>, before: seq<Step>, more: seq<Step>, r: nat)
    requires IsRun(peers, before) && IsRun(peers, before + more)
    ensures Extends(Run(peers, before).value.history, Run(peers, before + more).value.history)
    ensures r in Run(peers, before + more).value.rounds && r !in Run(peers, before).value.rounds ==>
      Run(peers, before).value.history.commits <= Run(peers, before + more).value.rounds[r].committedThen
    decreases |more|
  {
    hide ClusterInv, After, Enabled, Init, Linked, Extends;
    RunInv(peers, before);
    var c := Run(peers, before).value;
    if more == [] {
      assert before + more == before;
      HistoryInv(c);
      SameExtends(c.history);
    } else {
      var most, s := more[..|more| - 1], more[|more| - 1];
      assert (before + more)[..|before + more| - 1] == before + most && (before + more)[|before + more| - 1] == s;
      LaterRounds(peers, before, most, r);
      RunInv(peers, before + most);
      var d := Run(peers, before + most).value;
      StepExtends(d, s);
      ExtendsTrans(c.history, d.history, After(d, s).history);
      CommitsGrow(c.history, d.history);
      if r in After(d, s).rounds { RoundsRemember(d, s, r); }
    }
  }

  lemma CommitsGrow(h: History, g: History)
    requires Extends(h, g)
    ensures h.commits <= g.commits
  {
  }

  /** A step leaves a round's record of commits alone, or begins the round with all there are. */
  lemma RoundsRemember(c: Cluster, s: Step, r: nat)
    requires Enabled(c, s) && Linked(c) && r in After(c, s).rounds
    ensures After(c, s).rounds[r].committedThen ==
      if r in c.rounds then c.rounds[r].committedThen else c.history.commits
  {
    hide AfterSendProbe, AfterEndProbe, AfterRestart, AfterStartElection, AfterPollPeer, AfterFinishElection, AfterVoteAsk,
      AfterAppendAsk, AfterPropose, AfterSendAppend, AfterAppendAnswer;
    match s
    case BeginRound(_, _) =>
    case FinishRound(_) =>
    case SendProbe(q) => ProbeSendRemembers(c, q, r);
    case EndProbe(q, answer) => ProbeEndRemembers(c, q, answer, r);
    case Restart(n) => RestartRemembers(c, n, r);
    case _ => OtherRounds(c, s);
  }

  lemma ProbeSendRemembers(c: Cluster, q: nat, r: nat)
    requires Enabled(c, SendProbe(q)) && r in AfterSendProbe(c, q).rounds
    ensures r in c.rounds && AfterSendProbe(c, q).rounds[r].committedThen == c.rounds[r].committedThen
  {
    hide R.ProbeRequest;
  }

  lemma ProbeEndRemembers(c: Cluster, q: nat, answer: Option<Message>, r: nat)
    requires Enabled(c, EndProbe(q, answer)) && Linked(c) && r in AfterEndProbe(c, q, answer).rounds
    ensures r in c.rounds && AfterEndProbe(c, q, answer).rounds[r].committedThen == c.rounds[r].committedThen
  {
    hide HeardTerm;
  }

  lemma RestartRemembers(c: Cluster, n: NodeId, r: nat)
    requires Enabled(c, Restart(n)) && r in AfterRestart(c, n).rounds
    ensures r in c.rounds && AfterRestart(c, n).rounds[r].committedThen == c.rounds[r].committedThen
  {
    hide Without;
  }

  lemma OtherRounds(c: Cluster, s: Step)
    requires Enabled(c, s) && Linked(c)
    requires !s.BeginRound? && !s.SendProbe? && !s.EndProbe? && !s.FinishRound? && !s.Restart?
    ensures After(c, s).rounds == c.rounds
  {
    hide AfterSendProbe, AfterEndProbe, AfterRestart, R.OnVoteRequest, R.OnAppendRequest, R.OnAppendResponse, NewlyApplied,
      Supporters, HeardTerm, Without, Bid, Cast, Elect, Extend, Accept;
  }
}
