/** The history behind a Raft run, reduced to what safety depends on: terms, logs, ballots,
    elections, the log each elected leader wrote, acknowledgements and commits. The actions
    below are the only ways a step of a node can change this history. */
module RaftHistory {
  import opened ClusterConfig
  import opened Logs

  datatype Slot = Slot(term: nat, node: NodeId)

  /** A vote, with the voter's log at the moment it was first cast. */
  datatype Ballot = Ballot(candidate: NodeId, log: Log)

  /** A won election: who voted, and the winner's log at that moment. */
  datatype Election = Election(leader: NodeId, voters: set<NodeId>, log: Log)

  /** `node` held the first `index` entries of the leader of `term` while it was in `term`. */
  datatype Ack = Ack(node: NodeId, term: nat, index: nat)

  /** The leader of `term` found `index` replicated on `quorum`, its entry being of `term`. */
  datatype Commit = Commit(term: nat, index: nat, quorum: set<NodeId>)

  datatype History = History(
    peers: seq<NodeId>,
    term: map<NodeId, nat>,
    log: map<NodeId, Log>,
    bids: map<Slot, Log>,           // the log each candidate campaigned with
    ballots: map<Slot, Ballot>,
    elections: map<nat, Election>,
    ledger: map<nat, Log>,          // the log of the leader of each term, growing while it leads
    acks: set<Ack>,
    commits: set<Commit>)

  // ----- Actions

  function RaiseTerm(h: History, n: NodeId, t: nat): History {
    h.(term := h.term[n := t])
  }

  /** `n` starts campaigning in a new term with its own vote. */
  function Bid(h: History, n: NodeId): History
    requires n in h.term && n in h.log
  {
    var slot := Slot(h.term[n] + 1, n);
    h.(term := h.term[n := h.term[n] + 1],
       bids := h.bids[slot := h.log[n]],
       ballots := h.ballots[slot := Ballot(n, h.log[n])])
  }

  /** `v` votes in its current term; a repeated vote keeps the first ballot. */
  function Cast(h: History, v: NodeId, candidate: NodeId): History
    requires v in h.term && v in h.log
  {
    var slot := Slot(h.term[v], v);
    if slot in h.ballots then h else h.(ballots := h.ballots[slot := Ballot(candidate, h.log[v])])
  }

  function Elect(h: History, c: NodeId, voters: set<NodeId>): History
    requires c in h.term && c in h.log
  {
    var t := h.term[c];
    h.(elections := h.elections[t := Election(c, voters, h.log[c])],
       ledger := h.ledger[t := h.log[c]],
       acks := h.acks + {Ack(c, t, |h.log[c]|)})
  }

  /** The leader `c` appends an entry of its own term. */
  function Extend(h: History, c: NodeId, e: Entry): History
    requires c in h.term && c in h.log
  {
    var log := h.log[c] + [e];
    h.(log := h.log[c := log],
       ledger := h.ledger[h.term[c] := log],
       acks := h.acks + {Ack(c, h.term[c], |log|)})
  }

  /** `v` takes over `log`, which holds the first `m` entries of the leader of `v`'s term. */
  function Accept(h: History, v: NodeId, log: Log, m: nat): History
    requires v in h.term
  {
    h.(log := h.log[v := log], acks := h.acks + {Ack(v, h.term[v], m)})
  }

  function Record(h: History, c: Commit): History {
    h.(commits := h.commits + {c})
  }

  // ----- Invariants

  /** Every prefix of `log` that ends in an entry of term t is a prefix of what the leader of t wrote. */
  ghost predicate Sound(ledger: map<nat, Log>, log: Log) {
    forall i | 0 <= i < |log| :: Backed(ledger, log, i)
  }

  ghost predicate Backed(ledger: map<nat, Log>, log: Log, i: nat)
    requires i < |log|
  {
    log[i].term in ledger && Agree(log, ledger[log[i].term], i + 1)
  }

  ghost predicate TermsBelow(log: Log, t: nat) {
    forall i | 0 <= i < |log| :: log[i].term < t
  }

  ghost predicate Shape(h: History) {
    && Distinct(h.peers) && h.term.Keys == Ids(h.peers) && h.log.Keys == Ids(h.peers)
    && h.ledger.Keys == h.elections.Keys
  }

  /** Every leader elected in a term above `from` and below `until` started out with the first
      `i` entries of the leader of `from`. */
  ghost predicate AllCarry(h: History, from: nat, until: nat, i: nat)
    requires from in h.ledger
  {
    forall t | from < t < until && t in h.elections :: Agree(h.elections[t].log, h.ledger[from], i)
  }

  ghost predicate Keeps(h: History, log: Log, until: nat, from: nat, i: nat) {
    from in h.ledger && (AllCarry(h, from, until, i) ==> Agree(log, h.ledger[from], i))
  }

  /** Whatever `v` acknowledged in terms below `cut` is still in `log`, unless some leader
      elected below `until` lacked it. */
  ghost predicate Loyal(h: History, v: NodeId, log: Log, cut: nat, until: nat) {
    forall a, i: nat | a in h.acks && a.node == v && a.term < cut && i <= a.index ::
      Keeps(h, log, until, a.term, i)
  }

  ghost predicate NodeOk(h: History, n: NodeId) {
    && n in h.term && n in h.log
    && Sound(h.ledger, h.log[n]) && TermsBelow(h.log[n], h.term[n] + 1)
    && Loyal(h, n, h.log[n], h.term[n] + 1, h.term[n] + 1)
  }

  ghost predicate LedgerOk(h: History, t: nat) {
    t in h.ledger && t > 0 && Sound(h.ledger, h.ledger[t]) && TermsBelow(h.ledger[t], t + 1)
  }

  ghost predicate BidOk(h: History, s: Slot) {
    && s in h.bids && s.node in h.term && 0 < s.term <= h.term[s.node]
    && Sound(h.ledger, h.bids[s]) && TermsBelow(h.bids[s], s.term)
  }

  ghost predicate BallotOk(h: History, s: Slot) {
    && s in h.ballots && s.node in h.term && s.term <= h.term[s.node]
    && Slot(s.term, h.ballots[s].candidate) in h.bids
    && UpToDate(h.bids[Slot(s.term, h.ballots[s].candidate)], h.ballots[s].log)
    && Sound(h.ledger, h.ballots[s].log)
    && Loyal(h, s.node, h.ballots[s].log, s.term, s.term + 1)
  }

  /** A voter of the winner; its ballot predates the election, so it owes nothing to the winner. */
  ghost predicate VoterOk(h: History, t: nat, v: NodeId) {
    && t in h.elections
    && Slot(t, v) in h.ballots && h.ballots[Slot(t, v)].candidate == h.elections[t].leader
    && Loyal(h, v, h.ballots[Slot(t, v)].log, t, t)
  }

  ghost predicate ElectionOk(h: History, t: nat) {
    && t in h.elections && t in h.ledger
    && var e := h.elections[t];
    && Quorum(h.peers, e.voters) && (forall v {:trigger VoterOk(h, t, v)} | v in e.voters :: VoterOk(h, t, v))
    && Slot(t, e.leader) in h.bids && e.log == h.bids[Slot(t, e.leader)]
    && Agree(e.log, h.ledger[t], |e.log|)
  }

  ghost predicate AckOk(h: History, a: Ack) {
    && a.node in h.term && a.term <= h.term[a.node]
    && a.term in h.ledger && a.index <= |h.ledger[a.term]|
  }

  /** `v` acknowledged at least `index` entries of the leader of `term`. */
  ghost predicate Acked(h: History, v: NodeId, term: nat, index: nat) {
    exists a :: a in h.acks && a.node == v && a.term == term && index <= a.index
  }

  ghost predicate CommitOk(h: History, c: Commit) {
    && c.term in h.ledger && 0 < c.index <= |h.ledger[c.term]|
    && h.ledger[c.term][c.index - 1].term == c.term
    && Quorum(h.peers, c.quorum)
    && forall v {:trigger Acked(h, v, c.term, c.index)} | v in c.quorum :: Acked(h, v, c.term, c.index)
  }

  ghost predicate Inv(h: History) {
    && Shape(h)
    && (forall n {:trigger NodeOk(h, n)} | n in h.log :: NodeOk(h, n))
    && (forall t {:trigger LedgerOk(h, t)} | t in h.ledger :: LedgerOk(h, t))
    && (forall s {:trigger BidOk(h, s)} | s in h.bids :: BidOk(h, s))
    && (forall s {:trigger BallotOk(h, s)} | s in h.ballots :: BallotOk(h, s))
    && (forall t {:trigger ElectionOk(h, t)} | t in h.elections :: ElectionOk(h, t))
    && (forall a {:trigger AckOk(h, a)} | a in h.acks :: AckOk(h, a))
    && (forall c {:trigger CommitOk(h, c)} | c in h.commits :: CommitOk(h, c))
  }

  // ----- Consequences of the invariant

  /** Log matching: the same term at the same index means the same log up to that index. */
  lemma SoundLogsMatch(ledger: map<nat, Log>, a: Log, b: Log, i: nat)
    requires Sound(ledger, a) && Sound(ledger, b)
    requires i < |a| && i < |b| && a[i].term == b[i].term
    ensures Agree(a, b, i + 1)
  {
    assert Backed(ledger, a, i) && Backed(ledger, b, i);
  }

  lemma TermsNeverFall(h: History, log: Log, i: nat, j: nat)
    requires Sound(h.ledger, log) && i <= j < |log| && LedgerOk(h, log[j].term)
    ensures log[i].term <= log[j].term
  {
    assert Backed(h.ledger, log, j);
  }

  /** A leader elected on a voter that still holds a prefix ending in term `from` holds it too,
      provided the leaders in between started out with it. */
  lemma WinnerCarries(h: History, from: nat, i: nat, t: nat, voterLog: Log)
    requires Shape(h) && LedgerOk(h, from)
    requires forall u {:trigger LedgerOk(h, u)} | u in h.ledger :: LedgerOk(h, u)
    requires 0 < i <= |h.ledger[from]| && h.ledger[from][i - 1].term == from
    requires t in h.elections && from < t && AllCarry(h, from, t, i)
    requires Sound(h.ledger, h.elections[t].log) && TermsBelow(h.elections[t].log, t)
    requires forall u {:trigger ElectionOk(h, u)} | u in h.elections :: ElectionOk(h, u)
    requires Sound(h.ledger, voterLog) && Agree(voterLog, h.ledger[from], i)
    requires UpToDate(h.elections[t].log, voterLog)
    ensures Agree(h.elections[t].log, h.ledger[from], i)
  {
    var log := h.elections[t].log;
    assert Backed(h.ledger, voterLog, |voterLog| - 1) && LedgerOk(h, LastTerm(voterLog));
    TermsNeverFall(h, voterLog, i - 1, |voterLog| - 1);
    var last := LastTerm(log);
    assert Backed(h.ledger, log, |log| - 1);
    if last > from {
      assert Agree(h.elections[last].log, h.ledger[from], i);
      assert ElectionOk(h, last);
    }
  }

  /** Leader completeness: what was committed in a term is in the log of every leader elected
      in a later term. */
  lemma {:induction false} LeadersCarryCommits(h: History, c: Commit, t: nat)
    requires Inv(h) && c in h.commits && t in h.elections && c.term < t
    ensures c.term in h.ledger && Agree(h.elections[t].log, h.ledger[c.term], c.index)
    decreases t
  {
    assert CommitOk(h, c);
    forall u | c.term < u < t && u in h.elections
      ensures Agree(h.elections[u].log, h.ledger[c.term], c.index)
    {
      LeadersCarryCommits(h, c, u);
    }
    VoterHeldCommit(h, c, t);
  }

  /** The induction step: some voter of `t` acknowledged the commit and still held it when it voted. */
  lemma VoterHeldCommit(h: History, c: Commit, t: nat)
    requires Inv(h) && CommitOk(h, c) && t in h.elections && c.term < t
    requires AllCarry(h, c.term, t, c.index)
    ensures Agree(h.elections[t].log, h.ledger[c.term], c.index)
  {
    assert ElectionOk(h, t);
    var v := QuorumsMeet(h.peers, c.quorum, h.elections[t].voters);
    assert Acked(h, v, c.term, c.index);
    assert VoterOk(h, t, v);
    var voterLog := h.ballots[Slot(t, v)].log;
    assert Keeps(h, voterLog, t, c.term, c.index);
    assert BallotOk(h, Slot(t, v));
    assert BidOk(h, Slot(t, h.elections[t].leader));
    hide AllCarry;
    WinnerCarries(h, c.term, c.index, t, voterLog);
  }

  /** Two commits never disagree on an index both cover. */
  lemma CommitsAgree(h: History, c: Commit, d: Commit)
    requires Inv(h) && c in h.commits && d in h.commits && c.term <= d.term
    ensures c.term in h.ledger && d.term in h.ledger && c.index <= |h.ledger[c.term]|
    ensures c.term < d.term ==> c.index < d.index
    ensures c.index <= |h.ledger[d.term]|
    ensures Agree(h.ledger[c.term], h.ledger[d.term], c.index)
  {
    assert CommitOk(h, c) && CommitOk(h, d);
    if c.term < d.term {
      LeadersCarryCommits(h, c, d.term);
      assert ElectionOk(h, d.term) && LedgerOk(h, c.term);
      assert h.ledger[d.term][d.index - 1].term == d.term;
    }
  }
}
