/** Every action on the history keeps its invariant. */
module RaftHistoryProofs {
  import opened ClusterConfig
  import opened Logs
  import opened RaftHistory

  // ----- What every action has in common

  /** Leaders only ever append to what they wrote. */
  ghost predicate Grows(a: map<nat, Log>, b: map<nat, Log>) {
    forall t | t in a :: t in b && Agree(a[t], b[t], |a[t]|)
  }

  /** History is only added to: terms rise, records are kept, and whatever is newly
      acknowledged is acknowledged in the node's present term. */
  ghost predicate Extends(h: History, g: History) {
    && Shape(h) && Shape(g) && g.peers == h.peers
    && (forall n | n in h.term :: h.term[n] <= g.term[n])
    && Grows(h.ledger, g.ledger)
    && (forall s | s in h.bids :: s in g.bids && g.bids[s] == h.bids[s])
    && (forall s | s in h.ballots :: s in g.ballots && g.ballots[s] == h.ballots[s])
    && (forall t | t in h.elections :: t in g.elections && g.elections[t] == h.elections[t])
    && h.acks <= g.acks && h.commits <= g.commits
    && (forall a | a in g.acks && a !in h.acks :: a.node in h.term && h.term[a.node] <= a.term)
  }

  lemma SoundGrows(a: map<nat, Log>, b: map<nat, Log>, log: Log)
    requires Grows(a, b) && Sound(a, log)
    ensures Sound(b, log)
  {
    forall i | 0 <= i < |log| ensures Backed(b, log, i) {
      assert Backed(a, log, i);
      assert Agree(a[log[i].term], b[log[i].term], |a[log[i].term]|);
    }
  }

  /** A promise kept so far is kept when elections are added and ledgers grow. */
  lemma KeepsGrows(h: History, g: History, log: Log, until: nat, until': nat, from: nat, i: nat)
    requires Extends(h, g) && until <= until'
    requires Keeps(h, log, until, from, i) && i <= |h.ledger[from]|
    ensures Keeps(g, log, until', from, i)
  {
    assert Agree(h.ledger[from], g.ledger[from], |h.ledger[from]|);
    if AllCarry(g, from, until', i) {
      forall t | from < t < until && t in h.elections ensures Agree(h.elections[t].log, h.ledger[from], i) {
        assert Agree(g.elections[t].log, g.ledger[from], i);
      }
      assert AllCarry(h, from, until, i);
    }
  }

  /** As above for a whole snapshot, when no acknowledgement below the cut is new. */
  lemma LoyalGrows(h: History, g: History, v: NodeId, log: Log, cut: nat, cut': nat, until: nat, until': nat)
    requires Extends(h, g) && until <= until'
    requires forall a {:trigger AckOk(h, a)} | a in h.acks :: AckOk(h, a)
    requires forall a | a in g.acks && a.node == v && a.term < cut' :: a in h.acks && a.term < cut
    requires Loyal(h, v, log, cut, until)
    ensures Loyal(g, v, log, cut', until')
  {
    forall a, i: nat | a in g.acks && a.node == v && a.term < cut' && i <= a.index
      ensures Keeps(g, log, until', a.term, i)
    {
      assert AckOk(h, a);
      assert Keeps(h, log, until, a.term, i);
      KeepsGrows(h, g, log, until, until', a.term, i);
    }
  }

  lemma LedgerStays(h: History, g: History, t: nat)
    requires Extends(h, g) && LedgerOk(h, t) && g.ledger[t] == h.ledger[t]
    ensures LedgerOk(g, t)
  {
    SoundGrows(h.ledger, g.ledger, h.ledger[t]);
  }

  lemma BidStays(h: History, g: History, s: Slot)
    requires Extends(h, g) && BidOk(h, s)
    ensures BidOk(g, s)
  {
    SoundGrows(h.ledger, g.ledger, h.bids[s]);
  }

  lemma BallotStays(h: History, g: History, s: Slot)
    requires Extends(h, g) && BallotOk(h, s)
    requires forall a {:trigger AckOk(h, a)} | a in h.acks :: AckOk(h, a)
    ensures BallotOk(g, s)
  {
    SoundGrows(h.ledger, g.ledger, h.ballots[s].log);
    LoyalGrows(h, g, s.node, h.ballots[s].log, s.term, s.term, s.term + 1, s.term + 1);
  }

  lemma VoterStays(h: History, g: History, t: nat, v: NodeId)
    requires Extends(h, g) && VoterOk(h, t, v) && BallotOk(h, Slot(t, v))
    requires forall a {:trigger AckOk(h, a)} | a in h.acks :: AckOk(h, a)
    ensures VoterOk(g, t, v)
  {
    LoyalGrows(h, g, v, h.ballots[Slot(t, v)].log, t, t, t, t);
  }

  lemma ElectionStays(h: History, g: History, t: nat)
    requires Extends(h, g) && ElectionOk(h, t)
    requires forall a {:trigger AckOk(h, a)} | a in h.acks :: AckOk(h, a)
    requires forall s {:trigger BallotOk(h, s)} | s in h.ballots :: BallotOk(h, s)
    ensures ElectionOk(g, t)
  {
    forall v | v in h.elections[t].voters ensures VoterOk(g, t, v) {
      assert VoterOk(h, t, v) && BallotOk(h, Slot(t, v));
      VoterStays(h, g, t, v);
    }
    assert Agree(h.ledger[t], g.ledger[t], |h.ledger[t]|);
  }

  lemma CommitStays(h: History, g: History, c: Commit)
    requires Extends(h, g) && CommitOk(h, c)
    ensures CommitOk(g, c)
  {
    assert Agree(h.ledger[c.term], g.ledger[c.term], |h.ledger[c.term]|);
    forall v | v in c.quorum ensures Acked(g, v, c.term, c.index) {
      assert Acked(h, v, c.term, c.index);
    }
  }

  ghost predicate NoNewAcks(h: History, g: History, n: NodeId) {
    forall a | a in g.acks && a.node == n :: a in h.acks
  }

  lemma NodeStays(h: History, g: History, n: NodeId)
    requires Extends(h, g) && NodeOk(h, n) && g.log[n] == h.log[n] && NoNewAcks(h, g, n)
    requires forall a {:trigger AckOk(h, a)} | a in h.acks :: AckOk(h, a)
    ensures NodeOk(g, n)
  {
    SoundGrows(h.ledger, g.ledger, h.log[n]);
    forall a | a in h.acks ensures a.node == n ==> a.term < h.term[n] + 1 { assert AckOk(h, a); }
    LoyalGrows(h, g, n, h.log[n], h.term[n] + 1, g.term[n] + 1, h.term[n] + 1, g.term[n] + 1);
  }

  lemma InvAt(h: History, n: NodeId)
    requires Inv(h) && n in h.term
    ensures Shape(h) && NodeOk(h, n) && forall a {:trigger AckOk(h, a)} | a in h.acks :: AckOk(h, a)
  {
    assert Shape(h) && n in h.log;
  }

  lemma InvAtLedger(h: History, t: nat)
    requires Inv(h) && t in h.elections
    ensures LedgerOk(h, t)
  {
    assert Shape(h);
  }

  /** Records already in the history stay in order under every action. */
  lemma RecordsStay(h: History, g: History)
    requires Inv(h) && Extends(h, g)
    ensures forall s {:trigger BidOk(g, s)} | s in h.bids :: BidOk(g, s)
    ensures forall s {:trigger BallotOk(g, s)} | s in h.ballots :: BallotOk(g, s)
    ensures forall t {:trigger ElectionOk(g, t)} | t in h.elections :: ElectionOk(g, t)
    ensures forall c {:trigger CommitOk(g, c)} | c in h.commits :: CommitOk(g, c)
  {
    forall s | s in h.bids ensures BidOk(g, s) { assert BidOk(h, s); BidStays(h, g, s); }
    forall s | s in h.ballots ensures BallotOk(g, s) { assert BallotOk(h, s); BallotStays(h, g, s); }
    forall t | t in h.elections ensures ElectionOk(g, t) { assert ElectionOk(h, t); ElectionStays(h, g, t); }
    forall c | c in h.commits ensures CommitOk(g, c) { assert CommitOk(h, c); CommitStays(h, g, c); }
  }

  /** Nodes and ledgers an action does not touch stay in order as well. */
  lemma OthersStay(h: History, g: History)
    requires Inv(h) && Extends(h, g)
    ensures forall n {:trigger NodeOk(g, n)} | n in h.log && g.log[n] == h.log[n] && NoNewAcks(h, g, n) :: NodeOk(g, n)
    ensures forall t {:trigger LedgerOk(g, t)} | t in h.ledger && g.ledger[t] == h.ledger[t] :: LedgerOk(g, t)
    ensures forall a {:trigger AckOk(g, a)} | a in h.acks :: AckOk(g, a)
  {
    forall n | n in h.log && g.log[n] == h.log[n] && NoNewAcks(h, g, n) ensures NodeOk(g, n) {
      assert NodeOk(h, n);
      NodeStays(h, g, n);
    }
    forall t | t in h.ledger && g.ledger[t] == h.ledger[t] ensures LedgerOk(g, t) { assert LedgerOk(h, t); LedgerStays(h, g, t); }
    forall a | a in h.acks ensures AckOk(g, a) {
      assert AckOk(h, a);
      assert Agree(h.ledger[a.term], g.ledger[a.term], |h.ledger[a.term]|);
    }
  }

  // ----- Raising a term

  lemma RaiseTermKeeps(h: History, n: NodeId, t: nat)
    requires Inv(h) && n in h.term && h.term[n] <= t
    ensures Inv(RaiseTerm(h, n, t))
    ensures Extends(h, RaiseTerm(h, n, t))
  {
    hide NodeOk, LedgerOk, BidOk, BallotOk, ElectionOk, AckOk, CommitOk;
    var g := RaiseTerm(h, n, t);
    assert g.term.Keys == h.term.Keys;
    RecordsStay(h, g);
    OthersStay(h, g);
    assert Shape(g);
  }

  // ----- Voting

  lemma BidExtends(h: History, n: NodeId)
    requires Inv(h) && n in h.term
    ensures Extends(h, Bid(h, n))
    ensures var slot := Slot(h.term[n] + 1, n); BidOk(Bid(h, n), slot) && BallotOk(Bid(h, n), slot)
  {
    var g := Bid(h, n);
    var t := h.term[n] + 1;
    var slot := Slot(t, n);
    assert slot in h.bids ==> BidOk(h, slot);
    assert slot in h.ballots ==> BallotOk(h, slot);
    assert NodeOk(h, n) && Shape(h);
    BidIsExtension(h, n);
    hide Extends, Sound;
    LoyalGrows(h, g, n, h.log[n], t, t, t, t + 1);
  }

  lemma BidIsExtension(h: History, n: NodeId)
    requires Shape(h) && n in h.term
    requires var slot := Slot(h.term[n] + 1, n); slot !in h.bids && slot !in h.ballots
    ensures Extends(h, Bid(h, n))
  {
    assert Bid(h, n).term.Keys == h.term.Keys;
  }

  lemma BidKeeps(h: History, n: NodeId)
    requires Inv(h) && n in h.term
    ensures Inv(Bid(h, n))
    ensures Extends(h, Bid(h, n))
  {
    hide NodeOk, LedgerOk, BidOk, BallotOk, ElectionOk, AckOk, CommitOk;
    var g := Bid(h, n);
    BidExtends(h, n);
    RecordsStay(h, g);
    OthersStay(h, g);
    assert Shape(g);
  }

  lemma CastExtends(h: History, v: NodeId, c: NodeId)
    requires Inv(h) && v in h.term
    requires Slot(h.term[v], c) in h.bids && UpToDate(h.bids[Slot(h.term[v], c)], h.log[v])
    ensures Extends(h, Cast(h, v, c))
    ensures Slot(h.term[v], v) in h.ballots || BallotOk(Cast(h, v, c), Slot(h.term[v], v))
  {
    hide Inv, Sound, Loyal, UpToDate;
    InvAt(h, v);
    var g := Cast(h, v, c);
    var t := h.term[v];
    if Slot(t, v) !in h.ballots {
      LoyalGrows(h, g, v, h.log[v], t + 1, t, t + 1, t + 1);
    }
  }

  lemma CastKeeps(h: History, v: NodeId, c: NodeId)
    requires Inv(h) && v in h.term
    requires Slot(h.term[v], c) in h.bids && UpToDate(h.bids[Slot(h.term[v], c)], h.log[v])
    ensures Inv(Cast(h, v, c))
    ensures Extends(h, Cast(h, v, c))
  {
    hide NodeOk, LedgerOk, BidOk, BallotOk, ElectionOk, AckOk, CommitOk;
    var g := Cast(h, v, c);
    CastExtends(h, v, c);
    RecordsStay(h, g);
    OthersStay(h, g);
    assert Shape(g);
  }

  // ----- Winning an election

  ghost predicate VotedFor(h: History, voters: set<NodeId>, t: nat, c: NodeId) {
    forall v | v in voters :: Slot(t, v) in h.ballots && h.ballots[Slot(t, v)].candidate == c
  }

  /** One vote per term and overlapping majorities: a second winner would be the first one. */
  lemma OneWinner(h: History, t: nat, c: NodeId, voters: set<NodeId>)
    requires Inv(h) && t in h.elections && Quorum(h.peers, voters) && VotedFor(h, voters, t, c)
    ensures h.elections[t].leader == c
  {
    assert ElectionOk(h, t);
    var v := QuorumsMeet(h.peers, voters, h.elections[t].voters);
    assert VoterOk(h, t, v);
  }

  lemma ElectExtends(h: History, c: NodeId, voters: set<NodeId>)
    requires Inv(h) && c in h.term && h.term[c] !in h.elections
    requires Quorum(h.peers, voters) && VotedFor(h, voters, h.term[c], c)
    requires Slot(h.term[c], c) in h.bids && h.bids[Slot(h.term[c], c)] == h.log[c]
    ensures var g := Elect(h, c, voters);
      && Extends(h, g) && ElectionOk(g, h.term[c]) && LedgerOk(g, h.term[c]) && NodeOk(g, c)
      && AckOk(g, Ack(c, h.term[c], |h.log[c]|))
  {
    var t := h.term[c];
    var g := Elect(h, c, voters);
    assert NodeOk(h, c) && BidOk(h, Slot(t, c)) && Shape(h);
    ElectIsExtension(h, c, voters);
    hide Extends;
    assert Grows(h.ledger, g.ledger);
    forall v | v in voters ensures VoterOk(g, t, v) {
      assert BallotOk(h, Slot(t, v));
      BallotBeforeElection(h, g, t, v);
    }
    SoundGrows(h.ledger, g.ledger, h.log[c]);
    WriterLoyal(h, g, c);
  }

  lemma ElectIsExtension(h: History, c: NodeId, voters: set<NodeId>)
    requires Shape(h) && c in h.term && h.term[c] !in h.elections
    ensures Extends(h, Elect(h, c, voters))
  {
  }

  lemma ElectKeeps(h: History, c: NodeId, voters: set<NodeId>)
    requires Inv(h) && c in h.term && h.term[c] !in h.elections
    requires Quorum(h.peers, voters) && VotedFor(h, voters, h.term[c], c)
    requires Slot(h.term[c], c) in h.bids && h.bids[Slot(h.term[c], c)] == h.log[c]
    ensures Inv(Elect(h, c, voters))
    ensures Extends(h, Elect(h, c, voters))
  {
    hide NodeOk, LedgerOk, BidOk, BallotOk, ElectionOk, AckOk, CommitOk;
    var g := Elect(h, c, voters);
    ElectExtends(h, c, voters);
    RecordsStay(h, g);
    OthersStay(h, g);
    assert Shape(g);
  }

  /** A ballot cast before its term had a leader owes nothing to that leader. */
  lemma BallotBeforeElection(h: History, g: History, t: nat, v: NodeId)
    requires Extends(h, g) && t !in h.elections && BallotOk(h, Slot(t, v))
    requires forall a {:trigger AckOk(h, a)} | a in h.acks :: AckOk(h, a)
    ensures Loyal(g, v, h.ballots[Slot(t, v)].log, t, t)
  {
    var log := h.ballots[Slot(t, v)].log;
    assert Loyal(h, v, log, t, t) by {
      forall a, i: nat | a in h.acks && a.node == v && a.term < t && i <= a.index
        ensures Keeps(h, log, t, a.term, i)
      {
        assert Keeps(h, log, t + 1, a.term, i);
        if AllCarry(h, a.term, t, i) {
          assert AllCarry(h, a.term, t + 1, i);
        }
      }
    }
    LoyalGrows(h, g, v, log, t, t, t, t);
  }

  /** A node whose log is the ledger of its term honours what it acknowledges in that term. */
  lemma WriterLoyal(h: History, g: History, c: NodeId)
    requires Extends(h, g) && NodeOk(h, c) && g.term[c] == h.term[c]
    requires forall a {:trigger AckOk(h, a)} | a in h.acks :: AckOk(h, a)
    requires g.term[c] in g.ledger && g.ledger[g.term[c]] == g.log[c]
    requires Agree(h.log[c], g.log[c], |h.log[c]|)
    requires forall a | a in g.acks && a.node == c && a !in h.acks :: a.term == g.term[c] && a.index <= |g.log[c]|
    ensures Loyal(g, c, g.log[c], g.term[c] + 1, g.term[c] + 1)
  {
    var t := h.term[c];
    var log, until := g.log[c], t + 1;
    forall a, i: nat | a in g.acks && a.node == c && a.term < until && i <= a.index
      ensures Keeps(g, log, until, a.term, i)
    {
      if a in h.acks {
        assert AckOk(h, a);
        assert Keeps(h, h.log[c], t + 1, a.term, i);
        KeepsGrows(h, g, h.log[c], t + 1, t + 1, a.term, i);
      }
    }
  }

  // ----- Replicating

  lemma ExtendExtends(h: History, c: NodeId, e: Entry)
    requires Inv(h) && c in h.term && h.term[c] in h.elections
    requires h.log[c] == h.ledger[h.term[c]] && e.term == h.term[c]
    ensures var g := Extend(h, c, e);
      && Extends(h, g) && LedgerOk(g, h.term[c]) && NodeOk(g, c)
      && AckOk(g, Ack(c, h.term[c], |h.log[c]| + 1))
  {
    hide Inv, Extends, Sound, Loyal;
    var t := h.term[c];
    InvAt(h, c);
    var g := Extend(h, c, e);
    InvAtLedger(h, t);
    ExtendIsExtension(h, c, e);
    assert Grows(h.ledger, g.ledger);
    SoundGrows(h.ledger, g.ledger, h.log[c]);
    SoundNext(g.ledger, h.log[c], e);
    WriterLoyal(h, g, c);
  }

  lemma SoundNext(ledger: map<nat, Log>, log: Log, e: Entry)
    requires Sound(ledger, log) && e.term in ledger && ledger[e.term] == log + [e]
    ensures Sound(ledger, log + [e])
  {
    forall i | 0 <= i < |log + [e]| ensures Backed(ledger, log + [e], i) {
      if i < |log| { assert Backed(ledger, log, i); }
    }
  }

  lemma ExtendIsExtension(h: History, c: NodeId, e: Entry)
    requires Shape(h) && c in h.term && h.term[c] in h.elections && h.log[c] == h.ledger[h.term[c]]
    ensures Extends(h, Extend(h, c, e))
  {
    assert Extend(h, c, e).log.Keys == h.log.Keys;
  }

  lemma ExtendKeeps(h: History, c: NodeId, e: Entry)
    requires Inv(h) && c in h.term && h.term[c] in h.elections
    requires h.log[c] == h.ledger[h.term[c]] && e.term == h.term[c]
    ensures Inv(Extend(h, c, e))
    ensures Extends(h, Extend(h, c, e))
  {
    hide NodeOk, LedgerOk, BidOk, BallotOk, ElectionOk, AckOk, CommitOk;
    var g := Extend(h, c, e);
    ExtendExtends(h, c, e);
    RecordsStay(h, g);
    OthersStay(h, g);
    assert Shape(g);
  }

  /** What a follower's log may become on hearing from the leader of its term. */
  ghost predicate MayAdopt(h: History, v: NodeId, log: Log, m: nat) {
    && v in h.term && v in h.log && h.term[v] in h.ledger
    && var leader := h.ledger[h.term[v]];
    && Agree(log, leader, m)
    && (log == h.log[v] || log == leader[..m])
    && forall k | Agree(h.log[v], leader, k) :: Agree(log, leader, k)
  }

  lemma AdoptSound(h: History, v: NodeId, log: Log, m: nat)
    requires MayAdopt(h, v, log, m) && NodeOk(h, v) && LedgerOk(h, h.term[v])
    ensures Sound(h.ledger, log) && TermsBelow(log, h.term[v] + 1)
  {
    var leader := h.ledger[h.term[v]];
    forall i | 0 <= i < |log| ensures Backed(h.ledger, log, i) {
      if log == h.log[v] {
        assert Backed(h.ledger, h.log[v], i);
      } else {
        assert log[i] == leader[i];
        assert Backed(h.ledger, leader, i);
      }
    }
  }

  lemma AcceptExtends(h: History, v: NodeId, log: Log, m: nat)
    requires Inv(h) && MayAdopt(h, v, log, m)
    ensures var g := Accept(h, v, log, m);
      Extends(h, g) && NodeOk(g, v) && AckOk(g, Ack(v, h.term[v], m))
  {
    var t := h.term[v];
    var g := Accept(h, v, log, m);
    assert NodeOk(h, v) && LedgerOk(h, t) && ElectionOk(h, t) && Shape(h);
    AcceptIsExtension(h, v, log, m);
    hide Extends, MayAdopt;
    AdoptSound(h, v, log, m);
    var until := t + 1;
    forall a, i: nat | a in g.acks && a.node == v && i <= a.index ensures Keeps(g, log, until, a.term, i) {
      if a in h.acks {
        assert AckOk(h, a);
        AdoptKeeps(h, v, log, m, a, i);
        KeepsGrows(h, g, log, t + 1, t + 1, a.term, i);
      }
    }
  }

  lemma AcceptIsExtension(h: History, v: NodeId, log: Log, m: nat)
    requires Shape(h) && v in h.term
    ensures Extends(h, Accept(h, v, log, m))
  {
    assert Accept(h, v, log, m).log.Keys == h.log.Keys;
  }

  lemma AcceptKeeps(h: History, v: NodeId, log: Log, m: nat)
    requires Inv(h) && MayAdopt(h, v, log, m)
    ensures Inv(Accept(h, v, log, m))
    ensures Extends(h, Accept(h, v, log, m))
  {
    hide NodeOk, LedgerOk, BidOk, BallotOk, ElectionOk, AckOk, CommitOk;
    var g := Accept(h, v, log, m);
    AcceptExtends(h, v, log, m);
    RecordsStay(h, g);
    OthersStay(h, g);
    assert Shape(g);
  }

  /** A merge can drop an acknowledged prefix only if the sending leader itself lacked it. */
  lemma AdoptKeeps(h: History, v: NodeId, log: Log, m: nat, a: Ack, i: nat)
    requires MayAdopt(h, v, log, m) && NodeOk(h, v) && ElectionOk(h, h.term[v])
    requires a in h.acks && a.node == v && AckOk(h, a) && i <= a.index
    ensures Keeps(h, log, h.term[v] + 1, a.term, i)
  {
    var t := h.term[v];
    assert Keeps(h, h.log[v], t + 1, a.term, i);
    if AllCarry(h, a.term, t + 1, i) {
      if a.term < t {
        assert Agree(h.elections[t].log, h.ledger[a.term], i);
      }
      assert Agree(h.log[v], h.ledger[t], i);
    }
  }

  lemma RecordKeeps(h: History, c: Commit)
    requires Inv(h) && CommitOk(h, c)
    ensures Inv(Record(h, c))
    ensures Extends(h, Record(h, c))
  {
    var g := Record(h, c);
    assert Extends(h, g);
    CommitStays(h, g, c);
    RecordsStay(h, g);
    OthersStay(h, g);
    assert Shape(g);
  }
}
