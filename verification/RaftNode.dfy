/** The Raft node object. Each method is one region of code that holds the node's lock, and is
    proved to take the step that the protocol model takes. */
module RaftNode {
  import opened Bytes
  import opened ClusterConfig
  import opened Logs
  import opened Options
  import opened QuorumIndex
  import opened ShardedStore
  import opened Store
  import opened WalRecord
  import opened WalLog
  import opened RaftInvariant
  import L = RaftLog
  import R = RaftSteps
  import S = Storage

  /** A map that gives every peer but `self` the same value. */
  method ForOthers(peers: seq<NodeId>, self: NodeId, value: nat) returns (m: map<NodeId, nat>)
    ensures m == R.ForOthers(peers, self, value)
    ensures m.Keys == Ids(peers) - {self} && forall p | p in m :: m[p] == value
  {
    m := map[];
    for i := 0 to |peers|
      invariant m == R.ForOthers(peers[..i], self, value)
    {
      assert peers[..i + 1] == peers[..i] + [peers[i]];
      if peers[i] != self { m := m[peers[i] := value]; }
    }
    assert peers[..|peers|] == peers;
  }

  class Node {
    const id: NodeId
    const peers: seq<NodeId>
    const log: L.Log
    const storage: S.DurableStorage
    var role: R.Role
    var term: nat
    var votedFor: NodeId
    var leaderId: NodeId
    var commitIndex: nat
    var nextIndex: map<NodeId, nat>
    var matchIndex: map<NodeId, nat>

    ghost predicate Valid()
      reads this, log, log.wal, storage, storage.kv.shards
    {
      && Distinct(peers) && id in peers
      && log.Valid() && storage.kv.Valid()
      && (role == R.Leader ==>
        && nextIndex.Keys == Ids(peers) - {id} && matchIndex.Keys == Ids(peers) - {id}
        && forall p | p in nextIndex :: nextIndex[p] > 0)
    }

    /** The node as the protocol model sees it. */
    ghost function State(): R.Node
      requires storage.kv.Valid()
      reads this, log, storage, storage.kv.shards
    {
      R.Node(id, role, term, votedFor, leaderId, log.Value(), commitIndex, nextIndex, matchIndex,
             storage.lastApplied, storage.kv.Contents())
    }

    /** Start from opened storage, the loaded log and the persisted term and vote. */
    constructor (id: NodeId, peers: seq<NodeId>, storage: S.DurableStorage, log: L.Log, term: nat, votedFor: NodeId)
      requires Distinct(peers) && id in peers && storage.kv.Valid()
      ensures this.id == id && this.peers == peers && this.storage == storage && this.log == log
      ensures log.Valid() ==> Valid()
      ensures State() == R.Node(id, R.Follower, term, votedFor, 0, log.Value(), 0, map[], map[],
                                storage.lastApplied, storage.kv.Contents())
    {
      this.id, this.peers, this.storage, this.log := id, peers, storage, log;
      this.term, this.votedFor, role, leaderId, commitIndex := term, votedFor, R.Follower, 0, 0;
      nextIndex, matchIndex := map[], map[];
    }

    /** Changing fields of the node alone leaves its log and store as they were. */
    twostate lemma SameRest()
      requires old(Valid()) && unchanged(log, log.wal, storage, storage.kv.shards)
      ensures log.Valid() && log.Value() == old(log.Value())
      ensures storage.kv.Valid() && storage.kv.Contents() == old(storage.kv.Contents())
    {
    }

    // ----- Term and role changes

    method BecomeFollower(newTerm: nat)
      requires Valid()
      modifies this
      ensures Valid() && State() == R.BecomeFollower(old(State()), newTerm)
    {
      term, votedFor, role, leaderId := newTerm, 0, R.Follower, 0;
    }

    method BecomeLeader()
      requires Valid()
      modifies this
      ensures Valid() && State() == R.BecomeLeader(old(State()), peers)
    {
      hide L.Log.Value, ShardedKV.Valid, ShardedKV.Contents, Distinct, Ids, R.ForOthers, EncodeAll;
      role, leaderId := R.Leader, id;
      var last := log.LastIndex();
      nextIndex := ForOthers(peers, id, last + 1);
      matchIndex := ForOthers(peers, id, 0);
      SameRest();
    }

    method StartElection() returns (req: R.VoteRequest)
      requires Valid()
      modifies this
      ensures Valid() && State() == R.StartElection(old(State())) && req == R.CampaignRequest(State())
    {
      hide L.Log.Value, ShardedKV.Valid, ShardedKV.Contents, Distinct, Ids, EncodeAll;
      term := term + 1;
      votedFor, role, leaderId := id, R.Candidate, 0;
      var lastIndex := log.LastIndex();
      var lastTerm := log.LastTerm();
      SameRest();
      req := R.VoteRequest(term, id, lastIndex, lastTerm);
    }

    /** Count one reply of a campaign begun in `campaignTerm`. */
    method OnVoteReply(campaignTerm: nat, votes: nat, resp: R.VoteResponse) returns (live: bool, votes': nat)
      requires Valid()
      modifies this
      ensures Valid() && live == (old(role) == R.Candidate && old(term) == campaignTerm && resp.term <= campaignTerm)
      ensures votes' == if live && resp.granted then votes + 1 else votes
      ensures State() ==
        if old(role) == R.Candidate && old(term) == campaignTerm then R.Hear(old(State()), resp.term) else old(State())
    {
      if role != R.Candidate || term != campaignTerm { return false, votes; }
      if resp.term > term {
        BecomeFollower(resp.term);
        return false, votes;
      }
      return true, if resp.granted then votes + 1 else votes;
    }

    method FinishElection(campaignTerm: nat, votes: nat)
      requires Valid()
      modifies this
      ensures Valid()
      ensures State() ==
        if old(role) == R.Candidate && old(term) == campaignTerm && votes >= Majority(peers)
        then R.BecomeLeader(old(State()), peers) else old(State())
    {
      if role == R.Candidate && term == campaignTerm && votes >= |peers| / 2 + 1 { BecomeLeader(); }
    }

    // ----- RequestVote

    method HandleRequestVote(req: R.VoteRequest) returns (resp: R.VoteResponse)
      requires Valid()
      modifies this
      ensures Valid() && (State(), resp) == R.OnVoteRequest(old(State()), req)
      ensures resp.term == term == (if req.term > old(term) then req.term else old(term))
      ensures resp.granted <==>
        && req.term >= old(term) && (req.term > old(term) || old(votedFor) == 0 || old(votedFor) == req.candidate)
        && var last := LastTerm(old(log.Value()));
           req.lastLogTerm > last || (req.lastLogTerm == last && req.lastLogIndex >= |old(log.Value())|)
      ensures resp.granted ==> votedFor == req.candidate
    {
      if req.term > term { BecomeFollower(req.term); }
      if req.term < term { return R.VoteResponse(term, false); }
      var canVote := votedFor == 0 || votedFor == req.candidate;
      var lastTerm := log.LastTerm();
      var lastIndex := log.LastIndex();
      var upToDate := req.lastLogTerm > lastTerm || (req.lastLogTerm == lastTerm && req.lastLogIndex >= lastIndex);
      if canVote && upToDate {
        votedFor := req.candidate;
        return R.VoteResponse(term, true);
      }
      return R.VoteResponse(term, false);
    }

    // ----- Applying and committing

    /** Apply entry after entry up to the commit index. */
    method ApplyCommitted()
      requires Valid()
      modifies storage`lastApplied, storage.kv.shards
      ensures Valid() && State() == R.ApplyCommitted(old(State()))
    {
      hide Distinct, Ids, EncodeAll, ShardedKV.Valid, ShardedKV.Contents, ApplyEntry;
      while storage.lastApplied < commitIndex
        invariant Valid() && R.ApplyCommitted(State()) == R.ApplyCommitted(old(State()))
        decreases commitIndex - storage.lastApplied
      {
        var next := storage.lastApplied + 1;
        var entry := log.Get(next);
        if entry.None? { break; }
        assert log.Value()[next - 1] == EntryOf(entry.value) && entry.value.index == next;
        storage.ApplyCommitted(entry.value);
      }
    }

    /** Collect the known indices in whatever order the map gives them, and commit what a majority
        has reached if it is of the current term. */
    method AdvanceCommit()
      requires Valid() && role == R.Leader
      modifies `commitIndex, storage`lastApplied, storage.kv.shards
      ensures Valid() && State() == R.AdvanceCommit(old(State()), peers)
    {
      hide Distinct, Ids, EncodeAll, ShardedKV.Valid, ShardedKV.Contents, ApplyEntry, R.ApplyCommitted, QuorumIndexOf,
        R.AdvanceCommit, R.KnownIndices;
      var last := log.LastIndex();
      var matches := Listed(matchIndex);
      ListedIsKnown(State(), peers, matches);
      var candidate := FindQuorumIndex([last] + matches);
      AdvancesTo(State(), peers, candidate);
      if candidate <= commitIndex { return; }
      var entry := log.Get(candidate);
      if entry.Some? && entry.value.term == term {
        assert log.Value()[candidate - 1] == EntryOf(entry.value);
        commitIndex := candidate;
        SameStored();
        ApplyCommitted();
      }
    }

    /** Changing the commit index alone. */
    twostate lemma SameStored()
      requires old(Valid()) && unchanged(log, log.wal, storage, storage.kv.shards)
      requires unchanged(`role, `term, `votedFor, `leaderId, `nextIndex, `matchIndex)
      ensures Valid() && State() == old(State()).(commitIndex := commitIndex)
    {
      hide Distinct, Ids, EncodeAll;
      SameRest();
    }

    // ----- AppendEntries

    /** The append loop: skip what is held, drop a conflicting tail, append the rest. */
    method MergeEntries(prevIndex: nat, sent: seq<Entry>)
      requires Valid() && prevIndex <= |log.Value()|
      modifies log`entries, log.wal
      ensures Valid() && State() == old(State()).(log := Merge(old(log.Value()), prevIndex, sent))
    {
      hide Distinct, Ids, EncodeAll, ShardedKV.Valid, ShardedKV.Contents, Merge;
      for k := 0 to |sent|
        invariant Valid() && prevIndex + k <= |log.Value()|
        invariant Merge(log.Value(), prevIndex + k, sent[k..]) == Merge(old(log.Value()), prevIndex, sent)
      {
        ghost var before := log.Value();
        var index, entry := prevIndex + k + 1, sent[k];
        var existing := log.Get(index);
        assert sent[k..][1..] == sent[k + 1..] && sent[k..][0] == entry;
        MergeStep(before, prevIndex + k, sent[k..]);
        if existing.Some? {
          assert before[index - 1] == EntryOf(existing.value);
          if existing.value.term == entry.term { continue; }
          var _ := log.TruncateFrom(index);
        }
        assert log.Value() == before[..index - 1];
        var _ := log.Append(Record(entry.term, 0, entry.op, entry.key, entry.value));
      }
      MergeStep(log.Value(), prevIndex + |sent|, []);
    }

    /** Take up the leader's term and identity. */
    method FollowLeader(req: R.AppendRequest)
      requires Valid() && req.term >= term
      modifies this
      ensures Valid() && State() == R.Follow(old(State()), req)
    {
      hide Distinct, Ids, EncodeAll, ShardedKV.Valid, ShardedKV.Contents;
      if req.term > term {
        BecomeFollower(req.term);
      } else if role == R.Candidate {
        role := R.Follower;
      }
      leaderId := req.leader;
      SameRest();
    }

    /** The consistency check. */
    method PrevHeld(req: R.AppendRequest) returns (held: bool)
      requires Valid()
      ensures held == R.PrevMatches(log.Value(), req)
    {
      hide Distinct, Ids, EncodeAll;
      if req.prevIndex > 0 {
        var prev := log.Get(req.prevIndex);
        if prev.None? { return false; }
        assert log.Value()[req.prevIndex - 1] == EntryOf(prev.value);
        if prev.value.term != req.prevTerm { return false; }
      }
      return true;
    }

    method CommitUpTo(leaderCommit: nat)
      requires Valid()
      modifies `commitIndex, storage`lastApplied, storage.kv.shards
      ensures Valid() && State() == R.CommitUpTo(old(State()), leaderCommit)
    {
      hide Distinct, Ids, EncodeAll, R.ApplyCommitted, ShardedKV.Valid, ShardedKV.Contents;
      if leaderCommit > commitIndex {
        var last := log.LastIndex();
        commitIndex := if leaderCommit < last then leaderCommit else last;
        SameStored();
        ApplyCommitted();
      }
    }

    method HandleAppendEntries(req: R.AppendRequest) returns (resp: R.AppendResponse)
      requires Valid()
      modifies this, log`entries, log.wal, storage`lastApplied, storage.kv.shards
      ensures Valid() && (State(), resp) == R.OnAppendRequest(old(State()), req)
    {
      hide Valid, Merge, R.Follow, R.CommitUpTo, R.PrevMatches;
      if req.term < term { return R.AppendResponse(term, false); }
      FollowLeader(req);
      resp := R.AppendResponse(term, false);
      var held := PrevHeld(req);
      if !held { return; }
      PrevWithin(log.Value(), req);
      MergeEntries(req.prevIndex, req.entries);
      CommitUpTo(req.leaderCommit);
      resp := R.AppendResponse(term, true);
    }

    // ----- Replication

    /** The term before the entries to send; 0 when there is none. */
    method PrevTerm(prev: nat) returns (t: nat)
      requires Valid()
      ensures t == if 0 < prev <= |log.Value()| then log.Value()[prev - 1].term else 0
    {
      hide Distinct, Ids, EncodeAll;
      if prev == 0 { return 0; }
      var entry := log.Get(prev);
      if entry.None? { return 0; }
      assert log.Value()[prev - 1] == EntryOf(entry.value);
      return entry.value.term;
    }

    /** The first half of a replication round: what to send, and the index of the last entry sent. */
    method PrepareAppend(peer: NodeId) returns (r: Option<R.AppendRequest>, last: nat)
      requires Valid() && peer in peers && peer != id
      ensures r.Some? <==> role == R.Leader
      ensures r.Some? ==> peer in nextIndex && nextIndex[peer] > 0 && r.value == R.ReplicateRequest(State(), peer)
      ensures r.Some? && r.value.entries != [] ==> last == r.value.prevIndex + |r.value.entries|
    {
      hide Distinct, EncodeAll, ShardedKV.Valid, ShardedKV.Contents;
      if role != R.Leader { return None, 0; }
      var next := nextIndex[peer];
      var prevTerm := PrevTerm(next - 1);
      var sent := log.EntriesFrom(next);
      assert Entries(sent) == R.EntriesFrom(log.Value(), next);
      last := if sent == [] then 0 else sent[|sent| - 1].index;
      return Some(R.AppendRequest(term, id, next - 1, prevTerm, commitIndex, Entries(sent))), last;
    }

    /** The second half: take in the reply. */
    method OnAppendReply(peer: NodeId, req: R.AppendRequest, last: nat, resp: R.AppendResponse)
      requires Valid() && peer in peers && peer != id
      requires req.entries != [] ==> last == req.prevIndex + |req.entries|
      modifies this, storage`lastApplied, storage.kv.shards
      ensures Valid() && State() == R.OnAppendResponse(old(State()), peers, peer, req, resp)
      ensures old(role) == R.Leader && old(term) == req.term ==>
        if resp.term > req.term then term == resp.term && role == R.Follower && votedFor == 0 && leaderId == 0
        else term == req.term && role == R.Leader
    {
      hide Distinct, EncodeAll, ShardedKV.Valid, ShardedKV.Contents, R.AdvanceCommit;
      if role != R.Leader || term != req.term { return; }
      if resp.term > term {
        BecomeFollower(resp.term);
        return;
      }
      if resp.success {
        if req.entries != [] {
          matchIndex := matchIndex[peer := last];
          nextIndex := nextIndex[peer := last + 1];
        }
        SameRest();
        AdvanceCommit();
      } else if nextIndex[peer] > 1 {
        nextIndex := nextIndex[peer := nextIndex[peer] - 1];
        SameRest();
      }
    }

    /** The locked part of a proposal: append at the leader, remembering the index to wait for. */
    method Propose(op: Op, key: Bytes, value: Bytes) returns (index: Option<nat>)
      requires Valid()
      modifies log`entries, log.wal
      ensures Valid() && State() == R.Propose(old(State()), op, key, value)
      ensures index == if role == R.Leader then Some(|log.Value()|) else None
    {
      hide Distinct, Ids, EncodeAll, ShardedKV.Valid, ShardedKV.Contents;
      if role != R.Leader { return None; }
      var _ := log.Append(Record(term, 0, op, key, value));
      var last := log.LastIndex();
      return Some(last);
    }

    // ----- Confirming leadership

    /** One probe of a confirmation round begun in `roundTerm`. */
    method PrepareProbe(roundTerm: nat, peer: NodeId) returns (r: Option<R.AppendRequest>)
      requires Valid() && peer in peers && peer != id
      ensures r.Some? <==> role == R.Leader && term == roundTerm
      ensures r.Some? ==> peer in nextIndex && nextIndex[peer] > 0 && r.value == R.ProbeRequest(State(), peer)
    {
      hide Distinct, EncodeAll, ShardedKV.Valid, ShardedKV.Contents;
      if role != R.Leader || term != roundTerm { return None; }
      var next := nextIndex[peer];
      var prevTerm := PrevTerm(next - 1);
      return Some(R.AppendRequest(term, id, next - 1, prevTerm, commitIndex, []));
    }

    method OnProbeReply(roundTerm: nat, resp: R.AppendResponse) returns (outcome: R.RoundOutcome)
      requires Valid()
      modifies this
      ensures Valid() && (State(), outcome) == R.OnProbeResponse(old(State()), roundTerm, resp)
    {
      if resp.term > term {
        BecomeFollower(resp.term);
        return R.Abandoned;
      }
      if role != R.Leader || term != roundTerm { return R.Abandoned; }
      return if resp.success then R.Counted else R.NotCounted;
    }
  }

  /** A process restart: storage replays the file, the log is loaded from it, and term and vote come
      back as persisted. A corrupt file stops the start; a torn tail does not, but then the file is
      more than the log. */
  method Restart(file: Bytes, hash: Bytes -> nat, id: NodeId, peers: seq<NodeId>, term: nat, votedFor: NodeId)
      returns (r: Option<Node>)
    requires Distinct(peers) && id in peers
    ensures r.Some? <==> Scan(file).clean
    ensures r.Some? ==> r.value.peers == peers && r.value.storage.kv.Valid() && r.value.log.wal.file == file
    ensures r.Some? && L.Numbered(Scan(file).records) ==>
      r.value.State() == R.Restart(R.Fresh(id).(term := term, votedFor := votedFor, log := Entries(Scan(file).records)))
    ensures r.Some? && L.Numbered(Scan(file).records) && EncodeAll(Scan(file).records) == file ==> r.value.Valid()
  {
    hide Scan, EncodeAll, Replay, ShardedKV.Valid, ShardedKV.Contents, Distinct;
    var storage := new S.DurableStorage(file, hash);
    if !storage.recovered { return None; }
    var log := new L.Log(storage.wal);
    var _ := log.Load();
    var node := new Node(id, peers, storage, log, term, votedFor);
    return Some(node);
  }

  lemma PrevWithin(log: Log, req: R.AppendRequest)
    requires R.PrevMatches(log, req)
    ensures req.prevIndex <= |log|
  {
  }

  // ----- The known indices as a list

  /** How often a value of at least `x` occurs in the map. */
  ghost function Reaching(m: map<NodeId, nat>, keys: set<NodeId>, x: nat): set<NodeId>
    requires keys <= m.Keys
  {
    set k | k in keys && m[k] >= x
  }

  /** The values of a map in an arbitrary order. */
  method Listed(m: map<NodeId, nat>) returns (s: seq<nat>)
    ensures |s| == |m|
    ensures forall x: nat :: CountAtLeast(s, x) == |Reaching(m, m.Keys, x)|
  {
    s := [];
    var keys := m.Keys;
    ghost var done: set<NodeId> := {};
    while keys != {}
      invariant keys + done == m.Keys && keys !! done && |s| == |done|
      invariant forall x: nat :: CountAtLeast(s, x) == |Reaching(m, done, x)|
      decreases |keys|
    {
      var k :| k in keys;
      keys := keys - {k};
      forall x: nat ensures CountAtLeast(s + [m[k]], x) == |Reaching(m, done + {k}, x)| {
        CountAppend(s, m[k], x);
        assert Reaching(m, done + {k}, x) == if m[k] >= x then Reaching(m, done, x) + {k} else Reaching(m, done, x);
      }
      s := s + [m[k]];
      done := done + {k};
    }
  }

  /** The commit rule, given the index a majority has reached. */
  lemma AdvancesTo(n: R.Node, peers: seq<NodeId>, candidate: nat)
    requires candidate == QuorumIndexOf(R.KnownIndices(n, peers))
    ensures R.AdvanceCommit(n, peers) ==
      if n.commitIndex < candidate <= |n.log| && n.log[candidate - 1].term == n.term
      then R.ApplyCommitted(n.(commitIndex := candidate)) else n
  {
  }

  /** The leader's own index and the listed match indices have the same quorum index, in whatever
      order they are listed. */
  lemma ListedIsKnown(n: R.Node, peers: seq<NodeId>, matches: seq<nat>)
    requires Distinct(peers) && n.id in peers && n.matchIndex.Keys == Ids(peers) - {n.id}
    requires |matches| == |n.matchIndex|
    requires forall x: nat :: CountAtLeast(matches, x) == |Reaching(n.matchIndex, n.matchIndex.Keys, x)|
    ensures QuorumIndexOf([|n.log|] + matches) == QuorumIndexOf(R.KnownIndices(n, peers))
  {
    var known := R.KnownIndices(n, peers);
    var listed := [|n.log|] + matches;
    assert peers[..|peers|] == peers;
    forall x: nat ensures CountAtLeast(listed, x) == CountAtLeast(known, x) {
      MatchListCounts(n, peers, |peers|, x);
      assert Reached(n, peers, x) == Reaching(n.matchIndex, n.matchIndex.Keys, x);
      CountPrepend(|n.log|, matches, x);
      CountPrepend(|n.log|, R.MatchList(n, peers), x);
    }
    MatchListCounts(n, peers, |peers|, 0);
    IdsCount(peers);
    assert n.matchIndex.Keys + {n.id} == Ids(peers);
    QuorumIndexUnique(known, QuorumIndexOf(listed), QuorumIndexOf(known));
  }
}
