/** The static peer list of a cluster and the majority arithmetic that rests on it. */
module ClusterConfig {
  type NodeId = nat

  /** A line of the configuration; the host is irrelevant to agreement and is left out. */
  datatype PeerInfo = PeerInfo(nodeId: NodeId)

  datatype Config = Config(localNodeId: NodeId, leaderNodeId: NodeId, peers: seq<PeerInfo>)

  datatype Verdict = Accepted | MissingNodeId | NoPeers | DuplicatePeer(id: NodeId) | LocalNotListed | LeaderNotListed

  predicate Distinct(peers: seq<NodeId>) {
    forall i, j | 0 <= i < j < |peers| :: peers[i] != peers[j]
  }

  function Ids(peers: seq<NodeId>): set<NodeId> {
    set i | 0 <= i < |peers| :: peers[i]
  }

  function PeerIds(config: Config): (ids: seq<NodeId>)
    ensures |ids| == |config.peers|
  {
    seq(|config.peers|, i requires 0 <= i < |config.peers| => config.peers[i].nodeId)
  }

  function Majority(peers: seq<NodeId>): nat {
    |peers| / 2 + 1
  }

  ghost predicate Quorum(peers: seq<NodeId>, s: set<NodeId>) {
    s <= Ids(peers) && |s| >= Majority(peers)
  }

  /** What a node may rely on once its configuration has been accepted. */
  ghost predicate WellFormed(config: Config) {
    && config.localNodeId != 0
    && Distinct(PeerIds(config))
    && config.localNodeId in PeerIds(config)
    && (config.leaderNodeId == 0 || config.leaderNodeId in PeerIds(config))
  }

  method Validate(config: Config) returns (verdict: Verdict)
    ensures verdict.Accepted? <==> WellFormed(config)
    ensures verdict.DuplicatePeer? ==> exists i, j | 0 <= i < j < |config.peers| ::
        config.peers[i].nodeId == verdict.id == config.peers[j].nodeId
  {
    if config.localNodeId == 0 { return MissingNodeId; }
    if config.peers == [] { return NoPeers; }
    ghost var ids := PeerIds(config);
    var seenLocal, seenLeader := false, config.leaderNodeId == 0;
    for i := 0 to |config.peers|
      invariant seenLocal <==> config.localNodeId in ids[..i]
      invariant seenLeader <==> config.leaderNodeId == 0 || config.leaderNodeId in ids[..i]
      invariant forall k, j | 0 <= k < i && k < j < |ids| :: ids[k] != ids[j]
    {
      var peer := config.peers[i];
      for j := i + 1 to |config.peers|
        invariant forall k | i < k < j :: ids[k] != ids[i]
      {
        if config.peers[j].nodeId == peer.nodeId {
          assert ids[i] == ids[j];
          return DuplicatePeer(peer.nodeId);
        }
      }
      if peer.nodeId == config.localNodeId { seenLocal := true; }
      if peer.nodeId == config.leaderNodeId { seenLeader := true; }
      assert ids[..i + 1] == ids[..i] + [peer.nodeId];
    }
    assert ids[..|ids|] == ids;
    if !seenLocal { return LocalNotListed; }
    if !seenLeader { return LeaderNotListed; }
    return Accepted;
  }

  lemma {:induction false} IdsCount(peers: seq<NodeId>)
    requires Distinct(peers)
    ensures |Ids(peers)| == |peers|
  {
    if peers == [] {
      assert Ids(peers) == {};
    } else {
      var n := |peers| - 1;
      var rest := peers[..n];
      IdsCount(rest);
      assert Ids(peers) == Ids(rest) + {peers[n]};
      assert peers[n] !in Ids(rest);
    }
  }

  lemma IdsPrefix(peers: seq<NodeId>, k: nat)
    requires k < |peers|
    ensures Ids(peers[..k + 1]) == Ids(peers[..k]) + {peers[k]}
    ensures Ids(peers[..k]) <= Ids(peers)
    ensures Distinct(peers) ==> peers[k] !in Ids(peers[..k])
  {
    assert peers[..k + 1] == peers[..k] + [peers[k]];
  }

  /** Any two majorities of a validated peer list have a node in common. */
  lemma QuorumsMeet(peers: seq<NodeId>, a: set<NodeId>, b: set<NodeId>) returns (v: NodeId)
    requires Distinct(peers) && Quorum(peers, a) && Quorum(peers, b)
    ensures v in a && v in b
  {
    IdsCount(peers);
    SubsetCount(a + b, Ids(peers));
    assert |a + b| == |a| + |b| - |a * b|;
    assert a * b != {};
    v :| v in a * b;
  }

  lemma {:induction false} SubsetCount(a: set<NodeId>, b: set<NodeId>)
    requires a <= b
    ensures |a| <= |b|
  {
    assert b == a + (b - a);
  }
}
