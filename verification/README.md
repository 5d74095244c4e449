# A verified model of NeuralKV

NeuralKV is a Raft-replicated key-value store. This project models its hard core in Dafny and proves
what the system is for: that a cluster agrees, that an acknowledged write survives a crash, that a
damaged log is noticed, that messages mean the same on both ends of a wire, and that the checker used
in the system's own tests does not cry wolf.

Check everything with `dafny verify dfyconfig.toml`.

## What is modelled

**Raft.** `RaftSteps` holds what one node does in each region of code that runs under its lock, as
functions on the node's state. `RaftCluster` puts nodes, in-flight messages, elections and confirmation
rounds into a step system. Messages are never removed from the network, so each may arrive late, often
or never; nodes may restart between steps. `RaftHistory` keeps the bookkeeping (ballots, elections, the
log each leader wrote, acknowledgements, commits) that no step reads. `RaftSafety` states the theorems
over every run, `RaftRestart` those on restarted nodes and `RaftClient` the one that a client sees.
`RaftEffects` says what each kind of step does in every run: the whole new state of the node and what it
sends, decided by what the cluster has voted, elected and written and not by the functions of `RaftSteps`.
`RaftBuild` builds runs of three nodes: elections, proposals, backing off, shipping a log, committing it and
confirming a round, for any log. With it `RaftClaim` proves which commit claims a leader may send,
`RaftFresh` which confirmed leaders read fresh, and `RaftWitness` shows two more claims that fail. `RaftNode`
is the node as an object, over the log object of `RaftLog` and the storage object of `Storage`; each of its
methods is proved to take exactly the step of `RaftSteps`.

**The write-ahead log.** `Crc32`, `CrcSteps`, `CrcBursts`, `CrcLinear`, `CrcCheck` and `CrcMiss` treat the checksum, `WalRecord` the record
format and its reader, `WalFile` the reader on a file whose reads may fall short, `WalLog` whole logs
and cuts, `WalWriter` and `RaftLog` the objects that write them, `Recovery` and `ShardedStore` the
replay into 256 shards. `GroupCommit` is the step system of many writing threads and `DurableWrites`
its theorems.

**Messages.** `Wire`, `Codec`, `RpcCodec` and `Frames` are encoders, decoders and the frame parser;
`Formats` fixes the bytes of every format, position by position and with the protocol's own numbers;
`Connection` is the loop that drains a socket's input.

**The checker.** `Linearizability` is the single-key checker and what a passing history is.

### Conventions

- Bytes are integers from 0 to 255; numbers are unbounded and truncated where the formats do so.
- A log entry's index is its position plus one; `RaftLog` proves that the stored indices are exactly that.
- `votedFor` and `leaderId` are 0 for "none". A run needs distinct, non-zero peer ids, which is what
  configuration parsing and validation guarantee.
- `CoveredRun` restricts a run to append requests whose commit claim is safe (`RaftCommit.SafeClaim`): the
  request reaches the claimed index (`prevIndex + |entries| >= leaderCommit`), or the claimed entry has the
  term of the entry that the request builds on, or that term is the one before the sender's and the next
  entry has it too. Replication requests always reach it; the empty confirmation probe need not.
  `RaftClaim.ClaimSafeIff` proves that no weaker condition on a probe will do: every other probe misleads a
  receiver in some run of three nodes whose other claims are all safe. Election safety, log matching, leader
  completeness, match indices, backing off, redelivery and read confirmation need no such restriction.
- A prefix of a log is committed if some leader committed an index that reaches it and wrote those entries
  (`Certified`).
- A reply that arrives several times stands for several requests in flight at once: a heartbeat and any number
  of proposals may address a peer with the same next index, and each refusal lowers it.
- Terms and votes are persisted atomically and log input and output succeeds.

### What the code does not keep

Some stronger claims that one might expect are false of the code. Each has a concrete run or input:

- `RaftClaim.UnsafeClaimBreaksSafety`: a confirmation probe can make a lagging follower apply an entry that
  was never committed. `RaftClaim.ClaimSafeIff` gives the exact condition on a probe.
- `RaftWitness.LostProposalAcknowledged`: a proposal is acknowledged by index alone, so the acknowledged
  entry may be another one. `RaftSafety.AcknowledgedProposal` gives the exact condition.
- `RaftWitness.RestartServesUncommitted`: recovery replays entries that were never committed. A restarted node
  serves committed data for as long as it runs exactly if its whole log was committed when it went down
  (`RaftRestart.RestartedMemoryIsReplay` and `UncommittedIsServed`), which a node can tell from its own
  commit index (`KnownCommitted`). `RaftRestart.RestartedMemory` says what it serves otherwise, for good.
- `RaftFresh.FallsAndReads`: a confirmed leader may serve an old value. `RaftFresh.ReadFreshIff`: it is up to
  date in every run exactly if it has committed the whole log it was elected with.
- `DurableWrites.UnwrittenSyncSucceeds`: Sync reports success for an index not yet written.
  `DurableWrites.SyncDurableIffWritten`: the index is durable exactly if it had been written by then.
- `WalLog.AppendAfterTearIsLost`: a record appended after a torn tail can be invisible to recovery.
  `WalLog.AppendSafeIff`: appending is safe exactly if the file is nothing but whole records.
- `WalRecord.KeyLengthLooksTorn` and `ValueLengthLooksTorn`: a changed length can look like a torn tail.
  `WalRecord.ChangesDetectedIff`: one-byte changes in any other field, and in no length field, are all noticed.
- `CrcMiss.SpanMissed`: a change of four consecutive bytes across the end of the checksum can go unnoticed.
  `WalRecord.DamageSeenIff` gives the exact condition for damage of any extent outside the lengths.
- `DurableWrites.AcknowledgedFoundIff`: an acknowledged write is found after a crash exactly if all records up
  to it are within the reader's limits, which the writer does not enforce.
- `RpcCodec.FlagExactIff`: a response body with a flag byte above 1 is accepted though no encoder writes it.
- `Linearizability.PassingIsNotLinearizable`: the checker judges each read alone.
- `Linearizability.NoReplyIsIgnored`: it takes a write whose reply was lost as never made.

## Model

| member | source | states |
|---|---|---|
| `ClusterConfig.Validate` | src/cluster/cluster_config.cpp:61-90 | Accepts a configuration if and only if ids are distinct, the local node is listed and a named leader is listed; a reported duplicate really occurs twice |
| `ClusterConfig.IdsCount` | src/cluster/cluster_config.cpp:71-79 | A validated list of n peers has n different nodes |
| `ClusterConfig.QuorumsMeet` | src/raft/node.cpp:507-531 | Any two majorities of a validated peer list share a node |
| `QuorumIndex.QuorumIndexUnique` | src/raft/node.cpp:408-427 | At most one index is the largest that a majority has reached |
| `QuorumIndex.QuorumIndexOf` | src/raft/node.cpp:408-427 | Reference search: a majority has reached the result, and no larger index |
| `QuorumIndex.Sort` | src/raft/node.cpp:414 | The list sorted, with every element as often as before |
| `QuorumIndex.FindQuorumIndex` | src/raft/node.cpp:414-417 | Sorting and picking by position gives exactly the largest index a majority has reached, for any cluster size |
| `Logs.MergeFollowsLeader` | src/raft/node.cpp:286-298 | Merging a slice of the leader's log brings a matching log into agreement up to the end of the slice, loses no shared prefix, and leaves the old log or exactly the leader's prefix |
| `Logs.MergeTwice` | src/raft/node.cpp:286-298 | Merging the same request a second time changes nothing |
| `Logs.MergeTerms` | src/raft/node.cpp:286-298 | After a merge every sent position holds the sent term and nothing before the slice changed |
| `RaftHistory.SoundLogsMatch` | src/raft/node.cpp:278-298 | Same term at one index means the same log up to it, for logs backed by what leaders wrote |
| `RaftHistory.LeadersCarryCommits` | src/raft/node.cpp:230-258 | Core of leader completeness: induction over later elections through a voter that acknowledged the commit |
| `RaftHistory.CommitsAgree` | src/raft/node.cpp:408-427 | Two commits agree on every index both cover, and later terms commit further |
| `RaftHistoryProofs.RaiseTermKeeps` | src/raft/node.cpp:180-188 | Moving to a higher term keeps the history invariant |
| `RaftHistoryProofs.BidKeeps` | src/raft/node.cpp:483-497 | Starting a campaign with a vote for oneself keeps it |
| `RaftHistoryProofs.CastKeeps` | src/raft/node.cpp:234-251 | Voting once per term for an up-to-date log keeps it |
| `RaftHistoryProofs.OneWinner` | src/raft/node.cpp:507-533 | A majority of ballots in a term leaves no room for a second winner |
| `RaftHistoryProofs.ElectKeeps` | src/raft/node.cpp:530-533 | Becoming leader on a majority keeps it |
| `RaftHistoryProofs.ExtendKeeps` | src/raft/node.cpp:309-320 | A leader's own append keeps it |
| `RaftHistoryProofs.AcceptKeeps` | src/raft/node.cpp:278-298 | A follower's accepted append keeps it |
| `RaftHistoryProofs.RecordKeeps` | src/raft/node.cpp:416-426 | A commit backed by a majority of acknowledgements in the leader's own term keeps it |
| `RaftInvariant.StartElectionKeeps` | src/raft/node.cpp:483-502 | The cluster invariant survives the start of an election |
| `RaftInvariant.PollPeerKeeps` | src/raft/node.cpp:510-528 | It survives counting, or losing, one vote reply |
| `RaftInvariant.FinishElectionKeeps` | src/raft/node.cpp:530-533 | It survives the end of an election |
| `RaftInvariant.VoteAskKeeps` | src/raft/node.cpp:230-258 | It survives the handling of a vote request |
| `RaftInvariant.AppendAskKeeps` | src/raft/node.cpp:260-307 | It survives the handling of an append request, in time or late |
| `RaftInvariant.ProposeKeeps` | src/raft/node.cpp:309-320 | It survives a proposal |
| `RaftInvariant.SendAppendKeeps` | src/raft/node.cpp:429-450 | It survives sending: what is sent is a slice of the leader's log |
| `RaftInvariant.AppendAnswerKeeps` | src/raft/node.cpp:464-481 | It survives an append reply, including a commit |
| `RaftInvariant.SendProbeKeeps` | src/raft/node.cpp:357-383 | It survives sending a confirmation probe |
| `RaftInvariant.EndProbeKeeps` | src/raft/node.cpp:388-402 | It survives a probe reply |
| `RaftInvariant.RestartKeeps` | src/raft/node.cpp:90-117 | It survives a restart with persisted term, vote and log |
| `RaftInvariant.SupportersAreQuorum` | src/raft/node.cpp:408-417 | A majority of known indices at or above x exhibits a quorum that reached x |
| `RaftInvariant.StepKeeps` | src/raft/node.cpp:180-534 | Every enabled step keeps the cluster invariant |
| `RaftInvariant.RunInv` | src/raft/node.cpp:180-534 | The invariant holds after every run |
| `RaftRefusal.MergeTogether` | src/raft/node.cpp:286-298 | A log that does not leave the leader's past what the leader was elected with does not do so after a merge |
| `RaftRefusal.RefusedHeard` | src/raft/node.cpp:278-284 | A node that refuses a leader has no entries that leave the leader's log past what the leader was elected with |
| `RaftRefusal.RunRefusal` | src/raft/node.cpp:429-481 | In every run a leader addresses a peer below its elected log only after such a refusal and above it only after an acknowledgement, and past its elected log it holds entries of its own term only |
| `RaftCommit.MergeKeepsCommitted` | src/raft/node.cpp:286-298 | Merging never drops a committed entry, and leaves a log that agrees with the sender's as far as sent |
| `RaftCommit.ClaimHolds` | src/raft/node.cpp:286-303 | After the merge a safe claim is true of the whole stretch the receiver will commit, also beyond what was sent |
| `RaftCommit.ClaimPrompt` | src/raft/node.cpp:300-303 | What a receiver commits on a safe claim was committed in the term of its last entry or the next |
| `RaftCommit.AppendCommits` | src/raft/node.cpp:286-303 | An append with a safe claim keeps every committed entry and moves the commit index only over committed entries |
| `RaftCommit.AppendReplays` | src/raft/node.cpp:218-228 | If it loses no committed entry, an append applies to memory exactly what it newly commits |
| `RaftCommit.AnswerFrame` | src/raft/node.cpp:408-427 | An append reply changes no entry, never lowers the commit index, raises it on a leader only, and applies nothing beyond it |
| `RaftCommit.StepSafe` | src/raft/node.cpp:180-534 | Every step whose claims are safe keeps the commit and apply invariant |
| `RaftCommit.RunSafe` | src/raft/node.cpp:180-534 | It holds after every run whose claims are safe |
| `RaftKept.StepKeepsCommitted` | src/raft/node.cpp:180-534 | No step drops or changes a committed entry of any node; unless the node restarts, its commit index does not fall |
| `RaftKept.StepKeepsMemory` | src/raft/node.cpp:218-228 | Unless the node restarts, memory is what it started out as with all applied that was committed since |
| `RaftRead.ConfirmedRound` | src/raft/node.cpp:341-406 | The acknowledgers of a confirmed round meet the voters of every election held before it, so none of those was for a higher term |
| `RaftSafety.ElectionSafety` | src/raft/node.cpp:483-534 | In every run, restarts included, at most one node ever wins a term |
| `RaftSafety.OneLeaderPerTerm` | src/raft/node.cpp:190-202 | Two nodes that lead the same term are the same node |
| `RaftSafety.LogMatching` | src/raft/node.cpp:278-298 | In every reachable state two logs with the same term at an index are identical up to it |
| `RaftSafety.LeaderCompleteness` | src/raft/node.cpp:408-427 | What was committed in a term is in the log of every leader elected in a later term, at its election and while it leads |
| `RaftSafety.MatchIndexTruthful` | src/raft/node.cpp:464-481 | While leader and peer share a term, the peer's log agrees with the leader's up to the match index |
| `RaftSafety.LeadersCanSend` | src/raft/node.cpp:190-202 | A leader always has a positive next index for every peer |
| `RaftSafety.StateMachineSafety` | src/raft/node.cpp:218-228 | In every run whose claims are safe no two nodes apply different entries at one index |
| `RaftSafety.CommittedPrefixesAgree` | src/raft/node.cpp:300-303 | The committed prefixes of any two nodes agree |
| `RaftSafety.LeaderHoldsCommitted` | src/raft/node.cpp:230-258 | A leader holds all that any node of its term or earlier counts as committed |
| `RaftSafety.MemoryIsReplay` | src/raft/node.cpp:218-228 | Without a restart, last applied equals commit index and memory is the replay of the committed prefix |
| `RaftSafety.CommittedEntriesStay` | src/raft/node.cpp:286-303 | What a node counts as committed at some moment of a run is in its log at every later one, through restarts as well; only a restart lowers its commit index |
| `RaftSafety.CertifiedEntriesStay` | src/raft/node.cpp:286-303 | The same for any prefix that is committed, known to the node or not; it stays committed |
| `RaftSafety.MemoryGoesOn` | src/raft/node.cpp:218-228 | From any moment of a run until the node restarts, memory is what it was with all applied that was committed since |
| `RaftSafety.ReadConfirmation` | src/raft/node.cpp:351-406 | If a full round confirms, no leader of a higher term had been elected when it began |
| `RaftSafety.ConfirmedReadIsFresh` | src/server/handler.cpp:74-85 | A confirmed leader that has committed the log it was elected with serves everything committed before the round |
| `RaftEffects.VoteDecided` | src/raft/node.cpp:230-258 | In every run a vote is granted if and only if the voter is not past the term, no ballot of that term is for another candidate, and the log the candidate campaigned with is up to date against the voter's; the reply carries the larger term, refusals too, and a higher term makes the voter a follower |
| `RaftEffects.ElectionStarted` | src/raft/node.cpp:483-502 | A campaign raises the term by one, casts the candidate's ballot for itself and asks exactly the other peers, showing where its log ends |
| `RaftEffects.VoteReplyHeard` | src/raft/node.cpp:521-527 | A reply counts if it grants and finds the candidate still in the campaign's term; a higher term makes it a follower without a vote; a late reply only ends the campaign |
| `RaftEffects.VoteUnanswered` | src/raft/node.cpp:510-520 | A peer that does not answer is passed over and nothing else changes |
| `RaftEffects.ElectionFinished` | src/raft/node.cpp:530-533 | The candidate leads if and only if it is still in the campaign's term and the nodes with a ballot for it that it has heard from are a majority; its next indices are one past its log, its match indices zero |
| `RaftEffects.RequestSent` | src/raft/node.cpp:429-450 | A leader sends everything from the peer's next index on, with the term of the entry before and its own commit index |
| `RaftEffects.Proposed` | src/raft/node.cpp:309-320 | A proposal is the command with the leader's term at the end of its log, and of the log its term is known for |
| `RaftEffects.CommitRule` | src/raft/node.cpp:408-427 | The leader's commit index moves to the last index that a majority holds and whose entry is of its own term, if that is higher, and to no other |
| `RaftEffects.AppendReplyHeard` | src/raft/node.cpp:464-481 | In every run a reply of a higher term makes the leader of the request's term a follower without a vote, its log and commit index unchanged; a refusal lowers the next index by one, not below one; a success sets both indices to the end of what was sent and commits; any other node ignores the reply |
| `RaftEffects.PrevIsAgreement` | src/raft/node.cpp:278-284 | The check on the one entry before the sent ones holds if and only if the receiver has all that the leader wrote up to there |
| `RaftEffects.AppendDecided` | src/raft/node.cpp:260-307 | In every run a request is accepted if and only if the node is not past its term and holds what the leader wrote before the sent entries; unless it is past the term, it then follows the node elected in that term, accepting or not; the new log is the old one if it held all that was sent and otherwise what the leader wrote up to there; the commit index follows the leader's within the log, and memory with it |
| `RaftEffects.ProbeSent` | src/raft/node.cpp:357-383 | A round passes over its owner, fails once its term is no longer led, and otherwise probes the next peer with no entries |
| `RaftEffects.ProbeReplyHeard` | src/raft/node.cpp:388-402 | A reply of a higher term makes the owner a follower without a vote and fails the round; otherwise a success is counted, if the round's term is still led |
| `RaftEffects.ProbeUnanswered` | src/raft/node.cpp:387-391 | A peer that does not answer is passed over uncounted |
| `RaftEffects.RoundBegun` | src/raft/node.cpp:341-356 | A round begins in its leader's term with one acknowledgement, its own |
| `RaftEffects.RoundFinished` | src/raft/node.cpp:355-405 | A round that reached every peer confirms if and only if a majority acknowledged |
| `RaftEffects.RestartKept` | src/raft/node.cpp:52-65 | A restart keeps term, vote and log, replays the whole log and forgets the rest, campaigns and rounds included |
| `RaftEffects.LeaderNamed` | src/server/handler.cpp:45-49 | In every run the leader a node names is the one elected in its term; a leader names itself, a candidate nobody |
| `RaftFresh.CaughtUpIsFresh` | src/server/handler.cpp:74-85 | In no run whose claims are safe does such a leader count less as committed than was committed before the round |
| `RaftFresh.FallsAndReads` | src/server/handler.cpp:74-85 | For every log and every smaller commit index, a run in which a leader elected with that log confirms a round and is behind |
| `RaftFresh.ReadFreshIff` | src/server/handler.cpp:74-85 | A confirmed leader is up to date in every run if and only if its commit index covers the log it was elected with |
| `RaftSafety.OwnCommitCatchesUp` | src/raft/node.cpp:416-426 | One commit in its own term means that the leader has committed the log it was elected with |
| `RaftSafety.AcknowledgedProposal` | src/raft/node.cpp:328-339 | What was applied at a proposal's index is the proposal if and only if the log still shows its term there; so it is for a node still leading that term |
| `RaftRestart.KnownCommitted` | src/raft/node.cpp:218-228 | A log that its node counts as committed throughout is wholly committed |
| `RaftRestart.AfterTheRestart` | src/raft/node.cpp:52-65 | A restart keeps term, vote and log and changes no other node |
| `RaftRestart.RestartedMemory` | src/persistence/recovery.cpp:13-47 | Until the next restart, memory is the replay of the log the node restarted on with what was committed past its length applied to it; what is committed below that length in place of lost entries is never applied |
| `RaftRestart.RestartedMemoryIsReplay` | src/persistence/recovery.cpp:13-47 | After a restart on a wholly committed log, until the next one, memory is the replay of that log or of the committed prefix, whichever is longer, and all of it is committed |
| `RaftRestart.UncommittedIsServed` | src/persistence/recovery.cpp:34-42 | A restart of any node on any other log serves its last entry, and goes on to until something is committed past that log's length, whatever is committed below |
| `RaftRestart.RestartServesCommittedIff` | src/persistence/recovery.cpp:34-42 | Memory is a committed replay however the run goes on until the next restart if and only if the whole log was committed when the node went down |
| `RaftClient.AcknowledgedThenRead` | src/server/handler.cpp:49-85 | A proposal applied by a node still leading its term is in the log and memory of every caught-up leader whose round begins later and confirms |
| `RaftClaim.SafeClaimIsSafe` | src/raft/node.cpp:300-303 | No run whose other claims are safe is misled by a safe claim: the receiver commits only what the leader has |
| `RaftClaim.UnsafeClaimMisleads` | src/raft/node.cpp:357-383 | For every leader's log and every probe with another claim, a run of three nodes whose other claims are safe in which a leader with that log sends that probe and the receiver commits something else |
| `RaftClaim.UnsafeClaimBreaksSafety` | src/raft/node.cpp:357-383 | In that run two nodes apply different entries at one index |
| `RaftClaim.ClaimSafeIff` | src/raft/node.cpp:300-303 | A claim misleads no run whose other claims are safe if and only if it meets the condition, which the leader can check on its own log |
| `RaftClaim.ReachableProbe` | src/raft/node.cpp:357-383 | In every run whose claims are safe, whatever a leader may send as a probe is one that this covers |
| `RaftWitness.LostProposalAcknowledged` | src/raft/node.cpp:328-339 | For any two commands a run in which a node has applied the one at the index of its own proposal of the other |
| `RaftWitness.RestartServesUncommitted` | src/persistence/recovery.cpp:34-42 | For every log a run in which nothing is ever committed and a restarted node serves all of that log |
| `RaftBackoff.RefusedRound` | src/raft/node.cpp:471-480 | A refused round only lowers the next index by one, and at next index 1 none is refused |
| `RaftBackoff.AcceptedRound` | src/raft/node.cpp:471-478 | After acceptance the leader's log is a prefix of the follower's and the indices say so |
| `RaftBackoff.BackoffConverges` | src/raft/node.cpp:436-480 | Repeated rounds are accepted within the initial next index many rounds, and then the whole log is across |
| `RaftBackoff.ReachableReady` | src/raft/node.cpp:436-444 | In every reachable state a leader and a peer not past its term meet the conditions for that |
| `RaftBackoff.RedeliveryChangesNothing` | src/raft/node.cpp:286-298 | In every run, an accepted request delivered again at any later moment, whatever came in between, leaves the log as it is |
| `RaftSteps.ApplyCommitted` | src/raft/node.cpp:218-228 | Applying changes only memory and the apply position, forwards and never past the commit index |
| `RaftNode.Node.constructor` | src/raft/node.cpp:52-65 | A node starts as a follower with the persisted term and vote, the loaded log and the recovered store |
| `RaftNode.Node.BecomeFollower` | src/raft/node.cpp:180-188 | Takes the model's step to a follower of a term |
| `RaftNode.Node.BecomeLeader` | src/raft/node.cpp:190-202 | Takes the model's step to a leader, with indices for exactly the other peers |
| `RaftNode.Node.StartElection` | src/raft/node.cpp:483-502 | Takes the model's election step and asks with the model's request |
| `RaftNode.Node.OnVoteReply` | src/raft/node.cpp:521-527 | Counts a granted vote only while the campaign is live; a higher term ends it |
| `RaftNode.Node.FinishElection` | src/raft/node.cpp:530-533 | Becomes leader exactly on a majority in a live campaign |
| `RaftNode.Node.HandleRequestVote` | src/raft/node.cpp:230-258 | Grants if and only if not past the term, free to vote and the asked log is up to date, answering with the larger term; new state and reply are those of the model, which `RaftEffects.VoteDecided` pins down |
| `RaftNode.Node.ApplyCommitted` | src/raft/node.cpp:218-228 | The apply loop on the sharded store is the model's |
| `RaftNode.Listed` | src/raft/node.cpp:409-413 | The values of the match map, listed in any order, each as often as it occurs |
| `RaftNode.ListedIsKnown` | src/raft/node.cpp:409-413 | The order in which match indices are listed does not affect the quorum index |
| `RaftNode.Node.AdvanceCommit` | src/raft/node.cpp:408-427 | The commit rule on the arbitrarily ordered list is the model's |
| `RaftNode.Node.MergeEntries` | src/raft/node.cpp:286-298 | The append loop over the log object, file included, is the merge |
| `RaftNode.Node.PrevHeld` | src/raft/node.cpp:278-284 | The consistency check |
| `RaftNode.Node.CommitUpTo` | src/raft/node.cpp:300-303 | The follower's commit rule |
| `RaftNode.Node.HandleAppendEntries` | src/raft/node.cpp:260-307 | New state and reply are those of the model, which `RaftEffects.AppendDecided` pins down |
| `RaftNode.Node.PrepareAppend` | src/raft/node.cpp:430-450 | A leader sends the model's request, and knows the index of its last entry |
| `RaftNode.Node.OnAppendReply` | src/raft/node.cpp:464-481 | A higher term ends leadership and vote and nothing else does; the new state is that of the model, which `RaftEffects.AppendReplyHeard` pins down |
| `RaftNode.Node.Propose` | src/raft/node.cpp:309-320 | A leader appends and remembers the new last index; others refuse |
| `RaftNode.Node.PrepareProbe` | src/raft/node.cpp:360-382 | The model's probe, while the round's term is still led |
| `RaftNode.Node.OnProbeReply` | src/raft/node.cpp:393-402 | New state and outcome are those of the model, which `RaftEffects.ProbeReplyHeard` pins down |
| `RaftNode.Restart` | src/persistence/durable_storage.cpp:10-20 | Opening fails exactly on a corrupt file; otherwise, torn tail or not, the node is the restarted node of the model on the entries found, and its log object agrees with the file if that is nothing but those entries |
| `Bytes.ReadWritten` | src/persistence/wal_record.cpp:20-44 | A field that fits is read back as written |
| `Bytes.WriteRead` | src/persistence/wal_record.cpp:20-44 | Every field content is the encoding of its value |
| `Bytes.BigEndian` | src/persistence/wal_record.cpp:20-31 | Byte i of a field is the value divided by the power of 256 that belongs there, modulo 256: most significant first |
| `Bytes.WriteBE` | src/persistence/wal_record.cpp:27-31 | The shifting loop writes the big-endian field, truncated to its width |
| `Bytes.ReadBE` | src/persistence/wal_record.cpp:38-44 | The shifting loop reads it |
| `Crc32.Compute` | src/persistence/crc32.cpp:5-14 | The loop over bytes computes the checksum |
| `Crc32.ShiftByte` | src/persistence/crc32.cpp:9-11 | The loop over bits is eight register steps |
| `Crc32.FeedInjective` | src/persistence/crc32.cpp:7-12 | Different registers stay different whatever byte follows |
| `Crc32.RegisterInjective` | src/persistence/crc32.cpp:7-12 | ... and whatever bytes follow |
| `CrcSteps.TurnLinear` | src/persistence/crc32.cpp:9-11 | Eight steps of the register are linear |
| `CrcBursts.TurnXor` | src/persistence/crc32.cpp:9-11 | What a later byte changes can be moved before the eight steps |
| `CrcBursts.WindowInjective` | src/persistence/crc32.cpp:5-14 | From one register, two different words of up to four bytes lead to different registers |
| `CrcBursts.BurstDetected` | src/persistence/crc32.cpp:5-14 | Any change confined to four consecutive bytes changes the checksum |
| `CrcLinear.RegisterChanged` | src/persistence/crc32.cpp:5-14 | Changed bytes change the register by the syndrome of the changes, whatever the bytes were |
| `CrcLinear.SameChecksumIff` | src/persistence/crc32.cpp:5-14 | Two byte strings of one length have the same checksum if and only if their changes have the syndrome zero |
| `CrcCheck.CheckValue` | src/persistence/crc32.cpp:5-14 | The checksum of "123456789" is 0xCBF43926, the published check value of this CRC |
| `WalRecord.Layout` | src/persistence/wal_record.cpp:69-81 | Where each field of an encoded record lies |
| `Formats.RecordBytes` | src/persistence/wal_record.cpp:69-81 | The record's bytes by position, the operation byte being 1 for a set and 2 for a delete |
| `Formats.ReadVerdict` | src/persistence/wal_record.cpp:83-112 | The log ends exactly where a record is cut short and no length read so far exceeds 64 MiB; such a length is corruption even if the rest is missing |
| `WalRecord.ReadsBack` | src/persistence/wal_record.cpp:83-132 | A valid record is read back whole, whatever follows |
| `WalRecord.GotIsEncoded` | src/persistence/wal_record.cpp:83-132 | Whatever is accepted is the encoding of the valid record returned |
| `WalRecord.ReadIffEncoded` | src/persistence/wal_record.cpp:83-132 | The reader returns r exactly if the bytes start with the encoding of a valid r |
| `WalRecord.TornIsEnd` | src/persistence/wal_record.cpp:87-112 | A valid record cut anywhere reads as the end of the log, never as corruption |
| `WalRecord.DamageDetected` | src/persistence/wal_record.cpp:114-119 | A change within four consecutive bytes, all checked or all in the checksum and in no length field, reads as corruption |
| `WalRecord.ByteChangeDetected` | src/persistence/wal_record.cpp:114-119 | So does any single changed byte outside the two length fields |
| `WalRecord.DamageSeenIff` | src/persistence/wal_record.cpp:114-119 | Damage of any extent that spares the lengths fails the checksum, exactly unless the stored checksum was altered by the syndrome of the other changes |
| `WalRecord.BodyDamageSeenIff` | src/persistence/wal_record.cpp:114-119 | With the stored checksum spared too, it fails exactly if the syndrome of the changes is not zero, whatever the record was |
| `CrcMiss.SpanMissed` | src/persistence/wal_record.cpp:114-119 | Two valid records whose encodings differ in four consecutive bytes across the end of the checksum only |
| `WalRecord.KeyLengthLooksTorn` | src/persistence/wal_record.cpp:94-112 | Every record below 48 MiB has a change of one key length byte that reads as the end of the log |
| `WalRecord.ValueLengthLooksTorn` | src/persistence/wal_record.cpp:94-112 | Every record with a value below 48 MiB has such a change in the value length |
| `WalRecord.ChangesDetectedIff` | src/persistence/wal_record.cpp:83-132 | All one-byte changes in a field are reported, whatever follows, if and only if it is not a length field |
| `WalFile.File.Read` | src/persistence/wal_record.cpp:52 | One system call returns some of the bytes, nothing only at the end |
| `WalFile.File.ReadSome` | src/persistence/wal_record.cpp:49-61 | However short the reads, the loop returns what was asked for or all that is left |
| `WalFile.ReadNextRecord` | src/persistence/wal_record.cpp:83-132 | The reader on a file cursor finds what the format says and moves past it |
| `WalFile.Accept` | src/persistence/wal_record.cpp:114-131 | The checks on a complete record, in order |
| `WalLog.ScanReadsBack` | src/persistence/recovery.cpp:23-43 | Scanning whole valid records gives them back and goes on with the rest |
| `WalLog.ScanSound` | src/persistence/recovery.cpp:23-43 | What a scan returns is a run of valid records the file starts with, for any file |
| `WalLog.WholeIsLongest` | src/persistence/recovery.cpp:23-43 | The number of whole records before a cut is the largest whose encodings fit |
| `WalLog.CutAnywhere` | src/persistence/recovery.cpp:23-43 | Wherever an encoded log is cut, the scan ends cleanly with exactly the whole records |
| `WalLog.AppendAfterTearIsLost` | src/persistence/wal_writer.cpp:80-109 | A record appended after a torn one whose key claims it is invisible to recovery |
| `WalLog.AppendSafeIff` | src/persistence/wal_writer.cpp:80-109 | Every valid record appended to a file is found by the next scan, after the others, if and only if the file was nothing but whole records |
| `Store.Untouched` | src/persistence/recovery.cpp:34-42 | Replaying changes no key that no command is on |
| `Store.LastDecides` | src/persistence/recovery.cpp:34-42 | A key is there after a replay, whatever was before, if and only if the last command on it is a set, and has its value |
| `Store.ReplayMeans` | src/persistence/recovery.cpp:23-43 | For every log and key: the key is in the replayed store if and only if it is not empty and the last entry with it is a set, and then it has that entry's value |
| `Recovery.ApplyRecord` | src/persistence/recovery.cpp:34-41 | A set puts exactly its key to its value, a delete removes exactly its key, and a record without a key does nothing |
| `Recovery.RecoverFromWal` | src/persistence/recovery.cpp:13-47 | The read loop leaves the store the replay of the records found, and reports end or corruption |
| `Recovery.RecoverAfterCut` | src/persistence/recovery.cpp:13-47 | After a cut at any byte: no error, a store that is the replay of the whole records, and its size |
| `ShardedStore.ShardedKV.Set` | src/storage/sharded_kv.cpp:12-21 | All shards together are the old map with the key put to the value and every other key as it was; an empty key is refused and changes nothing |
| `ShardedStore.ShardedKV.Get` | src/storage/sharded_kv.cpp:23-35 | Looks up in the one map |
| `ShardedStore.ShardedKV.Delete` | src/storage/sharded_kv.cpp:37-50 | All shards together are the old map without the key, which was there if and only if it says so |
| `ShardedStore.ShardedKV.Size` | src/storage/sharded_kv.cpp:52-59 | The sum over shards is the number of keys |
| `WalWriter.EncodeRecord` | src/persistence/wal_record.cpp:69-81 | The encoder pushes exactly the encoding |
| `WalWriter.ScanIndex` | src/persistence/wal_writer.cpp:99-106 | The scan at start-up learns the last index |
| `WalWriter.Writer.constructor` | src/persistence/wal_writer.cpp:80-109 | Opening learns the last index; on a file of whole records the writer holds exactly those |
| `WalWriter.Writer.Append` | src/persistence/wal_writer.cpp:128-142 | Writes the record with the next index at the end |
| `WalWriter.Window` | src/persistence/wal_writer.cpp:171-180 | A batching window lasts no more ticks than there is room for records in the batch |
| `WalWriter.WindowGoesOn` | src/persistence/wal_writer.cpp:174-180 | A window that goes on saw new records in every tick so far and not yet a full batch |
| `WalWriter.WindowIff` | src/persistence/wal_writer.cpp:171-180 | A window goes on past tick k if and only if there is time for it, fewer than 16 records are pending, and every tick so far brought some |
| `WalWriter.NumberAt` | src/persistence/wal_writer.cpp:128-142 | Record i of those appended gets index last + 1 + i and is otherwise unchanged |
| `WalWriter.Batch` | src/persistence/wal_writer.cpp:152-191 | A written index needs at most one flush, its own or the one it waited for |
| `WalWriter.Writer.Gather` | src/persistence/wal_writer.cpp:171-180 | The batching window, with whatever others append in each tick, up to the cap, a quiet tick or the deadline |
| `WalWriter.Writer.Sync` | src/persistence/wal_writer.cpp:152-191 | With other callers appending and leading flushes meanwhile: nothing changes if the index was already flushed; otherwise everything written by then, theirs included, is durable after the stated number of flushes |
| `WalWriter.OpenAndAppend` | src/persistence/wal_writer.cpp:80-142 | Opening a file and appending succeeds exactly if the scan is clean; on whole records the next scan finds the new one after them |
| `WalWriter.OpenAndAppendSafeIff` | src/persistence/wal_writer.cpp:80-142 | The next scan finds every record so written if and only if the file was nothing but whole records |
| `WalWriter.Writer.RewriteAll` | src/persistence/wal_writer.cpp:193-218 | The file becomes exactly the given records, all durable |
| `RaftLog.Log.constructor` | src/raft/log.cpp:12-13 | A new log holds nothing |
| `RaftLog.Log.Load` | src/raft/log.cpp:15-45 | Memory becomes what a scan of the file finds, failing on corruption; on a log of valid entries that is the identity |
| `RaftLog.Log.Append` | src/raft/log.cpp:47-64 | Appends with the next index; memory and file stay in agreement |
| `RaftLog.Log.TruncateFrom` | src/raft/log.cpp:66-82 | Drops exactly the entries from an index on; memory and file stay in agreement; index 0 is refused |
| `RaftLog.Log.Get` | src/raft/log.cpp:84-89 | The entry with that index, if there is one |
| `RaftLog.Log.EntriesFrom` | src/raft/log.cpp:91-96 | The entries from an index on |
| `RaftLog.Log.LastIndex` | src/raft/log.cpp:98 | The number of entries |
| `RaftLog.Log.LastTerm` | src/raft/log.cpp:100 | The term of the last entry |
| `RaftLog.LoadIsIdentity` | src/raft/log.cpp:15-45 | Scanning the encodings of valid records gives those records |
| `RaftLog.Reopen` | src/raft/log.cpp:15-45 | A restart on any file: the log is what a scan finds, and agrees with the file if that is nothing but those records |
| `RaftLog.ReopenWhole` | src/raft/log.cpp:15-45 | A restart on the file of a log brings back the same log, in agreement with it |
| `Storage.DurableStorage.constructor` | src/persistence/durable_storage.cpp:10-12 | Opening replays the file and sets the apply position |
| `Storage.DurableStorage.ApplyCommitted` | src/persistence/durable_storage.cpp:87-97 | Applies one record and moves the apply position to its index |
| `GroupCommit.AppendKeeps` | src/persistence/wal_writer.cpp:128-142 | A write's append keeps the invariant of the writing threads |
| `GroupCommit.EnterKeeps` | src/persistence/wal_writer.cpp:152-180 | So does entering Sync, as a waiter or as batch leader |
| `GroupCommit.WakeKeeps` | src/persistence/wal_writer.cpp:158-167 | So does waking from another's flush |
| `GroupCommit.WokenWriterIsCovered` | src/persistence/wal_writer.cpp:158-167 | A waiting writer is always covered when it wakes |
| `GroupCommit.TickKeeps` | src/persistence/wal_writer.cpp:174-188 | So does a turn of the batching window or the flush that ends it |
| `GroupCommit.ApplyKeeps` | src/persistence/durable_storage.cpp:46-52 | So does passing the apply barrier |
| `GroupCommit.RunInv` | src/persistence/durable_storage.cpp:22-85 | The invariant holds after every interleaving |
| `DurableWrites.ApplyOrder` | src/persistence/durable_storage.cpp:36-52 | Applied <= synced <= written, and memory is the replay of the applied records in log order |
| `DurableWrites.StepGrows` | src/persistence/wal_writer.cpp:128-191 | Written, flushed and acknowledged only grow |
| `DurableWrites.RecordsValid` | src/persistence/durable_storage.cpp:22-85 | Writes within the limits keep every record of a run readable |
| `DurableWrites.AcknowledgedStays` | src/persistence/durable_storage.cpp:22-55 | What was acknowledged stays acknowledged |
| `DurableWrites.AcknowledgedSurvives` | src/persistence/durable_storage.cpp:22-55 | After a crash at any later point, whatever part of the file beyond the flush is lost, recovery is clean and finds every acknowledged write at its index |
| `DurableWrites.AcknowledgedFoundIff` | src/persistence/durable_storage.cpp:22-55 | Whatever was written, recovery finds the log up to an acknowledged write if and only if every record up to it is within the reader's limits |
| `DurableWrites.OneBatchLeader` | src/persistence/wal_writer.cpp:158-180 | At most one thread is in the batching window |
| `DurableWrites.SyncDurableIffWritten` | src/persistence/wal_writer.cpp:182-190 | A returned Sync's index is durable if and only if it had been written by then; a write's own index is |
| `DurableWrites.UnwrittenSyncSucceeds` | src/persistence/wal_writer.cpp:182-190 | In every state without a flush under way, a direct Sync for an index beyond the log returns with success and that index not durable |
| `DurableWrites.UnwrittenSyncRun` | src/persistence/wal_writer.cpp:182-190 | A run of two steps on an empty log that does so |
| `DurableWrites.WindowIsShort` | src/persistence/wal_writer.cpp:171-180 | At most 16 turns of the window, and at most 15 for a write's own Sync |
| `DurableWrites.TurnRaisesPending` | src/persistence/wal_writer.cpp:174-180 | Every turn that does not end the window saw more pending records |
| `DurableWrites.SyncDecided` | src/persistence/wal_writer.cpp:152-180 | In every run a Sync returns at once if its index is flushed, waits if a flush is under way, and otherwise leads: it gathers if fewer than 16 records are pending and it is not late, else flushes everything written |
| `DurableWrites.WokenDecided` | src/persistence/wal_writer.cpp:158-180 | A woken thread returns if its index is flushed, as a writer's always is, and otherwise leads the same way |
| `DurableWrites.TurnDecided` | src/persistence/wal_writer.cpp:174-188 | A window goes on if and only if a record joined in the last turn, fewer than 16 are pending and it is not late; otherwise one flush covers everything written |
| `DurableWrites.WriteNumbered` | src/persistence/wal_writer.cpp:128-142 | A write's record goes to the end of the log with the next index |
| `DurableWrites.WriteApplied` | src/persistence/durable_storage.cpp:44-55 | A write passes the barrier as the next record, durable by then; memory and acknowledgement are what that record says |
| `DurableWrites.NoDeadlock` | src/persistence/durable_storage.cpp:44-52 | While a write is under way some thread can move |
| `Wire.NumOnly` | src/raft/rpc_codec.cpp:58-70 | What was read is what writing would have put there |
| `Wire.Reader.ReadNum` | src/raft/rpc_codec.cpp:51-70 | A bounds-checked number read |
| `Wire.Reader.ReadBytes` | src/raft/rpc_codec.cpp:72-77 | A bounds-checked string read |
| `Codec.ClientRequestExact` | src/protocol/codec.cpp:158-214 | A payload decodes to m exactly if it is the payload of the valid client request m |
| `Codec.ClientResponseExact` | src/protocol/codec.cpp:216-250 | The same for client responses |
| `Codec.ClusterRequestExact` | src/protocol/codec.cpp:252-282 | The same for cluster requests |
| `Codec.ClusterResponseExact` | src/protocol/codec.cpp:284-313 | The same for cluster responses |
| `Formats.ClientRequestBytes` | src/protocol/codec.cpp:52-92 | Id in bytes 0-7, opcode in byte 8 (set 1, get 2, delete 3), then key length, key, value length, value; every position given |
| `Formats.ClientResponseBytes` | src/protocol/codec.cpp:94-114 | Id in bytes 0-7, status in 8-9 (ok 0, not found 1, bad request 2, internal error 3, wrong leader 4), value length, value, and the leader hint in the last four bytes |
| `Formats.ClusterRequestBytes` | src/protocol/codec.cpp:116-135 | Id, opcode in byte 8 (ping 1, pong 2, vote 3, append 4), body length, body |
| `Formats.ClusterResponseBytes` | src/protocol/codec.cpp:137-156 | Id, status in bytes 8-9 with the same numbers, body length, body |
| `Formats.ClientRequestDecodes` | src/protocol/codec.cpp:158-214 | A payload is accepted if and only if byte 8 is 1, 2 or 3, the key is not empty, a value is there exactly with opcode 1, and the lengths add up |
| `Formats.ClientResponseDecodes` | src/protocol/codec.cpp:216-250 | ... if and only if the status is at most 4 and the lengths add up |
| `Formats.ClusterRequestDecodes` | src/protocol/codec.cpp:252-282 | ... if and only if byte 8 is 1 to 4 and the lengths add up |
| `Formats.ClusterResponseDecodes` | src/protocol/codec.cpp:284-313 | ... if and only if the status is at most 4 and the lengths add up |
| `Formats.FrameBytes` | src/protocol/codec.cpp:52-156 | Frames begin with 0x4E 0x4B 1, the type byte 0x01, 0x02, 0x10 or 0x11, and the payload length; a message is encoded if and only if its payload has at most 16 MiB and, for a client request, the key is not empty and a value is there exactly for a set |
| `Formats.ParseVerdict` | src/protocol/codec.cpp:315-407 | More bytes are awaited if and only if fewer than 8 are there or an announced frame is incomplete; a message comes if and only if a whole announced frame decodes as its type byte says; anything else is an error |
| `Codec.ReadClientRequest` | src/protocol/codec.cpp:158-214 | The field-by-field decoder accepts and returns what the format says, which `Formats` gives byte by byte |
| `Codec.ReadClientResponse` | src/protocol/codec.cpp:216-250 | ... for client responses |
| `Codec.ReadClusterRequest` | src/protocol/codec.cpp:252-282 | ... for cluster requests |
| `Codec.ReadClusterResponse` | src/protocol/codec.cpp:284-313 | ... for cluster responses |
| `Frames.EncodeClientRequest` | src/protocol/codec.cpp:52-92 | The frame, whose bytes `Formats.FrameBytes` and `ClientRequestBytes` give, or a refusal of an empty key, a wrong value or an oversized payload |
| `Frames.EncodeClientResponse` | src/protocol/codec.cpp:94-114 | The frame, or a refusal of an oversized payload |
| `Frames.EncodeClusterRequest` | src/protocol/codec.cpp:116-135 | The frame, or a refusal of an oversized payload |
| `Frames.EncodeClusterResponse` | src/protocol/codec.cpp:137-156 | The frame, or a refusal of an oversized payload |
| `Frames.DecodeExact` | src/protocol/codec.cpp:346-401 | Within the size limit a payload of a type decodes to m exactly if it is the payload of the sendable m |
| `Frames.ParseExact` | src/protocol/codec.cpp:315-407 | The parser returns m exactly if the buffer starts with the frame of m |
| `Frames.TryParseFrame` | src/protocol/codec.cpp:315-407 | A complete frame is removed and has at least 8 bytes, a malformed one empties the buffer, otherwise it stays |
| `Connection.VerdictStands` | src/protocol/codec.cpp:315-407 | Once decided, the verdict on the front of the buffer does not depend on later bytes |
| `Connection.DrainSplit` | src/net/connection.cpp:51-81 | Draining early and then receiving the rest is the same as draining all at once |
| `Connection.ChunkingIrrelevant` | src/net/connection.cpp:15-81 | However a stream is split, output, handler state, closing and unread input are the same |
| `Connection.ServedInOrder` | src/net/connection.cpp:51-81 | Whatever follows, requests at the front of the input are answered one by one, each answer after the earlier ones, the handler going through its states in that order |
| `Connection.AnswersInOrder` | src/net/connection.cpp:51-81 | Pipelined requests and an incomplete frame: the output is the answers in order, the handler's state the last one, and the incomplete frame stays unread |
| `Connection.BadFrameCloses` | src/net/connection.cpp:56-62 | At the first bad frame the connection closes and drops its input, after the answers to all before it |
| `Connection.NoAnswerCloses` | src/net/connection.cpp:65-78 | At the first message without an answer it closes, after the answers to all before it, and what follows stays unread |
| `Connection.EveryInputFits` | src/net/connection.cpp:51-81 | Every input is answered requests followed by an incomplete frame, a bad one or a message without an answer, so these are all the cases |
| `Connection.Link.ProcessFrames` | src/net/connection.cpp:51-81 | The drain loop, whose outcome the lemmas above give for every input |
| `Connection.Link.OnReadable` | src/net/connection.cpp:15-35 | All chunks there are are appended, then drained; at the end of input the connection closes and is still drained; after a failed read it closes undrained |
| `Connection.ArriveReceives` | src/net/connection.cpp:15-35 | On an open connection, reading until it would block is receiving those bytes |
| `Connection.EndAnswersAll` | src/net/connection.cpp:22-34 | The end of input changes nothing but that the connection is closed: every complete frame is answered |
| `RpcCodec.VoteRequestExact` | src/raft/rpc_codec.cpp:89-108 | A body decodes to m exactly if it is the encoding of m |
| `RpcCodec.AppendRequestExact` | src/raft/rpc_codec.cpp:129-185 | The same for append requests with any number of entries |
| `RpcCodec.FlagBack` | src/raft/rpc_codec.cpp:110-127 | An encoded response is read back |
| `RpcCodec.FlagExactIff` | src/raft/rpc_codec.cpp:118-127 | An accepted response body is an encoding if and only if its flag byte is 0 or 1 |
| `RpcCodec.OtherFlagAccepted` | src/raft/rpc_codec.cpp:195-204 | A body with flag byte 2 is accepted as true |
| `Formats.VoteRequestBytes` | src/raft/rpc_codec.cpp:89-97 | Term in bytes 0-7, candidate in 8-11, last index in 12-19, last term in 20-27 |
| `Formats.FlagBytes` | src/raft/rpc_codec.cpp:187-193 | Term in bytes 0-7, then 1 or 0 |
| `Formats.EntryBytes` | src/raft/rpc_codec.cpp:137-145 | Term, index, operation byte (set 1, delete 2), key length, key, value length, value, in 25 bytes and the two strings |
| `Formats.AppendRequestBytes` | src/raft/rpc_codec.cpp:129-148 | A header of 40 bytes (term, leader, previous index and term, commit index, count), then every entry right after the one before, and nothing else |
| `RpcCodec.WriteVoteRequest` | src/raft/rpc_codec.cpp:89-97 | The encoder |
| `RpcCodec.ReadVoteRequest` | src/raft/rpc_codec.cpp:99-108 | The decoder |
| `RpcCodec.WriteFlag` | src/raft/rpc_codec.cpp:187-193 | The encoder of both responses |
| `RpcCodec.ReadFlag` | src/raft/rpc_codec.cpp:195-204 | The decoder of both responses |
| `RpcCodec.WriteAppendRequest` | src/raft/rpc_codec.cpp:129-148 | The encoder with its loop over entries |
| `RpcCodec.ReadEntries` | src/raft/rpc_codec.cpp:160-181 | The loop that fills the entry list |
| `RpcCodec.ReadAppendRequest` | src/raft/rpc_codec.cpp:150-185 | The decoder |
| `Linearizability.Checker.Record` | src/testing/linearizability_checker.h:29 | Adds an operation to the history |
| `Linearizability.Checker.Check` | src/testing/linearizability_checker.h:33-81 | Reports consistency if and only if every read has a write that explains it; otherwise names a read that has none |
| `Linearizability.Checker.FindWrite` | src/testing/linearizability_checker.h:57-75 | The inner loops find a candidate write not superseded, if there is one |
| `Linearizability.LinearizedReadFits` | src/testing/linearizability_checker.h:54-75 | In a linearization, the write a read sees explains it |
| `Linearizability.NoFalseAlarm` | src/testing/linearizability_checker.h:33-81 | A history whose successful operations can be linearized passes |
| `Linearizability.PassesIffEachReadLinearizes` | src/testing/linearizability_checker.h:33-81 | A history passes exactly if each read alone, with all writes, can be linearized |
| `Linearizability.PassingIsNotLinearizable` | src/testing/linearizability_checker.h:3-5 | A passing history of two writes and two reads that has no linearization |
| `Linearizability.NoReplyIsIgnored` | src/testing/linearizability_checker.h:34-50 | Removing an operation without a reply from any history does not change the verdict, so a read of a value that only a lost write wrote raises an alarm |

## Left out

- Sockets, event loops, servers, the cluster transport and the thread pool: the network is a set of messages, and a connection's input a sequence of chunks.
- Real time: election timeouts, heartbeats and deadlines are free choices of a run, so nothing is claimed about how soon anything happens beyond the stated measures.
- The amortised read shortcut that skips the confirmation round on recent contact: it rests on wall-clock time.
- 64-bit wrap-around of terms and indices in the protocol; the formats truncate as the code does.
- The 12-byte file that holds term and vote: a restart gets both back as they were.
- Failing disks: opening, flushing and writing succeed, and persisting term and vote is atomic.
- `RewriteAll` concurrent with Sync, and a crash in the middle of `RewriteAll`, which truncates before it writes.
- WalWriter.Writer.Sync: takes what others append while it waits as an argument; how the threads interleave is in `GroupCommit`.
- DurableWrites.AcknowledgedSurvives: is for writes within the reader's limits (a key and value of at most 64 MiB); `AcknowledgedFoundIff` says when it holds of others.
- RaftSafety.StateMachineSafety: is for runs whose claims are safe, and so are the theorems after it that speak of commit indices; a run may also make an unsafe claim to a receiver that happens not to be misled.
- RaftSafety.MemoryIsReplay: is for nodes that have not restarted; `RaftRestart` treats those that have.
- WalRecord.DamageDetected: does not cover a change across the end of the checksum field, of which it is false; `DamageSeenIff` does.
- WalRecord.ChangesDetectedIff: is for records below 48 MiB; in larger ones, which no client request can carry, a changed length may still point inside the record.
- Linearizability.PassesIffEachReadLinearizes: is for operations that take time, which the shared counter of the tests ensures.
- The concrete hash of a key: any function will do. The locks of the shards: each operation on the store is one step.
- The waiting part of Propose and the bounded wait for the commit: the theorem on proposals speaks of any later moment.
- The text of error messages and the different reasons a payload is refused, which all carry the same error code.
- Configuration parsing, the command line tools, benchmarks, fault injection and the mapping of results to response codes: they hold no state that the properties above depend on.
