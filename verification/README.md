# Hermes in Dafny

A model of the core of Hermes, a distributed key-value store, and proofs about it. The statements below are
theorems about the model; nothing was executed. `dafny verify dfyconfig.toml` verifies the whole project.

**Raft.** A node is a record with a step function (`RaftTypes`, `RaftSpec`). `RaftCluster` puts any number
of nodes over a network that may lose, delay, reorder and duplicate messages, and defines the runs.
`RaftHistory` is the invariant: a record, per term, of the leader's log and commits, and per node of its
votes and of what it stored in each term. `RaftFrame` to `RaftRuns` show that every event keeps it;
`RaftTheorems` states what follows in terms of the run alone. `RaftCatchUp`, `RaftService`, `RaftElections`,
`RaftProposals`, `RaftBonds` and `RaftSteps` state what a cluster does: which votes are granted and elections
won, what is stored, sent, brought up to date and committed, and that nothing but proposals is. The classes
in `RaftLog`, `RaftProgress`, `Raft` and `RaftNode` follow the code, which changes its state in place, and
every method is proved to do what the step function says. The argument is that of Ongaro and Ousterhout, "In Search of an
Understandable Consensus Algorithm (Extended Version)", sections 5.2 to 5.4, except where the code differs:

- A higher-term vote request does not make its receiver a follower (`hermes/pkg/raft/raft.go:315-319`).
- A follower acknowledges its whole last index (`hermes/pkg/raft/raft.go:503-508`). This is sound because a
  leader's next indices never fall below its own no-op.
- A leader is counted twice for a commit (`hermes/pkg/raft/raft.go:740-747`, `hermes/pkg/raft/log.go:170-191`),
  so half of the members, rounded up, are enough. They still meet every majority of votes.
- A refused append is answered with index 0 (`hermes/pkg/raft/raft.go:480-487`), so a leader that probes never
  steps back (`hermes/pkg/raft/state.go:110`). `CatchUpExactly` says exactly which peers can still be brought up
  to date, and `FollowerIsStranded` is a run with one that cannot.
- Voting needs a node without vote and leader, or the same candidate again (`hermes/pkg/raft/raft.go:560-562`),
  and nothing ever gives a node back both. So its first choice is its last, and `NoFailover` says who can never
  lead again. The repository's own README promises leader failover (`README.md:242`); the model follows the code.
- A heartbeat raises the commit index without a look at the log (`hermes/pkg/raft/raft.go:544-548`). Agreement
  between nodes then fails: `HeartbeatBreaksAgreement` is a run that shows it, and `HeartbeatCommitsRightly`
  gives the exact condition; `HeartbeatWithinMatch` is one that the sender can see. Agreement is proved for all
  other commits.

**Vector clocks.** `VectorClock` holds the clock and its runs, and proves that comparing two stamps decides
happened-before exactly.

**Shards, routing and queries.** `Keys` is the order of keys, `Shards` a table of shards as a value,
`ShardMap` the table in place with its index by id, `Router` the clipping of a range scan. `Planner` plans a
query and merges the answers; `ScatterGather` proves that this means the same as one scan. Found on the way:
from 95 shards on, the first table has shards without keys, which a range lookup and a range scan return and
ask all the same. A split at the empty key puts every key into two shards. If two starts are equal after a
split, because the key is a shard's start or because a shard without keys was there before, an order that the
unstable sort may leave hides keys; otherwise none does. A split after a merge can reuse an id, and a later
merge then drops two shards. A merge of the last shard with the first loses the keys of both, and one across
a shard without keys hides some. A merged MAX is wrong if all values are negative, and a merged MIN if all
are positive and a shard that was asked holds none. Each comes with its exact condition or, for the reused id,
with the condition in `Split` and an example. A map is valid if list and index agree and the shards adjoin in
ascending order; shards without keys (hollow ones) are allowed.

**Smaller parts.** `HashRing` is the consistent hash ring, `TokenBucket` the rate limiter, `LwwRegister` the
last-write-wins register, `BloomSpec` and `BloomFilter` the Bloom filter and its byte form, `LockSpec` and
`DistLock` the lock service. Found there: `VerifyToken` also accepts any token greater than the current one,
so the token of another lock can pass (`hermes/pkg/consistency/distlock.go:211`). `Sorting`, `Options` and
`Arithmetic` are shared helpers.

Clocks, hash functions of the ring, shard executors and the filter and number format of queries are
parameters. Node names in the Raft and clock models are numbers, with 0 for the empty name.

## Model

| member | source | states |
|---|---|---|
| `RaftTheorems.ElectionSafety` | hermes/pkg/raft/raft.go:204-244 | In every run of a cluster of any size, at most one node ever leads in a term. |
| `RaftTheorems.MembersStay` | hermes/pkg/raft/demo.go:40-66 | The members of a cluster never change in a run. |
| `RaftTheorems.LogsMatch` | hermes/pkg/raft/raft.go:464-493 | Entries with the same index and term, on any two nodes at any two times of a run, end identical logs. |
| `RaftTheorems.LeadersComplete` | hermes/pkg/raft/raft.go:740-754 | What a leader has committed at any time is in the log of every leader of a later term, at the same indices. |
| `RaftTheorems.LeaderAppendOnly` | hermes/pkg/raft/raft.go:734-738 | While a node leads a term its log only grows. |
| `RaftTheorems.MatchIndexSound` | hermes/pkg/raft/raft.go:511-542 | While a node leads, every peer's next index is the one after its match index or, while that is 0, the index of the leader's no-op. A match index above the commit index names a prefix of the leader's log that the peer stored in this term and keeps while in it. |
| `RaftTheorems.CommitAgreement` | hermes/pkg/raft/raft.go:491-501 | Commits made by a leader's count or by a checked append: any two nodes at any two times agree on their common committed prefix. |
| `RaftTheorems.CheckedIsCommitted` | hermes/pkg/raft/raft.go:464-509 | A commit index reached other than by a heartbeat covers entries that some leader has committed. |
| `RaftTheorems.CommittedStays` | hermes/pkg/raft/raft.go:808-825 | On every node in every run: applied <= committed <= last index, commit index and term never fall, no step changes a committed entry, and the apply loop has walked exactly entries 1..applied in order. |
| `RaftTheorems.BetweenRounds` | hermes/pkg/raft/raft.go:808-825 | Only a round of its owner moves a node's applied index; every other event keeps the applied entries, the numbering of the log and applied <= committed <= last index. |
| `RaftRounds.StaysInStep` | hermes/pkg/raft/node.go:121-174 | Whatever a node does between two rounds keeps its owner in step: applied index and storage still match the log. |
| `RaftTheorems.DeliveryIsDefined` | hermes/pkg/raft/demo.go:40-66 | A message in the network can be delivered in every state of every run: the handlers never meet a message or a progress table they are not defined for. |
| `RaftTheorems.HeartbeatCommitsRightly` | hermes/pkg/raft/raft.go:544-556 | A heartbeat that raises a node's commit index to c leaves it with the entries a leader committed if and only if the node's entry c has the term of the leader's entry c. |
| `RaftTheorems.HeartbeatWithinMatch` | hermes/pkg/raft/raft.go:694-702 | A heartbeat of the leader's term, with a commit index up to a match index that was above the leader's commit index, commits only entries that a leader has committed. |
| `RaftTheorems.HeartbeatIsBacked` | hermes/pkg/raft/raft.go:694-702 | Every commit index a heartbeat carries was reached by a leader of a term up to the heartbeat's. |
| `RaftDivergence.HeartbeatBreaksAgreement` | hermes/pkg/raft/raft.go:544-556 | A run of three nodes in which a heartbeat makes one node commit an entry different from the one the leaders committed at that index. |
| `RaftTheorems.CommitMeetsElection` | hermes/pkg/raft/log.go:170-191 | For any number of members, even or odd, the members counted for a commit share one with the voters of any winning candidate. |
| `RaftService.ProposalStored` | hermes/pkg/raft/raft.go:444-462 | A leader that is given a proposal stores it: its log keeps what it had and grows by the proposed entries, kinds and data unchanged, numbered on, in its term. |
| `RaftService.ProposalHandedOn` | hermes/pkg/raft/raft.go:366-373 | A follower hands a proposal on to its leader, entries unchanged. An error is returned if and only if the proposal is neither stored nor handed on, and each error has its own condition. |
| `RaftProposals.OnlyProposed` | hermes/pkg/raft/raft.go:444-462 | In every run, every entry of every log is a leader's no-op or has kind and data of an entry proposed before. |
| `RaftProposals.OnlyProposedApplied` | hermes/pkg/raft/node.go:212-230 | In every run, every command that a node's storage is given was proposed before. |
| `RaftService.SendsAppend` | hermes/pkg/raft/raft.go:704-732 | In every run a leader that sends to a peer, whatever the state of its track, sends one append: the entries from its next index on, up to the most allowed, with the term before them and the commit index. |
| `RaftService.ProposalSent` | hermes/pkg/raft/raft.go:444-462 | A proposal makes a leader send such an append to every peer, in order. |
| `RaftCatchUp.HearsAck` | hermes/pkg/raft/raft.go:527-541 | An acknowledgement of more than before: the track follows it and replicates, what can be committed is, and exactly a peer that still lags is sent its next append. |
| `RaftCatchUp.StepBackExactly` | hermes/pkg/raft/state.go:103-123 | Exactly when a refusal moves a track back, and to where. |
| `RaftSteps.NeverStepsBack` | hermes/pkg/raft/raft.go:476-489 | In every run a refusal moves no next index: a leader that probes ignores it, one that replicates probes and sends the same append again. |
| `RaftService.HeartbeatTaken` | hermes/pkg/raft/raft.go:544-556 | A heartbeat makes a node follow its sender in its term, raises the commit index to the leader's as far as entries are stored, and is answered. |
| `RaftService.HeartbeatHeard` | hermes/pkg/raft/raft.go:414-424 | The answer to a heartbeat makes a leader send to exactly the peers that lag. |
| `RaftCatchUp.Answers` | hermes/pkg/raft/raft.go:464-509 | What a member answers to the next append, and its log and commit index after it: if it starts below the commit index, if the entries before it are missing, and if they are there. |
| `RaftCatchUp.TalkExactly` | hermes/pkg/raft/raft.go:464-542 | Appends, answers and the appends these trigger: however long it goes on, the member ends with the leader's log if and only if it had the leader's entries up to the larger of the index before its next one and its commit index. |
| `RaftService.CatchUpExactly` | hermes/pkg/raft/raft.go:464-542 | In every state of every run, for a leader and a peer of at most its term: the peer gets the leader's log if and only if it has its entries up to there. If so the leader knows it and the peer commits what the leader had; if not its log never changes. |
| `RaftService.HeartbeatCatchesUp` | hermes/pkg/raft/raft.go:414-424 | The same for a heartbeat to a peer that lags, from the commit index on that the heartbeat leaves. |
| `RaftStranded.FollowerIsStranded` | hermes/pkg/raft/state.go:103-123 | A run of three nodes that ends with a follower that can never get an entry from its leader. |
| `RaftService.HalfSuffices` | hermes/pkg/raft/log.go:170-191 | Any half of the members, rounded up, suffices to commit an entry of the leader's term. |
| `RaftService.ProposalCommits` | hermes/pkg/raft/raft.go:444-542 | In every run: a leader that is given a proposal, and then talks to any peers in reach that are half of the members with itself, commits the whole proposal. |
| `RaftElections.RecencyIsTotal` | hermes/pkg/raft/log.go:157-168 | Of two logs one is at least as recent as the other; this carries over to a third; both are only if length and last term are equal. |
| `RaftElections.LongerIsAsRecent` | hermes/pkg/raft/log.go:157-168 | A log that extends another, or whose last term is later, is at least as recent. |
| `RaftElections.VoteExactly` | hermes/pkg/raft/raft.go:558-603 | A vote request that is not stale is answered, and granted if and only if the node has neither vote nor leader, or has voted for the candidate before, and its log is no more recent; a granted request is granted again. |
| `RaftElections.ExtensionGetsVote` | hermes/pkg/raft/raft.go:558-583 | In every run a node that is free votes for a candidate of no earlier term whose log extends its own. |
| `RaftElections.CampaignAsks` | hermes/pkg/raft/raft.go:651-676 | A campaign asks every peer, with the candidate's next term, last index and last term. |
| `RaftElections.ElectionExactly` | hermes/pkg/raft/raft.go:605-624 | In every state of every run: a node that campaigns, whose requests to some peers and their answers arrive, leads if and only if it and the willing ones among them are a majority; it then opens its term with a no-op and tells its peers. |
| `RaftElections.BeatsAll` | hermes/pkg/raft/raft.go:294-302 | A leader's timer sends each peer a heartbeat with the commit index. |
| `RaftBonds.VoteIsSticky` | hermes/pkg/raft/raft.go:558-583 | In every run a node that has voted or has had a leader votes from then on for nobody but the candidate it had voted for then and itself. |
| `RaftBonds.NoFailover` | hermes/pkg/raft/raft.go:558-583 | In every run, if at some state half of the members or more have voted or have a leader and have not voted for a node, that node never leads in a term later than all of theirs. |
| `RaftSteps.TermAfterStep` | hermes/pkg/raft/raft.go:310-336 | A message of an earlier term changes nothing; any other but a vote request brings a node to its term, and a later term makes it a follower. |
| `RaftSteps.UnreachableProbes` | hermes/pkg/raft/raft.go:430-435 | An unreachable peer is probed, and nothing else changes. |
| `RaftSteps.ReadyAppliesAll` | hermes/pkg/raft/raft.go:808-825 | In every run a round of the owner applies all that is committed and hands over all messages. |
| `RaftCompleteness.QuorumsMeet` | hermes/pkg/raft/raft.go:780-790 | A set of at least half the members, rounded up, meets every strict majority. |
| `RaftCompleteness.LogMatching` | hermes/pkg/raft/raft.go:704-732 | Two logs made of leaders' entries that agree on the term at an index agree up to it. |
| `RaftCompleteness.LeaderCompleteness` | hermes/pkg/raft/raft.go:558-603 | In a consistent history, the log that a later leader starts from holds all that an earlier leader committed, by induction on terms through a voter that stored it. |
| `RaftCompleteness.CommitsAgree` | hermes/pkg/raft/raft.go:740-754 | In a consistent history the commits of two leaders are prefixes of one another. |
| `RaftVoting.OneWinner` | hermes/pkg/raft/raft.go:605-624 | A candidate with a quorum is the node that the leader record of its term names, if there is one. |
| `RaftVoting.HandleVoteOK` | hermes/pkg/raft/raft.go:558-603 | Answering a vote request keeps the invariant: one vote per node and term, given only to a candidate whose log is up to date. |
| `RaftVoting.BecomeLeaderOK` | hermes/pkg/raft/raft.go:246-279 | Becoming leader keeps the invariant and opens the record of a term that had no leader. |
| `RaftReplication.AppendLogResult` | hermes/pkg/raft/log.go:63-82 | Appending a slice of a leader's log, where the logs agree up to it, yields the log itself if it already holds the slice, and else exactly the leader's log that far. |
| `RaftReplication.AcceptedLog` | hermes/pkg/raft/raft.go:464-509 | After an accepted append the follower's whole log is a prefix of that term's leader's log, past its no-op, and nothing up to the checked index has changed. |
| `RaftReplication.HandleAppendOK` | hermes/pkg/raft/raft.go:464-509 | Handling an append keeps the invariant, including that checked commits are commits of a leader. |
| `RaftReplication.HandleHeartbeatOK` | hermes/pkg/raft/raft.go:544-556 | Handling a heartbeat keeps the node's invariant, in which a commit index is only known to be one that some leader reached. |
| `RaftLeading.HoldersHaveStored` | hermes/pkg/raft/raft.go:740-754 | Whoever a leader counts for an index of its own term has stored its log up to that index. |
| `RaftLeading.RejectedTrackOK` | hermes/pkg/raft/state.go:103-123 | A rejection never moves a peer's next index below the leader's no-op. |
| `RaftLeading.MaybeCommitOK` | hermes/pkg/raft/raft.go:740-754 | A leader's commit keeps the invariant and is recorded with the quorum that stored it. |
| `RaftLeading.HandleAppendRspOK` | hermes/pkg/raft/raft.go:511-542 | Handling an acknowledgement or a rejection keeps the invariant. |
| `RaftStep.StepOK` | hermes/pkg/raft/raft.go:310-336 | Every message handled by a node in any role keeps the invariant of that node and of the history. |
| `RaftStep.TimerOK` | hermes/pkg/raft/raft.go:281-302 | A timer that fires, in any role, keeps the invariant. |
| `RaftRuns.NextOK` | hermes/pkg/raft/demo.go:40-66 | Every event of the cluster keeps the invariant of all nodes, all messages and the history. |
| `RaftRuns.RunOK` | hermes/pkg/raft/raft.go:310-336 | Every run has a history that explains each of its states. |
| `RaftMachine.Raft.Step` | hermes/pkg/raft/raft.go:310-336 | The handler of all messages makes the node that the step function of the cluster model says, and returns its error; a leader's message restarts the election timer. |
| `RaftMachine.Raft.Tick` | hermes/pkg/raft/raft.go:281-308 | Counts one tick of the timer of the role; exactly when its timeout is reached, the counter starts over and the node campaigns or, as leader, sends heartbeats; otherwise nothing else changes. |
| `RaftMachine.Raft.StepFollower` | hermes/pkg/raft/raft.go:338-376 | Dispatch as a follower refines the model's step. |
| `RaftMachine.Raft.StepCandidate` | hermes/pkg/raft/raft.go:378-400 | Dispatch as a candidate refines the model's step. |
| `RaftMachine.Raft.StepLeader` | hermes/pkg/raft/raft.go:402-442 | Dispatch as a leader refines the model's step. |
| `RaftMachine.Raft.BecomeFollower` | hermes/pkg/raft/raft.go:204-224 | Refines the model: the vote is dropped only when the term changes. The election timeout is drawn anew. |
| `RaftMachine.Raft.BecomeCandidate` | hermes/pkg/raft/raft.go:226-244 | Refines the model: next term, vote for itself, votes reset. |
| `RaftMachine.Raft.BecomeLeader` | hermes/pkg/raft/raft.go:246-279 | Refines the model: fresh progress for all members, then a no-op of the new term. |
| `RaftMachine.Raft.Campaign` | hermes/pkg/raft/raft.go:651-676 | Refines the model, including the single-node cluster that wins at once. |
| `RaftMachine.Raft.HandleVote` | hermes/pkg/raft/raft.go:558-603 | Refines the model's vote rule; a granted vote restarts the election timer, a refused one does not. |
| `RaftMachine.Raft.HandleVoteRsp` | hermes/pkg/raft/raft.go:605-624 | Refines the model: leads as soon as a quorum has granted. |
| `RaftMachine.Raft.HasQuorum` | hermes/pkg/raft/raft.go:780-790 | Says whether the granted votes are more than half of all members, in whatever order the map is read. |
| `RaftMachine.Raft.HandleProposal` | hermes/pkg/raft/raft.go:444-462 | Refines the model: entries are numbered, stored and broadcast. |
| `RaftMachine.Raft.HandleAppend` | hermes/pkg/raft/raft.go:464-509 | Refines the model, with the acknowledgement of the whole last index. |
| `RaftMachine.Raft.FindConflict` | hermes/pkg/raft/raft.go:764-778 | Finds the start of the stretch of entries with the term found at the rejected index. |
| `RaftMachine.Raft.HandleHeartbeat` | hermes/pkg/raft/raft.go:544-556 | Refines the model. |
| `RaftMachine.Raft.HandleAppendRsp` | hermes/pkg/raft/raft.go:511-542 | Refines the model. |
| `RaftMachine.Raft.SendAppend` | hermes/pkg/raft/raft.go:704-732 | Refines the model: one message from the peer's next index, cut to the most entries allowed. |
| `RaftMachine.Raft.BroadcastAppend` | hermes/pkg/raft/raft.go:678-692 | Sends to every peer in turn, as the model says. |
| `RaftMachine.Raft.BroadcastHeartbeat` | hermes/pkg/raft/raft.go:694-702 | Sends a heartbeat with the commit index to every peer. |
| `RaftMachine.Raft.MaybeCommit` | hermes/pkg/raft/raft.go:740-754 | Moves the commit index to the largest index that the progress table lets it commit, in whatever order the map is read. |
| `RaftMachine.Raft.TakeMessages` | hermes/pkg/raft/raft.go:802-806 | Hands out the waiting messages and empties the buffer. |
| `RaftSpec.CommitIndexIsLargest` | hermes/pkg/raft/log.go:170-191 | The commit rule finds the largest index of the current term that qualifies. |
| `RaftSpec.ConflictIsStretch` | hermes/pkg/raft/raft.go:764-778 | A conflict is reported at the start of the stretch of entries with the term found there, or at the last index if there is no entry. |
| `RaftLogs.RaftLog.Append` | hermes/pkg/raft/log.go:63-82 | Stores the entries with the model's truncation at the first conflict. |
| `RaftLogs.RaftLog.AppendOne` | hermes/pkg/raft/log.go:84-95 | Adds one entry at the end and changes nothing else. |
| `RaftLogs.RaftLog.CommitTo` | hermes/pkg/raft/log.go:97-115 | Raises the commit index, never above the last index nor below its value, and returns the entries newly covered. |
| `RaftLogs.RaftLog.AppliedTo` | hermes/pkg/raft/log.go:117-125 | Moves the applied index only. |
| `RaftLogs.RaftLog.Entries` | hermes/pkg/raft/log.go:127-155 | Returns the stored entries of the half-open range, cut to what is stored. |
| `RaftLogs.RaftLog.IsUpToDate` | hermes/pkg/raft/log.go:157-168 | Compares last term, then last index. |
| `RaftLogs.RaftLog.MaybeCommit` | hermes/pkg/raft/log.go:170-191 | Commits the largest index above the commit index that enough match indices reach and that has the current term; says whether there is one. |
| `RaftProgress.Progress.MaybeUpdate` | hermes/pkg/raft/state.go:92-101 | Raises match and next index to an acknowledged index; says whether it was news. |
| `RaftProgress.Progress.MaybeDecrTo` | hermes/pkg/raft/state.go:103-123 | Steps the next index back only for a rejection that is not stale. |
| `RaftProgress.Progress.BecomeReplicate` | hermes/pkg/raft/state.go:125-129 | Replicates from just after the match index. |
| `RaftProgress.Progress.BecomeProbe` | hermes/pkg/raft/state.go:131-136 | Sets the state to Probe and leaves the indices. |
| `RaftHost.RaftNode.ProcessReady` | hermes/pkg/raft/node.go:176-200 | One round of the apply loop: the write-ahead log grows by the entries above the applied index, messages are handed on, and storage has been given exactly the commands among entries 1..applied, each once, in order. |
| `RaftHost.RaftNode.ApplyEntries` | hermes/pkg/raft/node.go:212-230 | Walks the newly committed entries, skips no-ops, and ends with the applied index at the commit index. |
| `RaftHost.CommandsInOrder` | hermes/pkg/raft/node.go:212-230 | Storage is given every entry that is not a no-op, once, after exactly the commands before it. |
| `VectorClocks.VectorClock.Tick` | hermes/pkg/clock/vector_clock.go:30-36 | Adds one to the node's own component and returns a copy. |
| `VectorClocks.VectorClock.Send` | hermes/pkg/clock/vector_clock.go:38-44 | Adds one to the node's own component and returns what goes with the message. |
| `VectorClocks.VectorClock.Receive` | hermes/pkg/clock/vector_clock.go:46-59 | Takes the larger of each component, then adds one to the node's own. |
| `VectorClocks.Compare` | hermes/pkg/clock/vector_clock.go:100-134 | Returns the pointwise order of two vectors, whatever order their components are read in. |
| `VectorClocks.SeenExactly` | hermes/pkg/clock/vector_clock.go:30-59 | In every run, an event's own component is reached in another event's vector exactly if the first happened before the second or is it. |
| `VectorClocks.ClocksAreExact` | hermes/pkg/clock/vector_clock.go:100-134 | For two distinct events of any run: Before iff the first happened before the second, After iff the reverse, Concurrent iff neither, Equal never. |
| `Shards.EveryKeyOnce` | hermes/pkg/partition/shard.go:44-52 | In a table whose shards adjoin in ascending order, with equal starts allowed, every key is in exactly one shard. |
| `Shards.SplitTiles` | hermes/pkg/partition/shard.go:200-244 | A split at a key of the shard leaves the table tiled if and only if the key is not empty. |
| `Shards.SplitStrict` | hermes/pkg/partition/shard.go:200-244 | After a split all starts differ if and only if they did before and the key is not the shard's start. |
| `Shards.SplitServes` | hermes/pkg/partition/shard.go:200-244 | What a caller can check before a split: whatever order the sort leaves, every key is in one shard and is found, if and only if all starts differ and the key is not the shard's start. |
| `Shards.AnyOrderServes` | hermes/pkg/partition/shard.go:134-156 | A tiled table serves every key in every ascending order if and only if no two starts are equal. |
| `Shards.SplitPartitions` | hermes/pkg/partition/shard.go:200-244 | In whatever order the sort leaves them, the shards after a split hold every key exactly once if and only if the key is not empty. |
| `Shards.ArrangedFinds` | hermes/pkg/partition/shard.go:134-156 | With the shards of a tiled table in any ascending order, the search finds every key if and only if, of shards with the same start, all but the last are hollow. |
| `Shards.ArrangedTiled` | hermes/pkg/partition/shard.go:228-231 | The shards of a tiled table in any ascending order are tiled if and only if ties are in that order. |
| `Shards.SplitAtStart` | hermes/pkg/partition/shard.go:200-244 | For one outcome of the sort: after a split at a non-empty start of a table with different starts, the search finds every key if and only if the hollow left part comes before the new shard. |
| `Shards.SplitParts` | hermes/pkg/partition/shard.go:200-244 | The parts of a split share out the shard's keys, except for a split at the empty key, which leaves every key in the left part as well. |
| `Shards.SplitIsUp` | hermes/pkg/partition/shard.go:213-233 | A split puts two shards in place of one: the lower keeps id, group and leader in a new version, the upper has the new id and group; all others stay. |
| `Shards.MergeTiles` | hermes/pkg/partition/shard.go:246-279 | Merging a shard with one that starts where it ends leaves the table tiled if and only if that bound is not empty and the second is its neighbour or hollow. |
| `Shards.MergeOnce` | hermes/pkg/partition/shard.go:246-279 | After a merge every key is in exactly one shard if and only if the common bound is not empty. |
| `Shards.MergeFinds` | hermes/pkg/partition/shard.go:246-279 | After a merge the search finds every key if and only if the common bound is not empty and the second shard was the neighbour of the first or hollow. |
| `Shards.MergeParts` | hermes/pkg/partition/shard.go:246-279 | Unless the common bound is empty, the merged shard has exactly the keys of the two. |
| `Shards.MergeIsJoined` | hermes/pkg/partition/shard.go:260-274 | A merge puts one shard in place of two: the first, in a new version, with the end of the second; all others stay, in order. |
| `Shards.MergeLastWithFirst` | hermes/pkg/partition/shard.go:246-279 | Merging the last shard with the first passes the adjacency check and loses exactly the keys of the two. |
| `Shards.MergeUndoesSplit` | hermes/pkg/partition/shard.go:200-279 | Merging what a split made restores every range. |
| `Shards.ClipExact` | hermes/pkg/partition/router.go:126-159 | The clipped range holds exactly the keys that are in the range and in the shard. |
| `ShardMaps.ShardDescriptor.ContainsKey` | hermes/pkg/partition/shard.go:44-52 | Says whether the key is in the half-open range, with an empty bound as none. |
| `ShardMaps.ComputeSplitPoints` | hermes/pkg/partition/shard.go:301-312 | Gives the n - 1 one-character cuts, evenly over the 93 steps from '!' to '~'. |
| `ShardMaps.FirstTableTiled` | hermes/pkg/partition/shard.go:91-132 | The first table is tiled for every number of shards from 1 on. |
| `ShardMaps.FirstTableStrict` | hermes/pkg/partition/shard.go:301-312 | Its starts all differ if and only if there are at most 94 shards; from 95 on, and only then, it has a shard without keys. |
| `ShardMaps.ShardMap.Initialize` | hermes/pkg/partition/shard.go:91-132 | Makes the first table; list and index agree, and the map is valid for every n >= 1. |
| `ShardMaps.ShardMap.Lookup` | hermes/pkg/partition/shard.go:134-156 | For any ascending list: finds the key if and only if the last shard that does not start above it contains it. In a valid map every key is found, in the one shard that contains it. |
| `ShardMaps.ShardMap.LookupRange` | hermes/pkg/partition/shard.go:158-184 | For any ascending list: the stretch from the owner of the start to the first shard at or above the end. In a valid map these are the shards that meet the range, and hollow ones between; exactly those that meet it if and only if none is hollow, or, for a range without keys, if its start's owner does not start below its end. |
| `ShardMaps.ShardMap.Split` | hermes/pkg/partition/shard.go:200-244 | Succeeds iff the shard exists and contains the key; the result is the split table in some ascending order. In a valid map: its shards hold every key once iff the key is not empty, the search then finds every key iff ties are in order, both are certain if all starts differ and the key is not the shard's start, and the map stays valid iff, besides, the new id is unused. |
| `ShardMaps.ShardMap.Merge` | hermes/pkg/partition/shard.go:246-279 | Succeeds iff both shards exist and the first ends where the second starts; the first takes over the end, and all shards with the id of the second are dropped. In a valid map: every key is then in one shard iff the bound is not empty; the search finds every key, and the map stays valid, iff besides the second is the neighbour or hollow. |
| `ShardMaps.ReusedIdLosesKeys` | hermes/pkg/partition/shard.go:213-272 | Three shards, a merge of the first two and a split: the split uses an id that is in use, and a merge that names it drops two shards and loses keys. |
| `Routers.RouteRange` | hermes/pkg/partition/router.go:126-159 | For any ascending map each request asks one shard, named in it, for its part of the range. In a valid map, for start < end or an open end, the requests adjoin, make up the range, and ask each key of the one shard that contains it, which is the one a lookup finds; a request is empty iff its shard is hollow. |
| `Planner.PruneShards` | hermes/pkg/query/planner.go:178-206 | Keeps the shards that may hold answers, in order. |
| `Planner.Plan` | hermes/pkg/query/planner.go:132-174 | One sub-query per kept shard, to its leader, clipped to it, with filter and limit, and with the aggregation pushed down, SUM in place of AVG. |
| `Sorting.Sort` | hermes/pkg/query/planner.go:424-426 | Sorts by a key: the result is in order and has the same elements. |
| `Planner.Merge` | hermes/pkg/query/planner.go:347-438 | Merges scans, COUNT, SUM, AVG, MIN and MAX of the shards that answered; MAX is the greatest they report iff one of these is at least 0, and else 0. |
| `Planner.Largest` | hermes/pkg/query/planner.go:404-412 | Finds the largest of the shards' maxima if and only if one of them is at least 0. |
| `Planner.Smallest` | hermes/pkg/query/planner.go:391-402 | Finds the smallest of the shards' minima. |
| `ScatterGather.SubRange` | hermes/pkg/query/planner.go:208-226 | The clipped range of a sub-query holds exactly the keys of the query that are in the shard. |
| `ScatterGather.PrunedHoldsNone` | hermes/pkg/query/planner.go:178-206 | A pruned shard holds no key that the query's range and prefix allow. |
| `ScatterGather.KeptExactly` | hermes/pkg/query/planner.go:178-206 | A shard with keys is kept if and only if some are in the query's range and, with a prefix, some start with it or the shard ends where the prefix begins. |
| `OrderedSets.LimitPushesDown` | hermes/pkg/query/planner.go:132-174 | Limiting every part and then the union gives what limiting the union alone gives. |
| `OrderedSets.LimitedIsFirst` | hermes/pkg/query/planner.go:428-431 | A limit keeps the first elements, as many as it says, and one of 0 or less keeps all. |
| `ScatterGather.ScanOfAnswered` | hermes/pkg/query/planner.go:347-438 | Whatever order results arrive in and whichever shards fail, the merged entries are the ordered scan, cut to the limit, of what the shards that answered hold. |
| `ScatterGather.ScatterGatherIsScan` | hermes/pkg/query/planner.go:293-344 | Over any layout that partitions the keys, if no shard fails, a query without aggregation gives, through pruning, clipping, per-shard limits, sorting and the final limit, exactly one ordered filtered scan of the whole store. |
| `ScatterGather.AggregatesPushDown` | hermes/pkg/query/planner.go:347-390 | Without a limit, with executors that compute only what they are asked for, the merged COUNT, SUM and AVG are those of that scan. |
| `ScatterGather.MinExactly` | hermes/pkg/query/planner.go:391-402 | The merged MIN is the least value of that scan if and only if every shard that was asked holds an answer or some answer is not positive. |
| `ScatterGather.MaxExactly` | hermes/pkg/query/planner.go:404-412 | The merged MAX is the greatest value of that scan if and only if some answer is not negative. |
| `HashRings.ConsistentHashRing.AddNode` | hermes/pkg/partition/consistent_hash.go:85-112 | The ring holds the points of all nodes, each once, sorted; adding a node twice changes nothing. |
| `HashRings.ConsistentHashRing.RemoveNode` | hermes/pkg/partition/consistent_hash.go:116-137 | Removes exactly the node's points and keeps the order of the rest. |
| `HashRings.ConsistentHashRing.GetNode` | hermes/pkg/partition/consistent_hash.go:141-162 | Returns the node at the home position of the key's hash, which is a first point clockwise from it, or an error iff there are no nodes. |
| `HashRings.ConsistentHashRing.GetNodes` | hermes/pkg/partition/consistent_hash.go:167-209 | Ends, and returns min(count, nodes) distinct nodes, the first ones met clockwise from the same home position, so the first is GetNode's answer even if hashes tie. |
| `HashRings.JoiningMovesLeast` | hermes/pkg/partition/consistent_hash.go:85-137 | With distinct hashes, when a node joins (or, read backwards, leaves) a hash changes owner only to (or from) that node, and exactly if one of its points comes first. |
| `HashRings.RemovingUndoesAdding` | hermes/pkg/partition/consistent_hash.go:85-137 | With distinct hashes, adding a node and removing it restores the ring. |
| `HashRings.LabelsDiffer` | hermes/pkg/partition/consistent_hash.go:96-101 | Different points have different labels, whatever the nodes are called. |
| `HashRings.PointsDiffer` | hermes/pkg/partition/consistent_hash.go:96-101 | If no two strings have the same hash, no two points of a ring have. |
| `HashRings.MetInOrder` | hermes/pkg/partition/consistent_hash.go:188-206 | Nodes are listed in the order in which they are first met. |
| `TokenBuckets.TokenBucket.Allow` | hermes/pkg/ratelimit/limiter.go:53-72 | Refills up to the capacity, then takes the cost if it is there. |
| `TokenBuckets.TokenBucket.AllowN` | hermes/pkg/ratelimit/limiter.go:76-92 | Refills, then takes as many whole tokens as are there, up to n. |
| `TokenBuckets.CallConserves` | hermes/pkg/ratelimit/limiter.go:53-92 | A call takes from the refilled bucket exactly what it grants, and no more than is there. |
| `TokenBuckets.GrantsMost` | hermes/pkg/ratelimit/limiter.go:53-92 | A call is granted as much as it can be: its cost if it is there, or the most whole tokens up to n. |
| `TokenBuckets.EveryCallCounted` | hermes/pkg/ratelimit/limiter.go:53-92 | In every run each request is counted once, as allowed or as rejected. |
| `TokenBuckets.TokensInBounds` | hermes/pkg/ratelimit/limiter.go:53-92 | In every run with non-negative costs and a clock that does not go back, tokens stay between 0 and the capacity. |
| `TokenBuckets.GrantBound` | hermes/pkg/ratelimit/limiter.go:53-92 | In every such run the cost granted between any t1 <= t2 is at most capacity + rate * (t2 - t1). |
| `TokenBuckets.BoundIsMet` | hermes/pkg/ratelimit/limiter.go:42-72 | The bound is reached. |
| `LwwRegisters.LWWRegister.SetAt` | hermes/pkg/consistency/crdt.go:200-209 | Overwrites iff the pair (timestamp, own id) is later than the one held. |
| `LwwRegisters.LWWRegister.Merge` | hermes/pkg/consistency/crdt.go:219-236 | Takes the other's value iff its pair is later. |
| `LwwRegisters.LaterIsTotal` | hermes/pkg/consistency/crdt.go:200-236 | Of two pairs one is later unless they are equal, and never both. |
| `LwwRegisters.WriteIsTaken` | hermes/pkg/consistency/crdt.go:200-209 | A write is in the register unless the pair held is not earlier. |
| `LwwRegisters.OneValueEach` | hermes/pkg/consistency/crdt.go:200-209 | In every run over replicas with distinct ids, a timestamp and a writer name at most one accepted value. |
| `LwwRegisters.HoldsLatest` | hermes/pkg/consistency/crdt.go:200-236 | In every such run a replica holds the latest of the accepted writes it has absorbed. |
| `LwwRegisters.Convergence` | hermes/pkg/consistency/crdt.go:200-236 | Replicas that have absorbed the same accepted writes are equal, whatever the order. |
| `LwwRegisters.MergeLaws` | hermes/pkg/consistency/crdt.go:219-236 | On the values seen in a run, merging is commutative, associative and idempotent. |
| `LwwRegisters.NeedsDistinctIds` | hermes/pkg/consistency/crdt.go:219-236 | Two replicas with one id can absorb the same writes and stay different. |
| `BloomFilters.BloomFilter.WithParams` | hermes/pkg/storage/bloom/bloom.go:41-48 | Rounds the size up to whole words, in 64-bit arithmetic, and starts empty. |
| `BloomFilters.BloomFilter.Add` | hermes/pkg/storage/bloom/bloom.go:50-59 | Sets the bits of all probes of the key. |
| `BloomFilters.BloomFilter.Contains` | hermes/pkg/storage/bloom/bloom.go:61-72 | Says whether all probes of the key find their bit set. |
| `BloomFilters.BloomFilter.SetBit` | hermes/pkg/storage/bloom/bloom.go:74-78 | Sets one bit in place. |
| `BloomFilters.BloomFilter.GetBit` | hermes/pkg/storage/bloom/bloom.go:80-84 | Reads one bit. |
| `BloomFilters.BloomFilter.Serialize` | hermes/pkg/storage/bloom/bloom.go:102-110 | Writes size, number of probes and words, lowest byte first. |
| `BloomFilters.BloomFilter.Deserialize` | hermes/pkg/storage/bloom/bloom.go:112-136 | Reads them back, with 0 for words that are missing; an error iff there are fewer than 16 bytes. Keys can be added and looked up iff the size is a multiple of 64 and is not 0 while there are probes. |
| `BloomFilters.Hash128` | hermes/pkg/storage/bloom/bloom.go:138-157 | Computes the two 64-bit hashes. |
| `BloomSpec.FnvValues` | hermes/pkg/storage/bloom/bloom.go:139-149 | The first hash has published values of 64-bit FNV-1a. |
| `BloomSpec.MixValues` | hermes/pkg/storage/bloom/bloom.go:151-156 | The second has values of the 64-bit finalizer of MurmurHash3. |
| `BloomSpec.KeyProbes` | hermes/pkg/storage/bloom/bloom.go:50-58 | The probes of a key start at its first hash; each goes the second further than the one before, round 64 bits, and is cut to the size. |
| `BloomSpec.SetBitExact` | hermes/pkg/storage/bloom/bloom.go:74-84 | Setting a bit sets that bit and no other. |
| `BloomSpec.FoundExactly` | hermes/pkg/storage/bloom/bloom.go:50-72 | After any additions a key is found iff every one of its probes is a probe of an added key. |
| `BloomSpec.NoFalseNegatives` | hermes/pkg/storage/bloom/bloom.go:50-72 | After any additions every added key is found. |
| `BloomSpec.DecodeEncode` | hermes/pkg/storage/bloom/bloom.go:102-136 | Reading back what was written gives the same size, number of probes and words. |
| `BloomSpec.ByteForm` | hermes/pkg/storage/bloom/bloom.go:102-110 | Byte i of number j of the byte form is that number's digit of weight 256 to the i; the numbers are size, probes and words in turn. |
| `BloomSpec.SameAnswers` | hermes/pkg/storage/bloom/bloom.go:102-136 | A filter read back from the bytes of another gives the same answer for every key. |
| `DistLocks.DistributedLockService.Acquire` | hermes/pkg/consistency/distlock.go:98-140 | Refuses iff the lock has an unexpired grant; else makes a new grant with the next token. |
| `DistLocks.DistributedLockService.Release` | hermes/pkg/consistency/distlock.go:144-170 | Drops the grant iff the token is its own. |
| `DistLocks.DistributedLockService.Renew` | hermes/pkg/consistency/distlock.go:174-198 | Changes the expiry of the grant in place iff the token is its own and it has not expired. |
| `DistLocks.DistributedLockService.VerifyToken` | hermes/pkg/consistency/distlock.go:202-221 | Decides as the model's check does; each error has its own condition. |
| `DistLocks.DistributedLockService.ExpireRound` | hermes/pkg/consistency/distlock.go:224-240 | Drops exactly the grants that are past their expiry. |
| `LockSpec.TokensIncrease` | hermes/pkg/consistency/distlock.go:98-140 | In every run tokens strictly increase from grant to grant, over all locks. |
| `LockSpec.GrantLasts` | hermes/pkg/consistency/distlock.go:98-140 | A lock is granted iff nobody holds it; the token passes exactly until the time asked for, or 30 seconds, is over. |
| `LockSpec.ReleaseFrees` | hermes/pkg/consistency/distlock.go:144-170 | A lock is released iff the token is the one it is held with, and is then free for everybody at once. |
| `LockSpec.RenewalLasts` | hermes/pkg/consistency/distlock.go:174-198 | A grant is renewed iff the token is its own and its time is not over; the token then passes exactly until the new time is. |
| `LockSpec.ExpiryIsInvisible` | hermes/pkg/consistency/distlock.go:224-240 | The expiry loop removes exactly what is past its time, and no later request can tell. |
| `LockSpec.OneHolder` | hermes/pkg/consistency/distlock.go:98-240 | In every run with a clock that does not go back, of two grants of one lock the earlier is released or expired. |
| `LockSpec.Fencing` | hermes/pkg/consistency/distlock.go:202-221 | In every such run a granted token passes for its lock if and only if the grant is the newest of the lock, unreleased and unexpired. |
| `LockSpec.StaleForEver` | hermes/pkg/consistency/distlock.go:202-221 | Once a lock was granted again, the earlier token is rejected in every later state. |
| `LockSpec.VerifyIsExact` | hermes/pkg/consistency/distlock.go:202-221 | The check tells the current token from all others if and only if no greater one is shown. |
| `LockSpec.TokensThatPass` | hermes/pkg/consistency/distlock.go:202-221 | In every run, of all tokens granted for any lock exactly those from the newest of a lock on pass for it, and only while that one is unreleased and unexpired. |
| `LockSpec.TokenOfAnotherLock` | hermes/pkg/consistency/distlock.go:202-221 | The token of another lock, granted later, passes. |

## Left out

- Raft snapshots, `Compact` and the log offset: nothing sends a snapshot, so the offset stays 0.
- Pre-vote, `TimeoutNow`, the read-only queue and read states: nothing sends or fills them.
- Raft restarts: no hard state is ever emitted, so a restarted node is outside the runs.
- Raft timers in the runs of a cluster: a timeout may happen at any time there, and a message may never arrive.
  So it is stated what happens if messages are delivered, not that they are.
- Raft fields that only serve flow control (`Inflight`, `RecentActive`), and reading the write-ahead log back.
- The widths of Raft's terms and indices, of vector clock components, of fencing tokens and of times:
  they are unbounded here. The Bloom filter's 64-bit arithmetic is modelled.
- The Raft transports, gRPC and `hermes/pkg/server`: messages are delivered whole.
- `UpdateLeader`, replicas and the router's leader cache: they do not touch ranges.
- Timeouts and printing of the scatter-gather executor: the model starts from one result per planned shard.
- ScatterGather.ScatterGatherIsScan: the key prefix must be implied by the filter, because the code uses the prefix only to prune.
- ScatterGather.AggregatesPushDown: states COUNT, SUM and AVG without a limit, in exact arithmetic; with a limit the shards cut their parts before they count. The same holds for MIN and MAX.
- `sort.Slice` and the order of Go maps: a sort is an insertion sort of which only order and elements are used, and an iteration takes the elements in any order.
- `Distribution` and the rest of the ring's statistics.
- `TokenBucket.Wait` and the other rate limiters; rounding of floating-point numbers.
- `LWWRegister.Set`, which overwrites with the wall clock without a comparison; a register merged with itself, which the code's locks do not allow; the other CRDTs.
- `New` of the Bloom filter, which picks its size by logarithms, and its estimates.
- The lock service's log of strings.
- The storage engine, transactions, HLC, Lamport clock, timestamp oracle, gossip, sagas, circuit breaker,
  phi accrual detector, chaos tooling, demos and observability: not part of this model.
