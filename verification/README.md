# Verified model of the broker's hard core

The broker stores each topic partition as a log of segment files, guards publishes with a write-ahead log,
replicates partitions inside a cluster, elects a leader with a Raft variant, compacts logs by key, deduplicates
exactly-once publishes, limits request rates, and deals partitions out to consumer groups. This project models those
parts in Dafny and proves what they keep, over every input and every run. `dafny verify dfyconfig.toml` checks all of it.

| files | what they model | main results |
|---|---|---|
| `RaftTypes`, `RaftNode`, `RaftCluster` | one Raft node as an object, its handlers as functions, and a cluster of nodes over a network that loses, repeats and reorders packets, with crashes and restarts | every handler equals its function; every reachable cluster is well-formed |
| `RaftElection`, `RaftSplit` | who can lead a term | two leaders of one term need a re-vote; election safety holds exactly for clusters of at most two nodes |
| `RaftBallots` | who gets a vote, who wins an election, who is taken for the leader | a vote is cast exactly if it is free and the candidate's log was as recent as the voter's; a leader's log was as recent as those of a majority; elections succeed; whoever is taken for the leader was elected |
| `RaftCommit`, `RaftDoubleCommit` | what the nodes apply | commit safety, between any two moments of a run, holds exactly for clusters of at most two nodes |
| `RaftLogMatching`, `RaftBackoff`, `RaftLivelock` | what the logs agree on, how a leader finds the point of agreement, what a follower commits | log matching; when a rejection makes progress; followers catch up within a bound, and commit and apply as far as the leader had; exactly what a request commits; a run from which the search never ends |
| `RaftProgress` | what a leader commits, and what happens to a proposal | the commit index is exactly the highest a majority allows; a proposal is applied by any majority that can be reached; a leader of a lower term steps down |
| `Replicator` | partition replication by push, fetch and acknowledgement | every follower log is a prefix of the leader log, always; followers catch up by polling and by being pushed to |
| `Bytes`, `Wal`, `OffsetWal` | the write-ahead log byte by byte, and the consumer-offset log on top | recovery is exact, maximal and idempotent; the position of every byte; checkpoints are transparent |
| `CrashReplay` | publishing under per-partition locks, crashes anywhere, replay | each logged message exactly once, at its own target offset |
| `Records`, `Segments`, `PartitionLogs`, `KeyCompaction`, `StorageRuns`, `StaleIndexes` | records, segments with sparse indexes, partition logs, retention, key compaction, whole runs of them, rewrites that stop half-way | indexed reads and raw sends equal the plain ones; offsets are never reused; compaction preserves meaning at every point and a whole sweep leaves exactly the records that are to stay; when segments roll over and which ones retention drops; when a stale index still finds every record |
| `Dedup`, `PublishRuns` | the ring buffer, the idempotency store, exactly-once publishing, publishes in parallel | a remembered message is never appended again and a retry gets its offset, and its whole result under an exact condition; exactly which requests keep parallel publishes from appending twice |
| `RateLimiting` | token buckets, refunds, eviction of idle buckets | grants are bounded by burst plus rate times time, and eviction is unobservable, exactly when buckets refill in time; a bucket grants exactly the tokens it has |
| `DeadLetters`, `Rebalancing` | the dead-letter queue on its backing array, the round-robin deal | stable in-place splits; one owner per partition with fair loads |
| `Inboxes`, `ConsumerGroups`, `DispatchRuns` | channels, consumers and groups; runs of many dispatches interleaved with reads, joins, leaves and push sinks | every message is in exactly one place in every run; no channel overflows and nothing is given up early; exactly which runs panic |

Objects that the program updates in place are classes here; each of their methods is proved against a function, and the
theorems are about those functions and about runs of steps over them. A run is a sequence of steps; a step that is not
possible in a state leaves the state alone, so a theorem over all sequences covers every interleaving of these steps.
Names and ids are natural numbers where only their equality and order matter. Checksums are arbitrary functions; every
theorem holds for all of them. Clock readings, the timing of elections and what the network delivers are step parameters. `Options` is
the one shared helper type.

## Where the code does less than its comments say

- Raft: a follower that accepts an AppendEntries of its current term forgets whom it voted for in that term
  (`internal/cluster/raft/replication.go:41`), so it may vote a second time. `RaftSplit` shows, for every cluster of three
  or more nodes, a run with two leaders of one term, and one in which logs disagree; both properties hold in all runs
  exactly when the cluster has at most two nodes. Log matching is proved for every run in which no term has two leaders.
- Raft commits: a reply reports the length of the whole log (`internal/cluster/raft/replication.go:54`), so a follower
  that holds another leader's entry of the same term counts as holding this leader's. `RaftDoubleCommit.DoubleCommitRun`
  is a run, for every cluster of three or more nodes, in which two nodes apply different first commands;
  `RaftDoubleCommit.CommitSafetyExactly` says that this is impossible exactly for clusters of at most two nodes.
- Raft followers: a request that cuts the log below the commit index, from a leader that claims more, sets the commit
  index back (`internal/cluster/raft/replication.go:57-64`). `RaftBackoff.CommitSetBack` gives such states and requests;
  `RaftBackoff.RequestCommits` says, for every reachable cluster, that a request sets it back in no other case.
- Raft back-off: a rejection can move the next index up instead of down. `RaftBackoff.RejectionLowersExactly` gives the
  exact condition; it cannot arise between logs of a run without two leaders of a term. With two such leaders the search
  can go round for ever: `RaftLivelock.BackoffCanLoop` is a run, for every cluster of three or more nodes, after which
  every further request is rejected and nothing ever changes.
- WAL: `Truncate` is described as atomic, but empties the file and then rewrites it
  (`internal/wal/wal.go:93-115`). `Wal.SurvivorsAreKept` covers a crash inside it: the entries rewritten in full survive.
- Offset checkpoints: the snapshot is taken before the log is rewritten (`internal/broker/checkpoint.go:40-45`).
  `OffsetWal.RacingCommitIsForgotten` says exactly when a commit in between is lost to the next restart.
- Publishing: a request that is logged but not appended (a failed append, or an exactly-once duplicate) leaves an entry
  whose target the next publish takes again. `CrashReplay.RecoveredExactly` and `CrashReplay.FailedPublishIsLost` say what
  recovery then does.
- Retention: the size test looks at the whole log for every segment (`internal/storage/partition_log.go:252`), so a log
  that is too big loses every segment but the active one (`PartitionLogs.TooBigKeepsOnlyActive`). Dropping fewer, oldest
  first, would have met the limit exactly when the active segment and the one before it fit
  (`PartitionLogs.FewerSufficeExactly`).
- Compaction: a rewritten segment whose new index was not renamed into place is described as readable by a full scan
  (`internal/storage/compactor.go:325-329`), but reads go on trusting the old index.
  `StaleIndexes.StaleIndexExactly` says exactly when they still find everything, and
  `StaleIndexes.StaleIndexHidesRecord` gives segments in which a record that is there is not found.
- Rate limits: a bucket that is evicted before it has refilled comes back full, so more than burst plus rate times time
  can be granted. `RateLimiting.GrantsBoundedExactly` says that the bound holds in all runs exactly when buckets refill
  from empty within the time to live; `RateLimiting.EvictionGrantsTooMuch` is the run that breaks it.
- Dispatch: retries run without the group's lock, and leaving closes the pull channel
  (`internal/consumer/consumer.go:128-131`, `:364-402`). `DispatchRuns.PanicsExactly` says that a dispatch panics exactly
  on a retry that saw no push channel, for a consumer that has left; `DispatchRuns.LeavingPanics` is such a run,
  `DispatchRuns.LateSinkPanics` one in which a sink is set between the look and the send, and
  `DispatchRuns.SafeGroupsExactly` says which configurations have none. With a push channel seen in time the message goes to
  a consumer that is gone (`DispatchRuns.DepartedStillReceives`).
- Exactly-once retries: after a purge the answer names no message and carries the retry's own partition
  (`internal/producer/producer.go:173-175`). `Dedup.RetryResultExactly` says when it still equals the first answer, and when
  at least its partition does.
- Exactly-once in parallel: a publish holds only its partition's lock from its lookup (`internal/producer/producer.go:168`)
  to its mark (`:207`), so two publishes under one number to two partitions can both find nothing and both append
  (`PublishRuns.RaceDoubles`). `PublishRuns.NeverTwiceExactly` and `PublishRuns.SpacingExactly` say that this is excluded
  exactly if all requests under a number go to one partition.
- Exactly-once and restarts: the window and the store are in memory and the producer gets a new id
  (`internal/producer/producer.go:65-84`), so a retry after a restart is appended again (`PublishRuns.RestartForgets`).
- Exactly-once clients: the broker passes no client id (`internal/broker/handlers_publish.go:124-127`), so all connections
  share the numbers of one producer. `Dedup.ConnectionsShareNumbers`: the second of two messages under one number is
  answered with the first one's result and not appended.

## Model

| member | source | states |
|---|---|---|
| RaftTypes.FirstOfTerm | internal/cluster/raft/log.go:18-27 | the conflict index is the start of the run of equal terms that ends at the rejected position |
| RaftTypes.LastWithTerm | internal/cluster/raft/replication.go:110-121 | the leader's resume point is the last index holding the conflicting term, or none |
| RaftTypes.HighestCommittable | internal/cluster/raft/replication.go:130-151 | the new commit index is the highest one of the current term held by a quorum, and no higher one qualifies |
| RaftNode.Node.constructor | internal/cluster/raft/node.go:75-120 | a started node is the restart of what was persisted; a lone node leads at once |
| RaftNode.Node.HandleElectionTimeout | internal/cluster/raft/election.go:5-52 | the in-place handler computes the election-timeout step and its ballots |
| RaftNode.Node.HandleRequestVote | internal/cluster/raft/election.go:54-102 | the in-place handler computes the vote step and its reply; when that grants the vote is RaftBallots.VoteGrantedExactly |
| RaftNode.Node.HandleVoteResponse | internal/cluster/raft/election.go:104-142 | the in-place handler counts votes and takes office at a quorum |
| RaftNode.Node.BecomeLeaderLocked | internal/cluster/raft/election.go:144-156 | the loop resets every peer's indices |
| RaftNode.Node.LastLogIndexAndTermLocked | internal/cluster/raft/log.go:5-11 | index and term of the last entry, or zeros |
| RaftNode.Node.AppendEntriesFromLeader | internal/cluster/raft/log.go:13-47 | the two loops compute the conflict hint and the splice |
| RaftNode.Node.HandleAppendEntries | internal/cluster/raft/replication.go:5-79 | the in-place handler computes the follower step and its reply; what that commits and applies is RaftBackoff.RequestCommits |
| RaftNode.Node.HandleAppendResponse | internal/cluster/raft/replication.go:81-128 | the in-place handler moves match and next indices and may commit |
| RaftNode.Node.AdvanceCommitIndexLocked | internal/cluster/raft/replication.go:130-151 | the downward scan commits the highest committable index |
| RaftNode.Node.ApplyCommittedLocked | internal/cluster/raft/replication.go:153-170 | each committed command is applied once, in order |
| RaftNode.Node.SendAppendEntriesToAll | internal/cluster/raft/replication.go:174-235 | next indices are clamped and each peer is sent the entries from its own |
| RaftNode.Node.Propose | internal/cluster/raft/node.go:165-182 | a leader appends one entry of its term and returns its index; another node changes nothing |
| RaftCluster.SpliceKeepsOrder | internal/cluster/raft/log.go:30-43 | overlaying a slice keeps indices consecutive and terms ascending |
| RaftCluster.ReachableWellFormed | internal/cluster/raft/replication.go:5-235 | in every run logs, packets and index tables are well-formed |
| RaftCluster.TermsNeverDecrease | internal/cluster/raft/replication.go:5-128 | over any run no node's term goes down |
| RaftElection.EverLeaderIsRecorded | internal/cluster/raft/election.go:104-156 | the recorded history names exactly the nodes that ever lead a term |
| RaftElection.LeaderHoldsMajority | internal/cluster/raft/election.go:104-142 | whoever ever leads a term was granted votes in it by a majority |
| RaftElection.TwoLeadersNeedReVote | internal/cluster/raft/replication.go:38-46 | two leaders of one term imply a node that voted for both and accepted an AppendEntries of that term in between |
| RaftElection.SmallClusterOneLeader | internal/cluster/raft/election.go:54-142 | no run of a cluster of at most two nodes has two leaders of a term |
| RaftSplit.TwoLeadersRun | internal/cluster/raft/replication.go:38-46 | every cluster of three or more nodes has a run that ends with two nodes leading term one |
| RaftSplit.ElectionSafetyExactly | internal/cluster/raft/election.go:54-142 | election safety holds in all runs if and only if the cluster has at most two nodes |
| RaftBallots.BallotOrigin | internal/cluster/raft/election.go:29-36 | in every run a ballot describes the log its sender had at a timeout of its own, in the term that timeout started |
| RaftBallots.AsksInRisingTerms | internal/cluster/raft/election.go:12-20 | a node never asks for votes twice in one term, also after a restart |
| RaftBallots.VoteGrantedExactly | internal/cluster/raft/election.go:54-102 | in every run a delivered ballot gets the vote if and only if its term is not behind, the vote of that term is free or already the candidate's, and the log the candidate had when it asked ends in a higher term than the voter's, or in the same and is as long; the answer says so |
| RaftBallots.LeaderWasAsRecent | internal/cluster/raft/election.go:54-142 | whoever ever leads a term had, when it asked, a log as recent as that of each of a majority when they voted |
| RaftBallots.VoterHasPrefix | internal/cluster/raft/election.go:75-80 | in every run without two leaders of a term, a log that ends in the same term as one that is as recent is a prefix of it |
| RaftBallots.TimeoutStartsElection | internal/cluster/raft/election.go:5-52 | in every run a timeout of a node that does not lead takes it to the next term, voting for itself and asking every other node; one that is alone leads; a leader is left alone |
| RaftBallots.RestartKeepsWhatIsStored | internal/cluster/raft/node.go:75-120 | in every run a restart keeps term, vote and log and nothing else; one that is alone leads a new term |
| RaftBallots.CandidateWins | internal/cluster/raft/election.go:5-142 | from every reachable cluster, a node that times out leads the next term after an exchange, every step of which happens, with any nodes that make a majority with it, are not ahead of its term and have no more recent log |
| RaftBallots.KnownLeaderWasElected | internal/cluster/raft/election.go:144-147 | in every run whoever a node takes for the leader was elected in that node's term; a leader takes itself, a candidate nobody |
| RaftBallots.AcceptingIsFollowing | internal/cluster/raft/replication.go:38-44 | in every run an accepted request makes the receiver a follower, in the request's term, that takes the sender for the leader |
| RaftBallots.NewLeaderStartsOver | internal/cluster/raft/election.go:144-156 | however a node comes to lead, in every run, it counts nothing for any other node and starts each behind the end of its log |
| RaftCommit.SmallClusterAgrees | internal/cluster/raft/replication.go:130-170 | in every run of a cluster of at most two nodes what any node has applied at any moment, restarts or not, and what any node has applied at the end are one a prefix of the other |
| RaftDoubleCommit.DoubleCommitRun | internal/cluster/raft/replication.go:38-170 | every cluster of three or more nodes has a run in which two nodes apply different first commands |
| RaftDoubleCommit.CommitSafetyExactly | internal/cluster/raft/replication.go:38-170 | what is applied agrees between any two moments of all runs if and only if the cluster has at most two nodes |
| RaftLogMatching.LogMatching | internal/cluster/raft/log.go:13-47 | in every run without two leaders of a term, logs that agree on an entry's index and term agree up to it |
| RaftSplit.LogMatchingExactly | internal/cluster/raft/log.go:13-47 | log matching holds in all runs if and only if the cluster has at most two nodes |
| RaftBackoff.RejectionLowersExactly | internal/cluster/raft/replication.go:109-125 | a rejection lowers the next index if and only if the leader has no entry of the follower's conflicting term at or past the point of conflict |
| RaftLivelock.BackoffCanLoop | internal/cluster/raft/replication.go:81-128 | every cluster of three or more nodes has a run after which, however many rounds of request and answer follow, all of their steps happen, every request is rejected, the next index goes from two to three and back, and neither log changes |
| RaftBackoff.CoherentInRun | internal/cluster/raft/log.go:13-47 | logs of a run without two leaders of a term satisfy the stronger relation under which back-off always progresses |
| RaftBackoff.AcceptedHoldsAll | internal/cluster/raft/log.go:30-47 | once the consistency check passes the follower holds the leader's whole log |
| RaftBackoff.RequestCommits | internal/cluster/raft/replication.go:38-64 | in every run a request that passes the consistency check leaves a log of exactly the length its entries imply, moves the commit index to the leader's as far as that log reaches and applies, in order, exactly what this covers; any other commits nothing; the commit index is the maximum of old and new if and only if the request does not leave the log shorter than it while the leader claims more |
| RaftBackoff.CommitSetBack | internal/cluster/raft/replication.go:57-64 | a family of states and requests after which the commit index is lower |
| RaftBackoff.FollowerCatchesUp | internal/cluster/raft/replication.go:38-235 | from every such reachable cluster the follower has the leader's whole log, and has committed and applied as far as the leader had, after at most as many rounds of request and answer as the next index says |
| RaftProgress.AdvanceCommitsExactly | internal/cluster/raft/replication.go:130-170 | in every run a leader's commit index becomes the highest index with an entry of its term that a majority is known to hold, if that is higher, and what it covers is applied; nothing else changes |
| RaftProgress.ReceiptCommitsExactly | internal/cluster/raft/replication.go:101-105 | the same after every delivered receipt, counting what it says |
| RaftProgress.ProposalIsApplied | internal/cluster/raft/node.go:165-190 | in every run without two leaders of a term, a proposal at a leader can be followed by an exchange with any nodes that make a majority with it and are not ahead of its term, every step of which happens, after which all of them have committed and applied the leader's log up to the proposal |
| RaftProgress.NobodyLeadsBelow | internal/cluster/raft/replication.go:14-21 | in every run a delivered message leaves its receiver in the higher of the two terms, as a follower if its own was lower |
| RaftProgress.StaleLeaderStepsDown | internal/cluster/raft/replication.go:25-98 | a leader whose request reaches a node of a higher term is told so and follows in that term, and that node is untouched |
| Replicator.Node.LeaderTick | internal/cluster/replicator.go:112-162 | the push loop sends exactly what is due: to each member whose recorded offset is below the end of the log, the records from that offset on, at most 256 |
| Replicator.Node.HandleFetch | internal/cluster/replicator.go:253-307 | a fetch records the follower's offset and is answered from it |
| Replicator.Node.HandleData | internal/cluster/replicator.go:310-377 | the append loop absorbs a batch and acknowledges the highest offset covered |
| Replicator.Node.HandleAck | internal/cluster/replicator.go:381-401 | an acknowledgement moves the follower's offset and its in-sync offset |
| Replicator.AbsorbSlice | internal/cluster/replicator.go:329-348 | a batch that starts within the log extends it to exactly the longer prefix |
| Replicator.GapMisplaces | internal/cluster/replicator.go:329-348 | every record of a batch lands on its own offset if and only if the batch does not start beyond the end of the log |
| Replicator.ReplicationPrefixSafety | internal/cluster/replicator.go:112-401 | in every run with loss, repetition and reordering each follower log is a prefix of the leader's, and no recorded or in-sync offset is beyond what was written |
| Replicator.FollowerCatchesUp | internal/cluster/replicator.go:195-377 | from every safe state the follower has the leader's whole log after as many polling rounds as it lacks batches |
| Replicator.TickSendsWhatIsDue | internal/cluster/replicator.go:112-162 | in every state a tick sends exactly that and nothing else |
| Replicator.RestartPushesFromTheStart | internal/cluster/replicator.go:51-64 | a restarted leader keeps its logs and pushes their first batch next |
| Replicator.PushesCatchUp | internal/cluster/replicator.go:112-401 | from every safe state, whatever is recorded of it, a follower that is only pushed to has the leader's whole log after as many rounds as the recorded offset lacks batches, and the leader then has the end of the log recorded as its offset and as in sync |
| Wal.ParseEncode | internal/wal/wal.go:129-149 | an encoded entry, whatever follows, parses back to itself |
| Wal.EncodeParse | internal/wal/wal.go:157-235 | what was parsed re-encodes to exactly the bytes read |
| Wal.EntryLayout | internal/wal/wal.go:129-149 | which byte of an entry holds which byte of its offset, length and checksum |
| Wal.RecoveryIsExact | internal/wal/wal.go:157-235 | for every byte string the file is cut to exactly the encoding of what is returned, and no valid entry follows |
| Wal.RecoveryIsMaximal | internal/wal/wal.go:157-235 | no longer run of entries fits at the start of the file |
| Wal.RecoveryIsIdempotent | internal/wal/wal.go:157-235 | recovering again changes nothing |
| Wal.TornWriteIsCutOff | internal/wal/wal.go:129-149 | entries followed by any strict prefix of one more are recovered exactly |
| Wal.Log.Recover | internal/wal/wal.go:157-235 | the recovery loop returns the valid run, cuts the file behind it and sets the next offset |
| Wal.Log.Append | internal/wal/wal.go:66-76 | an append adds one numbered entry and returns its number |
| Wal.Log.Truncate | internal/wal/wal.go:97-115 | the rewriting loop leaves exactly the new entries, numbered from zero |
| Wal.SurvivorsAreKept | internal/wal/wal.go:66-235 | over any run of writes and truncations with crashes at any byte of either, the log holds exactly the payloads written in full since the last truncation began |
| OffsetWal.ScanItoa | internal/wal/wal_offset.go:157-160 | scanning a printed partition number gives it back |
| OffsetWal.ScanDecimal | internal/wal/wal_offset.go:157-160 | scanning any decimal number, with or without a minus and whatever follows it, gives its value if that fits 32 bits and fails otherwise |
| OffsetWal.KeyRoundTrip | internal/wal/wal_offset.go:129-168 | a generated key parses to a record with the same key even with slashes in names; the names themselves come back if and only if the group has none |
| OffsetWal.ReplayIsLastWrite | internal/wal/wal_offset.go:65-89 | replay gives each key the offset of its last record |
| OffsetWal.ReplayHoldsWrittenKeys | internal/wal/wal_offset.go:65-89 | replay has exactly the keys that were written |
| OffsetWal.OffsetLog.Commit | internal/wal/wal_offset.go:43-59 | a commit changes the replayed map at its key and nowhere else |
| OffsetWal.OffsetLog.ReplayAll | internal/wal/wal_offset.go:65-89 | the loop computes the replayed map |
| OffsetWal.OffsetLog.Checkpoint | internal/wal/wal_offset.go:95-117 | it fails, changing nothing, exactly on a malformed key; on generated keys the log then replays to the snapshot |
| OffsetWal.CheckpointReplaysToSnapshot | internal/wal/wal_offset.go:95-117 | whatever order the snapshot is walked in, the rewritten log replays to it |
| OffsetWal.CheckpointsAreTransparent | internal/wal/wal_offset.go:43-117 | after any run of commits, checkpoints and restarts the store equals the last-write-wins map of all commits ever made, and so does replay |
| OffsetWal.RacingCommitIsForgotten | internal/broker/checkpoint.go:40-54 | a commit between snapshot and rewrite is lost to the next restart exactly when it changed its key |
| CrashReplay.Recovery.ReplayMessageWal | internal/broker/lifecycle.go:73-107 | the replay loop appends exactly the entries whose target is not below the next offset, then the WAL is emptied |
| CrashReplay.ReplaySteps | internal/broker/lifecycle.go:73-107 | the loop equals its steps, so a crash may strike between any two |
| CrashReplay.CrashReplayIsExact | internal/broker/handlers_publish.go:79-129 | for every interleaving of publishers and crashes, also during replay, a partition log is a prefix of the messages ever logged for it, and after replay all of them, once each, each at its own target offset |
| CrashReplay.OneMessagePerTarget | internal/broker/handlers_publish.go:112-129 | with failing appends too, after replay the offsets past the last emptying are exactly the logged targets, each holding a message logged for it |
| CrashReplay.RecoveredExactly | internal/broker/lifecycle.go:73-107 | every logged message is recovered if and only if no two entries claim one offset for different messages |
| CrashReplay.FailedPublishIsLost | internal/broker/handlers_publish.go:112-136 | a concrete run in which a logged but not appended message is skipped for good |
| Records.DecodeEncode | internal/storage/record.go:36-123 | an encoded record, whatever follows, decodes to itself and leaves the rest |
| Records.EncodeDecode | internal/storage/compactor.go:270-318 | a decoded record re-encodes to the very bytes on disk |
| Records.RecordLayout | internal/storage/record.go:36-66 | which byte of a record holds which byte of its fields |
| Records.ReadRecords | internal/storage/segment.go:191-205 | scanning encoded records yields the first so many at or above the start |
| Segments.BestIsSafe | internal/storage/segment.go:287-304 | wherever the sparse index sends a read, only records below the start are skipped |
| Segments.BestExactly | internal/storage/segment.go:287-304 | a read starts at the last index entry not above the start, or at the beginning if there is none |
| Segments.EntryLayout | internal/storage/segment.go:147-160 | which byte of an index entry holds which byte of offset and position |
| Segments.IndexKeepsUp | internal/storage/compactor.go:364-390 | the records behind the last one a rebuilt index points to are together shorter than the index spacing |
| Segments.Segment.Create | internal/storage/segment.go:37-74 | a new segment is a header and no records |
| Segments.Segment.Open | internal/storage/segment.go:75-99 | a reopened segment has the records on disk and the next offset they imply, whether or not its index is truthful |
| Segments.Segment.RecoverNextOffset | internal/storage/segment.go:257-283 | the scan finds the offset after the last record, or the base |
| Segments.Segment.Write | internal/storage/segment.go:112-162 | one record at the next offset, and an index entry when enough bytes have passed; the index stays truthful |
| Segments.Segment.FindPosition | internal/storage/segment.go:287-304 | the index scan returns the last entry not above the start before the first above it |
| Segments.Segment.FindExactPosition | internal/storage/segment.go:309-348 | the header scan returns the position from which exactly the records at or above the start follow |
| Segments.Segment.ScanRecords | internal/storage/segment.go:191-205 | on any bytes the scanning loop stops at the end or the count and fails on a bad checksum |
| Segments.Segment.Read | internal/storage/segment.go:172-206 | the read returns what the scan from the indexed position gives; with a truthful index that is the first so many records at or above the start |
| Segments.Segment.Rewrite | internal/storage/compactor.go:330-451 | the files become the kept records and a rebuilt, truthful index and the next offset stays; a failure before the renames or at the first changes no file, one at the second leaves the new log with the old index |
| PartitionLogs.AppendOK | internal/storage/partition_log.go:118-143 | an append goes to the old next offset, raises it by one, keeps ranges sorted and disjoint, and rolls over only to a new file name |
| PartitionLogs.ReopenLogOK | internal/storage/partition_log.go:47-96 | reopening keeps every record and the order of the ranges |
| PartitionLogs.KeptExactly | internal/storage/partition_log.go:241-259 | retention keeps exactly the segments that are active, unreadable, or neither too old nor in a log that is too big |
| PartitionLogs.RetainedExactly | internal/storage/partition_log.go:226-278 | a segment is gone if and only if it is not the active one, its file can be examined, and it was last written more than the given hours ago or the records and headers of the whole log are over the size limit |
| PartitionLogs.RetainOK | internal/storage/partition_log.go:226-278 | retention keeps the active segment, the order and the next offset |
| PartitionLogs.TooBigKeepsOnlyActive | internal/storage/partition_log.go:241-259 | a log over the size limit whose files can all be examined is cut down to its active segment |
| PartitionLogs.FewerSufficeExactly | internal/storage/partition_log.go:241-259 | dropping fewer segments, oldest first, would meet the limit if and only if the active segment and the one before it fit |
| PartitionLogs.PartitionLog.constructor | internal/storage/partition_log.go:83-89 | an empty directory gets one segment at offset zero |
| PartitionLogs.PartitionLog.Open | internal/storage/partition_log.go:47-96 | in whatever order the directory lists the files, the log is every segment reopened, sorted by base offset |
| PartitionLogs.PartitionLog.Append | internal/storage/partition_log.go:118-143 | the append, with roll-over, returns the old next offset |
| PartitionLogs.PartitionLog.Read | internal/storage/partition_log.go:164-188 | the read that skips segments and uses indexes returns the first so many records at or above the start of the concatenated segments |
| PartitionLogs.PartitionLog.SendTo | internal/storage/partition_log.go:293-341 | the raw send emits exactly the encodings of the records at or above the start, cut at the byte limit if there is one, headers excluded |
| PartitionLogs.PartitionLog.Compact | internal/storage/partition_log.go:226-278 | the retention loop, from hours and megabytes, keeps exactly the segments to keep and counts the others |
| KeyCompaction.MeaningOfKey | internal/storage/compactor.go:155-224 | what a log means for a key is its last record, unless that is a tombstone |
| KeyCompaction.FilterPrefixMeaning | internal/storage/compactor.go:194-221 | filtering any prefix of the swept records changes no meaning, whatever follows |
| KeyCompaction.CompactionPreservesMeaning | internal/storage/compactor.go:155-224 | stopped after any number of segments and whatever is appended later, the log means the same, keeps every keyless record, its order, and only old records |
| KeyCompaction.SweepKeepsExactly | internal/storage/compactor.go:155-224 | a whole sweep leaves in the segments before the active one exactly the records without a key and, of each key, the last record there, unless that is a tombstone as old as the grace period |
| KeyCompaction.SweepLeavesOnePerKey | internal/storage/compactor.go:155-224 | so at most one record of each key, and no tombstone past its grace |
| KeyCompaction.ScanSegment | internal/storage/compactor.go:228-262 | the scan reads every record of a segment |
| KeyCompaction.FilterRecords | internal/storage/compactor.go:194-221 | the decision loop keeps exactly what is to be kept, which KeyCompaction.SweepKeepsExactly says in terms of the log, and counts the rest |
| KeyCompaction.KeyCompactor.CompactPartition | internal/storage/compactor.go:155-224 | the two passes leave the swept log, in whose segments before the active one exactly the records that are to stay remain; a rewrite that fails, early or at either rename, leaves the log swept up to its segment and that segment as the failure leaves it; the count returned is exactly the number of records gone from the segments before |
| StaleIndexes.StaleIndexExactly | internal/storage/compactor.go:325-425 | with the compacted log and the old index every read is right if and only if, for each record the index points to, the sweep drops nothing before it or everything from it on |
| StaleIndexes.StaleIndexHidesRecord | internal/storage/compactor.go:325-425 | a family of segments in which a read from the offset of the kept record then returns nothing, without an error |
| StorageRuns.OffsetsAreNeverReused | internal/storage/partition_log.go:118-278 | over any run of appends, roll-overs, interrupted sweeps, retention and reopens the i-th append got offset i, and every record on disk is the one appended at its offset |
| StorageRuns.OnlyAppendsTakeOffsets | internal/storage/partition_log.go:118-278 | only an append moves the next offset, and by one |
| StorageRuns.RunsPreserveMeaning | internal/storage/compactor.go:155-224 | over any run without retention, sweeps interleaved with appends and cut short anywhere, the log means what everything ever appended means |
| StorageRuns.SweepRuns | internal/storage/compactor.go:155-224 | in every run a sweep that nothing interrupts leaves exactly the records that are to stay, and the active segment as it is |
| StorageRuns.RetentionRuns | internal/storage/partition_log.go:226-278 | in every run retention removes exactly the segments it is to remove |
| StorageRuns.AppendRollsExactly | internal/storage/partition_log.go:118-143 | an append starts a new segment, based at its offset, if and only if the file of the active one has reached the limit |
| StorageRuns.SealedAreFull | internal/storage/partition_log.go:118-143 | in every run without sweeps every segment but the active one has reached the limit |
| Dedup.ClientWindow.Lookup | internal/producer/dedup.go:29-37 | the ring scan finds a sequence number exactly when it is among the last so many marks |
| Dedup.ClientWindow.DoMark | internal/producer/dedup.go:40-43 | the ring then represents one more mark |
| Dedup.DedupWindow.LookupOffset | internal/producer/dedup.go:86-94 | the same per client; an unknown client has no marks |
| Dedup.DedupWindow.DoMark | internal/producer/dedup.go:98-107 | one client's marks grow by one, all others stay |
| Dedup.Producer.DoPublish | internal/producer/producer.go:154-209 | a publish by itself computes the publish function and its outcome |
| Dedup.Producer.PurgeIdempotencyStore | internal/producer/producer.go:239-246 | exactly the stored results below the bound go |
| Dedup.ExactlyOnce | internal/producer/producer.go:154-209 | a key in its client's window or in the store is never appended and gets the offset of its last append; any other is appended |
| Dedup.PublishedIsInTheLog | internal/producer/producer.go:154-209 | a request is answered as published only if its key has been appended and that message is in the log at the offset given; one that is refused or fails changes nothing |
| Dedup.RetryResultExactly | internal/producer/producer.go:154-184 | a retry is answered with the whole result of the last append, whose message is in the log at that place, if and only if the store still has it; its partition is right if and only if the store has it or the retry goes to the same one |
| Dedup.ConnectionsShareNumbers | internal/broker/handlers_publish.go:124-127 | of two connections that use one number the second message is answered with the first one's result and not appended |
| PublishRuns.PublishIsItsSteps | internal/broker/handlers_publish.go:82-129 | lookup, write, mark and store one after the other are the publish function, whatever other publishes are under way |
| PublishRuns.RunsAreExactlyOnce | internal/producer/producer.go:154-246 | in every run of interleaved publishes, purges and restarts in which no key is published twice at once a client's marks with one number since the last restart are more than a window apart, and the memory is such that every further publish is answered as above |
| PublishRuns.NeverTwice | internal/producer/producer.go:154-209 | without purges and restarts no such run ever appends a key twice |
| PublishRuns.OneRouteNoOverlap | internal/broker/handlers_publish.go:82-129 | if all requests under a key go to one partition, its lock keeps them from being under way at once |
| PublishRuns.RaceDoubles | internal/producer/producer.go:166-209 | two publishes under one key to two partitions that both look up before either marks are both appended and marked |
| PublishRuns.NeverTwiceExactly | internal/producer/producer.go:154-209 | no run without purges and restarts appends a key twice if and only if all requests under a key go to one partition |
| PublishRuns.SpacingExactly | internal/producer/producer.go:154-246 | in all runs a number recurs, since the last restart, only more than a window later if and only if all requests under a key go to one partition |
| PublishRuns.RestartForgets | internal/producer/producer.go:65-84 | after a restart every valid request is appended, whether it was before or not |
| RateLimiting.TokenBucket.Refill | internal/auth/rate_limiter.go:26-43 | the bucket has what it had plus the configured rate times the seconds since, at most the burst; a clock that went back adds nothing |
| RateLimiting.TokenBucket.Allow | internal/auth/rate_limiter.go:47-55 | a token is taken exactly when there is one |
| RateLimiting.ConfiguredBurst | internal/auth/rate_limiter.go:93-121 | the burst is rate times multiplier, the rate if the multiplier is not positive, one if the rate is not; so it is never below the rate or one |
| RateLimiting.RateLimiter.AllowBoth | internal/auth/rate_limiter.go:165-192 | the request step on both buckets, with the refund |
| RateLimiting.RateLimiter.EvictIdle | internal/auth/rate_limiter.go:240-254 | exactly the idle buckets go |
| RateLimiting.RateLimiter.UpdateLimits | internal/auth/rate_limiter.go:197-209 | new limits take effect and every bucket is gone |
| RateLimiting.TokensStayInBounds | internal/auth/rate_limiter.go:26-55 | in every run every bucket holds between zero and its burst, refunds included |
| RateLimiting.GrantsAreBounded | internal/auth/rate_limiter.go:26-192 | between any two steps of a run one client or topic is granted at most its configured burst (at least one) plus its configured rate (at least zero) times the seconds between, if the run has no eviction or buckets refill from empty within the time to live |
| RateLimiting.StepCost | internal/auth/rate_limiter.go:165-192 | a request costs each bucket it concerns exactly one token if it is granted, and nothing if either bucket refuses it |
| RateLimiting.AsksGrantExactly | internal/auth/rate_limiter.go:47-55 | of any number of requests at one time exactly as many are granted as the bucket has whole tokens |
| RateLimiting.DrainedGrantsExactly | internal/auth/rate_limiter.go:26-55 | so the bound is reached: a drained bucket grants, any time later, exactly the whole tokens of rate times time, at most the burst |
| RateLimiting.EvictionGrantsTooMuch | internal/auth/rate_limiter.go:240-254 | if they do not, a run that drains, evicts and drains again is granted more than that |
| RateLimiting.GrantsBoundedExactly | internal/auth/rate_limiter.go:26-254 | with a positive time to live the bound holds in all runs if and only if buckets refill from empty within it |
| RateLimiting.EvictionsDoNotShow | internal/auth/rate_limiter.go:240-254 | if idle buckets refill within the time to live, leaving out all evictions changes no answer |
| RateLimiting.EvictionExactly | internal/auth/rate_limiter.go:240-254 | eviction can never be noticed if and only if both kinds of bucket refill from empty within the time to live |
| DeadLetters.ReplaySplitsStably | internal/consumer/consumer.go:211-235 | a replay takes exactly the first so many matching entries, and what it takes and leaves interleave to the old queue |
| DeadLetters.ReplayTakesItsOwn | internal/consumer/consumer.go:211-235 | a replay takes entries of its group, and topic if given, only, and unless it stops at the limit leaves none of them |
| DeadLetters.PurgeLeavesOthers | internal/consumer/consumer.go:238-259 | a purge leaves exactly the entries of another group than the one given, if any, or of another topic than the one given, if any |
| DeadLetters.PushesKeepNewest | internal/consumer/consumer.go:161-169 | any number of pushes leave the newest entries, at most the maximum |
| DeadLetters.DeadLetterQueue.Push | internal/consumer/consumer.go:161-169 | a full queue drops its oldest entry; the queue never exceeds its maximum |
| DeadLetters.DeadLetterQueue.FilterInPlace | internal/consumer/consumer.go:217-233 | filtering over the same array, the writer never past the reader, yields the split |
| DeadLetters.DeadLetterQueue.Replay | internal/consumer/consumer.go:211-235 | the queue method computes the split, ten entries by default |
| DeadLetters.DeadLetterQueue.Purge | internal/consumer/consumer.go:238-259 | exactly those entries stay, the others are counted |
| Rebalancing.DealtExactly | internal/consumer/consumer.go:450-455 | a position gets exactly the partitions congruent to it, once each and in order |
| Rebalancing.DealtLoad | internal/consumer/consumer.go:450-455 | its load is the quotient, plus one for the first few positions |
| Rebalancing.RebalanceIsFair | internal/consumer/consumer.go:432-459 | every partition has exactly one owner and loads differ by at most one |
| Rebalancing.SortedListingIsUnique | internal/consumer/consumer.go:443-448 | a set of ids has one sorted listing |
| ConsumerGroups.SameMembersSameAssignment | internal/consumer/consumer.go:341-374 | groups with the same members have the same assignment, whatever the order of joins and leaves |
| ConsumerGroups.Group.Rebalance | internal/consumer/consumer.go:432-459 | every consumer then holds what the deal gives it |
| ConsumerGroups.Group.Join | internal/consumer/consumer.go:341-361 | a new id joins and the group is rebalanced; a known id is refused |
| ConsumerGroups.Group.Leave | internal/consumer/consumer.go:364-374 | the id leaves, its pull channel is closed and the group is rebalanced |
| ConsumerGroups.Consumer.Send | internal/consumer/consumer.go:107-126 | a message goes to the push channel if there is one, else to the pull channel, exactly when that has room; a send into the closed pull channel panics |
| ConsumerGroups.Consumer.AttachSink | internal/consumer/consumer.go:70-77 | the first sink makes a push channel, later ones change nothing |
| Inboxes.DeliverHandsOn | internal/consumer/consumer.go:107-126 | a send hands on exactly its message exactly when it reports success, and panics exactly without a push channel on a closed pull channel |
| Inboxes.RefusedExactly | internal/consumer/consumer.go:107-126 | a send finds no room if and only if the channel it goes to is full of unread messages |
| Inboxes.RetriesPanicExactly | internal/consumer/consumer.go:471-489 | whatever happens to the consumer between retries, they panic if and only if one of them, all before it having found no room, comes after the consumer left without a push channel |
| ConsumerGroups.Group.HandleSlowConsumer | internal/consumer/consumer.go:471-489 | with reads, other sends, sinks and the leave happening between retries the consumer ends as the retries make it; the message is in the dead-letter queue exactly if all of them found no room |
| ConsumerGroups.Group.Dispatch | internal/consumer/consumer.go:379-402 | a message for an owned partition is offered to the owner and then retried: delivered, in the dead-letter queue, or stopped by a panic; no other consumer is touched, and any other message changes nothing |
| DispatchRuns.EveryMessageIsSomewhere | internal/consumer/consumer.go:341-489 | in every run of interleaved offers, retries, reads, joins, leaves and sinks a message offered while its partition had an owner is in exactly one place once: handed to that owner, given up, or being retried for it; nobody else gets it |
| DispatchRuns.DealtIsOwned | internal/consumer/consumer.go:341-459 | in every run a member is assigned exactly the partitions it owns |
| DispatchRuns.QueueHoldsNewest | internal/consumer/consumer.go:471-489 | in every run the dead-letter queue holds the newest of the messages given up, at most its size |
| DispatchRuns.NothingOverflows | internal/consumer/consumer.go:341-489 | in every run no channel ever holds more unread messages than its size, which is 512 for a push channel |
| DispatchRuns.GivenUpAfterAllRetries | internal/consumer/consumer.go:471-489 | in every run a message is given up only after exactly the configured number of retries, none if that is negative |
| DispatchRuns.PanicsExactly | internal/consumer/consumer.go:107-489 | a run panics at a step if and only if that is a retry that saw no push channel, for a consumer that has left |
| DispatchRuns.LeavingPanics | internal/consumer/consumer.go:364-489 | a run in which a consumer leaves while a message for it is being retried, and the retry panics |
| DispatchRuns.LateSinkPanics | internal/consumer/consumer.go:70-126 | the same with a sink set after the retry looked and before the consumer left: the retry still panics |
| DispatchRuns.DepartedStillReceives | internal/consumer/consumer.go:70-126 | the same with a push channel: the message is handed to a consumer that has left |
| DispatchRuns.SafeGroupsExactly | internal/consumer/consumer.go:379-489 | no run of a group panics if and only if it has no partitions or makes no retries |

## Left out

- Raft leader completeness is not stated by itself; commit safety, which it is there for, is decided for every cluster size by RaftDoubleCommit.CommitSafetyExactly.
- RaftNode.Node.Propose: the lock is released after the append, so the send and the commit that follow are steps of their own; waiting for the commit, with its channel and its context, is not modelled.
- RaftNode.Node.HandleElectionTimeout: the log for the ballots is read after the lock is released (`internal/cluster/raft/election.go:28-36`); the model reads it in the same step.
- Raft election timers, failures of the persistent store, and overflow of 64-bit terms and indices.
- The Bully election (`internal/cluster/election.go`), in-sync-replica timing and quorum waits, and `internal/replication/manager.go`.
- The choice of partition for messages without a key on topics with several partitions: it is made twice, so the publish protocol is modelled for messages whose partition is fixed.
- CrashReplay.CrashReplayIsExact: appends succeed and only publish handlers write; requests for missing topics, which carry no target, are not modelled. Runs with appends that do not happen are covered by CrashReplay.OneMessagePerTarget.
- OffsetWal.CheckpointsAreTransparent: commits and checkpoints are single steps. What a commit inside a checkpoint does is stated by OffsetWal.RacingCommitIsForgotten, what a crash inside one leaves by Wal.SurvivorsAreKept; acknowledgements that reach only the in-memory store are not modelled.
- OffsetWal.ScanInt32: blanks other than the space are not skipped.
- WAL payloads and record payloads of 2^32 bytes or more, keys of 2^16 bytes or more, and files of 2^63 bytes or more.
- Segments.Segment.Open: version-1 files and torn tails of log files are not modelled; recovery does not cut such a tail off.
- Segments.Segment.Rewrite: failures to reopen the files after the renames are not modelled.
- I/O errors other than those of a rewrite.
- Decompression and the inner encoding of payloads: a record carries its stored bytes; which records are tombstones is a parameter.
- KeyCompaction.KeyCompactor.CompactPartition: failures to reopen files are not modelled, and scans do not fail.
- StorageRuns.RunsPreserveMeaning: retention deletes data by age and size and is therefore excluded; it does not run while a sweep is under way. Rewrites within a run do not fail at a rename.
- Segment sizes of at most five bytes: a new segment would then reuse a file name.
- RateLimiting.GrantsAreBounded: requires a run without evictions or buckets that refill in time, which RateLimiting.GrantsBoundedExactly proves to be the exact condition. Tokens are reals, so the rounding of floating point is not modelled; the clock never runs backwards; limits do not change within a run.
- PartitionLogs.PartitionLog.Compact: overflow of the hours in nanoseconds and of the megabytes in bytes is not modelled.
- RateLimiting.ConfiguredBurst: overflow of rate times multiplier is not modelled.
- ConsumerGroups.Group.Dispatch: what else happens between retries is a parameter and concerns the chosen consumer; whole groups with several dispatches at once are DispatchRuns. A group always has a dead-letter queue.
- ConsumerGroups.Consumer.Send: looking for the push channel and sending are one step; DispatchRuns has them apart for retries. For the first offer, made under the lock, they are one step there too.
- Consumer channels of size zero, on which a send succeeds only while a reader waits.
- Dead-letter listing, lookup and single deletion, and the publishing side of a dead-letter replay.
- Dedup.Producer.DoPublish: the method runs by itself; publishes in parallel are PublishRuns. The other delivery modes, compression and retries with back-off are left out; an append that finally fails changes nothing.
- PublishRuns.RunsAreExactlyOnce: the two reads of a lookup, of the window and of the store, are one step.
- Networking, gateway, dashboard, TLS, sessions, access control, configuration, logging, tracing, metrics, command line and client libraries: input and output, or single-branch logic.
