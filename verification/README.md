# NotAHiveMind, verified

A Dafny 4.11 model of three cooperating cores of NotAHiveMind, a masterless cluster manager, with proofs of what they
keep, achieve, and fail to achieve. The code is modelled as it is written. Where it falls short of a property, the
property is proved to hold under an exact condition, with a run or an input that shows it fail otherwise.

**The Raft layer** (`RaftNode`, `Election`, `Terms`, `ElectionDeadlock`, `LeaderRecovery`, `LeaderLease`, `CatchUp`,
`SnapshotTransfer`, `ClaimGuard`, `ClaimQueue`). The handlers of a node are functions on its state, and methods on a
node object that are proved to do what the functions say. A cluster is any number of such nodes and a network in which
every message ever sent may arrive at any time, any number of times, or never. Elections follow section 5.2 and section
5.4.1 of the extended version of the Raft paper (Ongaro and Ousterhout), with the pre-vote of section 9.6 of Ongaro's
thesis. Membership is fixed, no node restarts, and logs start empty.

**The log store** (`Codec`, `LogStore`, `CompactionRuns`, `ClusterRecovery`, `Compactor`, `Payloads`). Files are byte
sequences, a data directory is a map from (term, index) names to files, and a JSON parser is a parameter. The
length-prefixed codec, the in-memory slice with its index and term boundary, the write-ahead file, two-phase compaction,
snapshot installation and reload are one object.

**The job queues** (`ArbiterQueue`, `QueueObservations`, `WorkerJobs`, `RacingPackers`, `SchedulerState`, `BatchPacker`,
`PackerChoices`, `PackerWorkers`). A lazily sorted, lazily cleaned queue; the worker's pending and active jobs on top of
it; the scheduler's job life cycle on top of it; and the batch packer, with its concurrent workers, that places jobs on
clusters, dispatches them, or sheds them to peers.

What the code does against its evident intent:

- `internal/consensus/service/append.go:50` clears the vote on equal terms too, although its comment speaks of higher
  ones. Two leaders of one term are reachable in every cluster of three or more (`Election.ElectionSafetyExact`).
- `internal/consensus/service/election.go:208` counts pre-votes for followers only, so a failed candidate cannot try
  again. A cluster can come to a state from which there is never a leader again (`ElectionDeadlock`): two nodes that
  campaign at the same time are enough, and so is a candidate with a follower that has kept a vote for itself, because
  `internal/consensus/service/add.go:393-404` steps down without clearing it (`LeaderRecovery`).
- `internal/consensus/filesystem/writer.go:85-89` leaves the tip of an emptied log as it was. A reload resets it; until
  then the log refuses the entry that it was truncated for.
- `internal/consensus/service/add.go:319-348` never sends a chunk of an empty snapshot file, and the catch-up loop goes
  on as if it had; a peer below the boundary then loops forever.
- `internal/consensus/filesystem/interpreter.go:58` adds lengths in 16 bits, so that entries with ids of 65514 to 65535
  bytes make the decoder panic.
- `internal/consensus/service/serve.go:44-64` queues a submission only after checking it, so that the same claim can
  pass the check twice, and whatever can be repeated at all can come to be (`ClaimQueue.QueuedNeverRepeatExactly`). And
  `internal/consensus/filesystem/reader.go:32-70` reads other documents than the check does
  (`ClaimGuard.DocumentsNeverRepeatExactly`).
- `internal/consensus/filesystem/snapshot.go:174-186` mounts a snapshot without renaming the log file, so that a restart
  before the next compaction forgets the snapshot's boundary (`LogStore.ReloadForgetsInstallation`).
- `internal/arbiter/packer.go:48-53` does not refresh the slice on an overwrite, nor look for a copy left by a removal.
- `internal/scheduler/states/state.go:102-118` assigns completed jobs, so that a completion reported in the middle of a
  dispatch can be overwritten (`BatchPacker.FateAmidReportsExactly`).
- `internal/scheduler/packer/operations.go:118-119` reads the shedding counter and adds to it in two steps
  (`PackerWorkers.QuotaOvershotExactly`).
- `internal/scheduler/packer/operations.go:189` takes a peer without a connection for one that has accepted the job.
- `cmd/cluster_node/main.go:161` starts every `PackNextJob` in a goroutine of its own, so that usage is read and acted
  on in two steps, and two ticks can take more than the machine has (`RacingPackers.CapacityExactly`).

`dafny verify dfyconfig.toml` checks the whole project.

## Model

| member | source | states |
|---|---|---|
| Election.ElectionSafetyExact | internal/consensus/service/election.go:16-177 | for any number of nodes: no run elects two leaders in one term if and only if the vote is cleared on higher terms only, or, as coded, the cluster has at most two nodes |
| Election.InvMeansOneLeader | internal/consensus/service/election.go:179-222 | two majorities of one term share a voter who has voted once, so the invariant allows one winner per term |
| Election.StepKeepsVoteInv | internal/consensus/service/election.go:16-222 | every step of the cluster (ballots, counts, campaigns, wins, term adoption by any message, compaction) keeps the voting invariant |
| Election.RunKeepsVoteInv | internal/consensus/service/election.go:16-222 | so does every run from the initial cluster, for every policy and size that is safe |
| Election.ForgottenVoteWasTheSame | internal/consensus/service/append.go:44-54 | with two nodes, a vote that a heartbeat has wiped cannot have been for anyone but the node that asks again |
| Election.HeartbeatWipesVotes | internal/consensus/service/append.go:44-54 | as coded, the elected leader's first heartbeat makes all its supporters forget their votes of that term, in any cluster of three or more |
| Election.RivalAlsoWins | internal/consensus/service/election.go:165-176 | and the rival then collects a majority of the same term: the run with two leaders |
| Election.RivalsReachable | internal/consensus/service/election.go:138-165 | any cluster of three or more reaches a state with two candidates of term 1, both past their pre-votes |
| RaftNode.GossipChangesNothing | internal/consensus/service/election.go:20-71 | a pre-vote request changes neither term, vote, role nor log of the voter |
| RaftNode.VoteIsSound | internal/consensus/service/election.go:53-83 | a formal vote goes only to a candidate whose log is not behind, and is remembered in the candidate's term |
| RaftNode.SecondVoteIsTheSame | internal/consensus/service/election.go:57-83 | with nothing in between, a second vote of one term can only be for the same candidate |
| RaftNode.VoteForgottenExactly | internal/consensus/service/append.go:37-54 | AppendEntries drops a vote of the current term exactly when, as coded, an equal-term message meets a node that has voted |
| RaftNode.PreVoteExactly | internal/consensus/service/election.go:20-71 | a pre-vote is granted if and only if its term is not behind, its log is not behind, and the voter knows no leader, or is none itself and its election timer has run out |
| RaftNode.FormalVoteExactly | internal/consensus/service/election.go:25-83 | a formal vote is granted if and only if the log is not behind and the term is higher, or the same at a follower that has voted for nobody else; a known leader and the timer play no part |
| RaftNode.LeaderLearntExactly | internal/consensus/service/append.go:37-61 | an AppendEntries that is not behind teaches a follower who leads, and a candidate or leader only that it is neither |
| RaftNode.EntryAcceptedExactly | internal/consensus/service/append.go:79-112 | what becomes of any entry at a contiguous log: appended, refused, answered with a demand for a snapshot, or put in place of everything from its index on, except at the first retained index |
| RaftNode.AppendAnswersExactly | internal/consensus/service/append.go:15-113 | status, reported term and reported tip of every answer, with the previous entry compared at the tip only |
| RaftNode.ChunkAnswersExactly | internal/consensus/service/serve.go:175-206 | what every chunk does to role, term, vote, known leader and log, and what it answers |
| RaftNode.SubmissionIsAppended | internal/consensus/service/add.go:29-47 | what a client submits is what the leader appends, behind everything else and in its own term |
| Election.QuorumIsMoreThanHalf | internal/consensus/service/election.go:118-176 | a round is won if and only if more than half of the nodes are for it, the one that asks included |
| Election.LoneNodeElectsItself | internal/consensus/service/election.go:93-177 | a node without peers leads in the next term as soon as its timer runs out |
| LeaderLease.FollowedLeaderStays | internal/consensus/service/election.go:20-71 | in every run, under either policy and for any number of nodes: a leader that at least half of the nodes follow stays the leader and no term is entered, whatever the others try, as long as none of those that follow it runs out of patience and no ballot of its own election is delivered to them again |
| LeaderLease.LeaseStarvesPreVote | internal/consensus/service/election.go:45-51 | in every run, no pre-vote round gets a majority to which at least half of the nodes are only asked while they know a leader and their timers have not run out |
| LeaderLease.FollowedLeaderReachable | internal/consensus/service/election.go:93-177 | any cluster of two or more gets to such a leader by one election and one heartbeat |
| LeaderLease.StepStaysSteady | internal/consensus/service/election.go:16-222 | every undisturbed step keeps it |
| RaftNode.Node.RequestVote | internal/consensus/service/election.go:16-90 | the handler on the node's fields does what the cluster model's vote step does, in all its refusals |
| RaftNode.Node.AppendEntries | internal/consensus/service/append.go:15-113 | the handler adopts terms, checks the previous entry at the tip only, appends, truncates and answers as the cluster model's step does |
| RaftNode.Node.Accept | internal/consensus/service/append.go:79-112 | append, or truncate and append again, or ask for a snapshot, with the status that goes with it |
| RaftNode.Node.InstallSnapshot | internal/consensus/service/serve.go:175-206 | adopts the term and the leader before it stores the chunk, and fails only for a later chunk of a transfer that never began |
| RaftNode.Node.StepDownIfBehind | internal/consensus/service/add.go:393-404 | steps down, keeping its vote, exactly for a higher term |
| RaftNode.Node.BeginPreVote | internal/consensus/service/election.go:93-115 | a leader does nothing; anyone else forgets the leader and asks for the next term without entering it |
| RaftNode.Node.BeginCampaign | internal/consensus/service/election.go:146-163 | enters the next term, voting for itself, exactly if it is no leader and its term has not moved since the pre-vote |
| RaftNode.Node.BecomeLeader | internal/consensus/service/election.go:165-176 | takes office exactly as a candidate of the term it asked for |
| RaftNode.Node.AppendLocally | internal/consensus/service/add.go:21-47 | the leader appends at the next index in its own term; nobody else appends |
| ElectionDeadlock.CandidateCollectsNoPreVotes | internal/consensus/service/election.go:203-216 | whatever the peers answer, a node that is still a candidate counts no pre-vote |
| ElectionDeadlock.DeadlockIsForever | internal/consensus/service/election.go:93-222 | for any number of nodes: once all are in one term without a leader, with no snapshot transfer open, no follower whose pre-vote a majority would grant, no round within reach of a majority and no message of a leader of that term or from a later one, no continuation of any kind ever elects a leader |
| ElectionDeadlock.TwoNodesDeadlock | internal/consensus/service/election.go:138-176 | a cluster of two reaches such a state from its initial one, by both nodes campaigning at the same time |
| LeaderRecovery.LeaderPossibleExactly | internal/consensus/service/election.go:16-222 | in every run of two nodes, as long as no snapshot has been sent and none is being sent: a leader exists or can still be elected if and only if the cluster is not deadlocked |
| LeaderRecovery.FollowerDeadlockReachable | internal/consensus/service/add.go:393-404 | not only two candidates can be stuck: a run of two nodes ends with a candidate and a follower that still holds the vote it once gave itself, because stepping down for a higher term keeps it, and there is never a leader again |
| LeaderRecovery.StaleVoteDeadlocks | internal/consensus/service/add.go:393-404 | any reachable pair of that shape is deadlocked: the follower, whose log is behind, can neither ask nor vote |
| LeaderRecovery.AheadWins | internal/consensus/service/election.go:16-177 | a candidate that is ahead in terms brings about a leader: it is voted for, or makes the other node a follower of its term whose log is ahead and who then wins |
| LeaderRecovery.FollowerWins | internal/consensus/service/election.go:93-177 | a follower whose log and term are not behind those of the other, leaderless node can be elected |
| LeaderRecovery.StepKeepsLively | internal/consensus/service/election.go:16-222 | every step of two nodes without snapshots keeps that a follower has heard of its term from the other, a candidate has its ballot under way, the winner of the current term leads it, and no message is ahead of its sender |
| ElectionDeadlock.StepKeepsDeadlock | internal/consensus/service/election.go:16-222 | no step of the cluster leads out of a deadlock, nor adds to the leaders it has had |
| Terms.TermProvenance | internal/consensus/service/election.go:93-177 | in every run, every term in a node, log, boundary or message, other than a pre-vote's hypothetical one, was entered by a node that had won a pre-vote majority in the term before it |
| Terms.LogTermsOrdered | internal/consensus/service/append.go:37-112 | in every run, log terms never fall with the index, never exceed the node's term, and bound what the node may still accept |
| Terms.StepKeepsTerms | internal/consensus/service/append.go:37-112 | each step keeps all terms within a given set and all logs ordered, if the term it enters, if any, is in the set |
| Terms.NewTermIsEntered | internal/consensus/service/election.go:146-153 | the only steps that bring a new term into the cluster are campaigns backed by a pre-vote majority |
| Terms.EnteredTermsGrow | internal/consensus/service/election.go:179-222 | a term once entered stays entered: rounds keep their askers and only gain supporters |
| Terms.AppendEntriesKeepsTerms | internal/consensus/service/append.go:15-113 | term adoption, truncation and append together keep one node's log ordered and bounded by its term |
| Terms.RotateKeepsLogOk | internal/consensus/filesystem/snapshot.go:62-100 | rotation keeps the order, whatever was appended since the cut was captured |
| CatchUp.CatchUpConvergesExactly | internal/consensus/service/add.go:176-298 | with the leader's log fixed and current and the follower's a prefix of it, some number of iterations makes the logs equal if and only if a condition holds that can be read off both logs and the snapshot file beforehand |
| CatchUp.SnapshotAlwaysConverges | internal/consensus/service/add.go:216-225 | a leader that has compacted and has a snapshot file that is not empty always catches its follower up |
| CatchUp.EmptySnapshotNeverConverges | internal/consensus/service/add.go:216-225 | with an empty snapshot file, a follower that ends below the boundary is never caught up |
| CatchUp.ConvergesWithOneJump | internal/consensus/service/add.go:283-290 | a catch-up that converges goes backwards at most once |
| CatchUp.TargetStaysPositive | internal/consensus/service/add.go:176-298 | whatever the logs, the loop begins one before the index that failed and never asks for an index below 1 |
| CatchUp.HigherTermEndsCatchUp | internal/consensus/service/add.go:262-296 | a peer in a higher term deposes the leader with its first answer and is left as it was; a node that leads no more gives up without asking |
| CatchUp.AlignedConverges | internal/consensus/service/add.go:227-276 | from the entry after the peer's last one on, it takes one iteration per missing entry |
| CatchUp.ProbePastTheEnd | internal/consensus/service/add.go:277-290 | a probe beyond the peer's log jumps straight to its end and changes nothing there |
| CatchUp.ProbeInside | internal/consensus/service/append.go:91-112 | a probe inside the peer's log makes it cut there and take the entry again |
| CatchUp.ProbeEmpties | internal/consensus/filesystem/writer.go:85-89 | a probe at the peer's first retained entry empties it and leaves a tip that refuses the entry |
| CatchUp.BehindForever | internal/consensus/service/add.go:216-225 | the endless loop of a peer below the boundary without a snapshot to send |
| CatchUp.StrandedForever | internal/consensus/filesystem/writer.go:85-89 | the endless loop, or the early end, of a peer that has been emptied |
| CatchUp.RequestCarriesTheEntry | internal/consensus/service/add.go:227-260 | the request built from the window of the log carries the target entry, its index and the term of the entry before it |
| CatchUp.ResolvePeerLag | internal/consensus/service/add.go:176-298 | the loop on two node objects does what the iterated step function does, for any number of iterations before it is cut off |
| CatchUp.StreamSnapshot | internal/consensus/service/add.go:301-360 | the chunk loop on two node objects, including a higher term at the peer and a peer that was campaigning |
| CatchUp.ProbePeer | internal/consensus/service/add.go:227-296 | one call of the loop and what its answer does to the target |
| CatchUp.BuildRequest | internal/consensus/service/add.go:227-260 | the loop over the window finds what the specification finds |
| SnapshotTransfer.TransferIsLossless | internal/consensus/service/add.go:301-360 | after any number of abandoned transfers, one complete transfer leaves active.log byte-equal to the source and the log at the boundary; an empty file is never sent at all |
| SnapshotTransfer.DoneOnceAndLast | internal/consensus/service/add.go:319-348 | done is sent on the last chunk of a complete transfer, and on no other |
| Election.ChunkSaysExactly | internal/consensus/service/add.go:301-348 | a chunk says the boundary read when its transfer began, and the term its sender is in by now |
| SnapshotTransfer.PartialTransfer | internal/consensus/filesystem/snapshot.go:124-152 | any abandoned transfer that has begun leaves exactly the bytes sent so far in the temporary file |
| SnapshotTransfer.SendSnapshotToPeer | internal/consensus/service/add.go:301-360 | whatever the read sizes and wherever it stops, what it has sent is a prefix of the file in order, and all of it if it succeeds |
| Codec.StreamRoundTripExact | internal/consensus/filesystem/interpreter.go:21-158 | the stream round trip, list and total size, holds for exactly the encodable entries: ids up to 65513 bytes, frames below 2^32 |
| Codec.StreamRoundTrip | internal/consensus/filesystem/interpreter.go:125-158 | reading concatenated encodings yields the entries and the total size |
| Codec.CutDetection | internal/consensus/filesystem/interpreter.go:125-158 | a stream cut at any byte yields the prefix if the cut is an entry boundary, and an error otherwise |
| Codec.ReadAllYieldsEncodable | internal/consensus/filesystem/interpreter.go:125-158 | whatever bytes are read without error are the encoding of entries that can be encoded |
| Codec.LongIdPanics | internal/consensus/filesystem/interpreter.go:57-61 | an id of 65514 to 65535 bytes, whatever else the entry holds, makes the 16-bit sum of lengths wrap around, passes the check, and makes the decoder slice out of range |
| Codec.DecodeEncode | internal/consensus/filesystem/interpreter.go:21-75 | decoding one encoded entry gives it back |
| Codec.FrameLayout | internal/consensus/filesystem/interpreter.go:22-39 | every byte of a frame: length, index and term as 64-bit two's complement, id length, all with their least significant byte first, then id and payload |
| Codec.EncodeLogEntry | internal/consensus/filesystem/interpreter.go:22-39 | the buffer filled in place holds the encoding |
| Codec.ReadLogEntries | internal/consensus/filesystem/interpreter.go:125-158 | the read loop gives what the recursive reader gives, errors and panics included |
| LogStore.RecoveryRefinement | internal/consensus/filesystem/entry.go:11-158 | after any allowed run of appends, truncations, compactions and snapshot installations, the active file is the encoding of the entries, currentSize its length, and a reload gives back the same entries and file; the whole state, if and only if no truncation from the first retained index stands, without an append accepted or a snapshot installed since, and no installation away from the boundary of the file, without a compaction completed or a snapshot installed since |
| LogStore.StepStaleExactly | internal/consensus/filesystem/writer.go:46-92 | per operation: the tip is stale afterwards if and only if this truncation is from the first retained index of a log that is not empty, or it was stale before and this is no accepted append and no installation |
| LogStore.ReloadForgetsInstallation | internal/consensus/filesystem/snapshot.go:154-186 | a node that has installed a snapshot and then restarts reports an empty log at the old boundary |
| LogStore.RunKeepsInv | internal/consensus/filesystem/snapshot.go:11-100 | every allowed run keeps indices and terms ordered, the file in step, and its name the newest in the directory |
| LogStore.StepStaysWholeExactly | internal/consensus/filesystem/snapshot.go:11-100 | an operation keeps the log contiguous and a pending cut inside it if and only if it is no truncation to the first index or a pending cut, and no installation away from a pending cut |
| LogStore.RunStaysWhole | internal/consensus/filesystem/snapshot.go:11-100 | so does any run of such operations, with any number of appends between the two phases of a compaction |
| LogStore.TruncateKeepsContiguousExactly | internal/consensus/filesystem/writer.go:46-92 | truncation cuts a contiguous log back to the index before, except when it empties it |
| LogStore.EmptyingTruncationStrandsTheLog | internal/consensus/filesystem/writer.go:85-89 | a log emptied by truncation keeps reporting its old tip and refuses the entry it made room for |
| LogStore.RotateKeepsContiguousExactly | internal/consensus/filesystem/snapshot.go:62-100 | rotation keeps the log contiguous exactly when the cut still lies inside it |
| LogStore.EntriesExact | internal/consensus/filesystem/reader.go:6-29 | Entries(a, b) is exactly the retained entries with a <= index < b, in order |
| LogStore.ReloadsActiveExactly | internal/consensus/filesystem/entry.go:118-158 | a reload opens the active file exactly when no file name is newer |
| LogStore.FallingTermLosesEntries | internal/consensus/filesystem/entry.go:134-144 | if terms could fall, a reload would pick an older file and lose an acknowledged entry |
| CompactionRuns.CompactionLeavesWhatCameSince | internal/consensus/filesystem/snapshot.go:11-100 | from any state of any allowed run with retained entries and no compaction under way: capture, any appends, rotation leave in memory and file exactly what was appended since the capture, behind the tip as it was then, with what was kept in active.log; and a reload gives all of it back |
| CompactionRuns.NoLogFileIsLoadedAs | internal/consensus/filesystem/entry.go:55-103 | a directory without log files is loaded as an empty log behind the last entry of the snapshot, in a new file named after it; a snapshot that cannot be read counts as empty |
| CompactionRuns.SnapshotAloneIsLoadedAs | internal/consensus/filesystem/entry.go:55-103 | so the snapshot that a compaction has written sets index and term |
| CompactionRuns.LogFileIsLoadedAs | internal/consensus/filesystem/entry.go:11-103 | with log files, the one of the greatest name is loaded whole, with its name as the boundary, and not at all if it was cut within a frame; the snapshot matters only if it makes the decoder panic |
| CompactionRuns.WriteAtExactly | internal/consensus/filesystem/snapshot.go:124-152 | byte by byte, with zeros in a gap |
| CompactionRuns.ChunkIsInstalledExactly | internal/consensus/filesystem/snapshot.go:124-189 | a chunk fails if and only if it is not the first and there is no temporary file; only the last one replaces snapshot and log |
| ClusterRecovery.ClusterRecovery | internal/consensus/filesystem/entry.go:11-158 | in every run of the cluster, under either policy: a node that appends only entries the codec carries, whose truncations spare a captured cut, and which installs snapshots between compactions and not below the boundary of its file, gets its entries back on a reload; the whole log exactly when nothing has emptied it since it last grew and no snapshot was installed since its last compaction |
| ClusterRecovery.NodeOpsAllowed | internal/consensus/service/append.go:37-112 | what a node does to its log in a run of the cluster is a run of the log store with the same result, and the protocol delivers the term order that recovery asks for |
| LogStore.Handler.Append | internal/consensus/filesystem/writer.go:10-43 | memory, file, size and tip move together; the compaction signal is raised at the size limit |
| LogStore.Handler.TruncateLog | internal/consensus/filesystem/writer.go:46-92 | memory and file are cut together and the file is rewritten |
| LogStore.Handler.CaptureSnapshot | internal/consensus/filesystem/snapshot.go:16-25 | the first phase captures index and term of the last retained entry, if there is one |
| LogStore.Handler.FinishSnapshot | internal/consensus/filesystem/snapshot.go:27-56 | active.log is rewritten and the new log file takes over with what was appended meanwhile |
| LogStore.Handler.RotateFile | internal/consensus/filesystem/snapshot.go:62-100 | the swap under the lock, with the entries beyond the cut written behind what the file already held |
| LogStore.Handler.InstallSnapshot | internal/consensus/filesystem/snapshot.go:125-189 | chunk assembly, failing for a later chunk without a temporary file, and the mounting of the last one |
| LogStore.Handler.Entries | internal/consensus/filesystem/reader.go:6-29 | the clamped slice |
| LogStore.FindLatestLog | internal/consensus/filesystem/entry.go:118-158 | the greatest (term, index) name, in whatever order the directory is listed |
| LogStore.LoadStorage | internal/consensus/filesystem/entry.go:11-103 | the handler that a directory is loaded as, or none |
| Compactor.CompactionExact | internal/consensus/filesystem/interpreter.go:78-123 | compaction keeps exactly the unreadable entries and the latest state of each unfinished id, if and only if no keys clash |
| Compactor.KeptOnlyIfDue | internal/consensus/filesystem/interpreter.go:78-123 | on any log, nothing else is kept |
| Compactor.DocumentsKeptExactly | internal/consensus/filesystem/interpreter.go:78-123 | read off the documents: where no keys clash, a position is kept if and only if its document cannot be read, or is the latest with a state of a job of which no document says 2 or 3, completed or failed |
| Compactor.RawKeyIsDecimal | internal/consensus/filesystem/interpreter.go:85-89 | the key of an unreadable entry is raw- and its index in decimal |
| Compactor.CompactionComposes | internal/consensus/filesystem/interpreter.go:78-123 | on any log: compacting a compacted prefix, in whatever order the map yielded it, together with the rest keeps what compacting the whole keeps, if and only if no key resurfaces: one of which the first compaction left no trace, and which the rest uses without finishing it again, or finishes again although the prefix had an unreadable entry of that name |
| Compactor.OnlyRevivedJobsDiffer | internal/consensus/filesystem/interpreter.go:78-123 | where no job is named like an unreadable entry: if and only if no finished id comes back to life in the rest |
| Compactor.ForgottenNamesakeResurfaces | internal/consensus/filesystem/interpreter.go:85-89 | with such a namesake they can differ although no finished id comes back: the log that shows it |
| Compactor.CompactionIsIdempotent | internal/consensus/filesystem/interpreter.go:78-123 | compacting a compacted log, in whatever order the map yielded it, keeps all of it |
| Compactor.NamesakeLosesItsState | internal/consensus/filesystem/interpreter.go:85-89 | a job whose id looks like an unreadable entry's key loses its state |
| Compactor.RawKeysDiffer | internal/consensus/filesystem/interpreter.go:85-89 | unreadable entries of different indices never share a key |
| Compactor.CreateSnapshot | internal/consensus/filesystem/interpreter.go:78-123 | the backward scan over the map and the excluded ids keeps what the specification keeps, each position once; and, read off the documents, what is worth keeping |
| ClaimGuard.DocumentsNeverRepeatExactly | internal/consensus/service/serve.go:90-147 | with check and append as one step: no run of submissions from a class of documents, through rotations and truncations, ever puts two neighbouring entries about one id with the same non-negative state, or the same cascading event within five seconds, into the retained log, if and only if every document that could be repeated is readable for the log search and the search reads none of its id that the guard cannot |
| ClaimGuard.NoRunRepeatsExactly | internal/consensus/service/serve.go:90-147 | a run stays free of repeats throughout if and only if no submission that repeats the latest entry about its id finds that entry overlooked by the search |
| ClaimGuard.RedundantPassesExactly | internal/consensus/service/serve.go:90-147 | on any log, a submission that repeats the latest entry about its id is let through if and only if the search finds nothing for the id, a later entry that the guard cannot read, or an earlier one that is not repeated |
| ClaimGuard.GuardIsExact | internal/consensus/service/serve.go:90-147 | what is let through makes a repeat if and only if it is redundant and overlooked; where the search finds the latest entry about the id, exactly the repeats are turned away |
| ClaimGuard.PlainRunsNeverRepeat | internal/consensus/service/serve.go:90-147 | when every document submitted is readable for the guard exactly when it is for the search, the log never holds a repeat, and the guard turns away exactly what would make one |
| ClaimGuard.HiddenClaimRepeats | internal/consensus/filesystem/reader.go:32-70 | a document that only the search can read, as one with a textual timestamp, hides a claim, and the same claim is accepted again |
| ClaimGuard.ResubmissionCaughtExactly | internal/consensus/service/serve.go:90-147 | on any log: what has just been accepted and is submitted again is turned away if and only if the search can read it; for cascading events, if and only if the entry field is a string |
| ClaimGuard.ClaimForgottenAfterRotation | internal/consensus/service/serve.go:111-120 | a claim that compaction has taken out of the retained log is accepted again |
| ClaimGuard.ConcurrentChecksRepeat | internal/consensus/service/serve.go:44-77 | two submissions of one claim that are both checked before either is appended are both accepted, and make a repeat |
| ClaimQueue.QueuedNeverRepeatExactly | internal/consensus/service/serve.go:44-77 | in every run of submissions from a class of documents that are checked in one step and appended in a later one, with compactions and drops between: the log stays free of repeats if and only if no document of the class can be repeated at all; or only one submission is checked and waiting at a time, the search sees what can be repeated and nothing that hides it, and, where the log can also be cut, nothing else about the same id |
| ClaimQueue.LateAppendRepeatsExactly | internal/consensus/service/add.go:21-47 | a submission let through earlier and appended later makes a repeat if and only if it repeats the latest entry about its id of those that came in since; or none came in, and it repeats one that its check overlooked and that is still retained |
| ClaimQueue.NoLateRepeatsExactly | internal/consensus/service/add.go:21-47 | a run stays free of repeats throughout if and only if no append repeats the latest entry that is then in the log about its id |
| ClaimQueue.BothChecked | internal/consensus/service/serve.go:60-64 | any document that can be repeated is, when it is checked twice before it is appended |
| ClaimGuard.QueryEntries | internal/consensus/filesystem/reader.go:32-70 | the latest matching entry of each id, latest first; every result is readable, of the given scheduler and about the given id, no id comes twice, and every matching entry has a result at least as late |
| ClaimGuard.ConflictExactly | internal/consensus/service/serve.go:90-147 | on any log, field by field: a concurrent claim if and only if both the submission and the latest readable entry carry the same state, zero or more; otherwise a duplicate if and only if both name the same one of the four cascading events less than five seconds apart; otherwise no conflict |
| ClaimGuard.NoConflictOtherwise | internal/consensus/service/serve.go:98-119 | no conflict for what the guard cannot read, what has no identifier, and what the search finds nothing about |
| ClaimGuard.CheckCASConflict | internal/consensus/service/serve.go:90-147 | the method comes to that decision over what the search finds |
| Payloads.PeeksExactly | internal/consensus/service/serve.go:91-102 | which documents the file system layer and the guard can read, and where they differ |
| ArbiterQueue.RunRefines | internal/arbiter/packer.go:41-237 | over any run of tame pushes, removals, pops and clears, the lazy queue gives out what a plain list with an argmax gives out |
| ArbiterQueue.PopRefines | internal/arbiter/packer.go:152-211 | a pop takes the argmax of what fits, and nothing exactly when nothing fits |
| ArbiterQueue.BestIsBest | internal/arbiter/packer.go:150-178 | the argmax: nobody that fits outranks it, nor comes before it with the same rank |
| ArbiterQueue.PushStaysFaithfulExactly | internal/arbiter/packer.go:41-54 | a push keeps the queue faithful if and only if it re-pushes the same item or there is no forgotten copy of its id in the slice |
| QueueObservations.PushIsToldExactly | internal/arbiter/packer.go:41-54 | after a push, every sequence of pops gives out what the list with the pushed item gives out if and only if the push was tame, or brought back nothing but copies of that same item with nothing else pending |
| ArbiterQueue.RemoveRepresents | internal/arbiter/packer.go:98-106 | a lazy removal removes exactly that id |
| ArbiterQueue.StableSortIsUnique | internal/arbiter/packer.go:225-234 | any slice in order that keeps ties as they came is the one the specification gives, so it does not matter how the library sorts |
| ArbiterQueue.RemovedAndRepushedIsPoppedTwice | internal/arbiter/packer.go:98-106 | an item removed and pushed again before compaction is popped twice |
| ArbiterQueue.OverwrittenItemIsPoppedStale | internal/arbiter/packer.go:45-53 | an item pushed again with new data is popped with the old |
| ArbiterQueue.Queue.Push | internal/arbiter/packer.go:41-54 | the map is always overwritten, the slice only grows for a new id |
| ArbiterQueue.Queue.PushBatch | internal/arbiter/packer.go:59-75 | the same as pushing one by one |
| ArbiterQueue.Queue.RemoveByID | internal/arbiter/packer.go:98-106 | only the map is changed, and the queue marked dirty |
| ArbiterQueue.Queue.SortAndCompact | internal/arbiter/packer.go:216-237 | the slice becomes the stable sort of its live items |
| ArbiterQueue.Queue.PopBestFit | internal/arbiter/packer.go:152-178 | sort if dirty, then take the first fit out of map and slice |
| ArbiterQueue.Queue.PopBestFitHeuristic | internal/arbiter/packer.go:181-211 | the same with a filter |
| ArbiterQueue.Queue.Items | internal/arbiter/packer.go:139-148 | every item once, in whatever order the map yields them |
| WorkerJobs.NextBestIsBest | internal/cluster/scheduler/queue.go:218-257 | NextBestJob finds none exactly when nothing fits; otherwise a fitting job that no fitting job beats by priority, then a free image, then memory |
| WorkerJobs.NextBestKeepsInv | internal/cluster/scheduler/queue.go:218-257 | in spite of two pops and a push back, exactly the job it returns leaves the pending ones |
| WorkerJobs.NextBestActivates | internal/cluster/scheduler/queue.go:240-253 | the job it returns, which was not active, becomes active, and nothing else changes there |
| WorkerJobs.RunConserves | internal/cluster/scheduler/queue.go:33-164 | over any run of tame operations, every accepted job is pending, active, sent to Completed or removed on request, exactly once |
| WorkerJobs.StepConserves | internal/cluster/scheduler/queue.go:33-164 | so it is for every single operation |
| WorkerJobs.PendingAndActiveDisjoint | internal/cluster/scheduler/queue.go:33-164 | no id is pending and active at once |
| WorkerJobs.RefusedExactly | internal/cluster/scheduler/queue.go:33-143 | an active job is neither added again nor removed, only an active one completes or goes back, and what is refused changes nothing |
| WorkerJobs.AddKeepsQueueFaithfulExactly | internal/cluster/scheduler/queue.go:33-43 | an accepted job keeps the queue faithful if and only if its push is tame |
| WorkerJobs.AddedOnceIsTame | internal/cluster/scheduler/queue.go:33-143 | a run in which no id comes in twice is tame, through takes, roll-backs and clears |
| WorkerJobs.RunWithinLimits | internal/cluster/scheduler/packer.go:13-24 | as long as nothing becomes active between reading the usage and taking a job, active jobs never use more than the machine has |
| WorkerJobs.TakingIsSafeExactly | internal/cluster/scheduler/packer.go:13-24 | taking a job keeps the machine's limits, whatever is pending, if and only if the bounds that are passed in are no more than what is free at that moment, or one of them is negative |
| RacingPackers.CapacityExactly | cmd/cluster_node/main.go:150-170 | in every run, with reads of the usage and takes as separate steps of separate ticks: the active jobs stay within the machine's limits if and only if no two ticks are between their read and their take at once, or the machine has nothing |
| RacingPackers.RacingTakeIsSafeExactly | internal/cluster/scheduler/packer.go:13-24 | in every run, at every take from within the limits: they are kept, whatever is pending, if and only if the usage is no more than when that tick read it, or the tick had read that nothing was left |
| RacingPackers.StepKeepsRestraint | internal/cluster/scheduler/packer.go:13-24 | with one tick at a time, every step keeps what the tick has read within what is free |
| WorkerJobs.TwoReadersOvercommit | internal/cluster/scheduler/packer.go:13-21 | when two ticks read the usage before either takes a job, two jobs that need the whole machine are both started |
| WorkerJobs.BothPending | internal/cluster/scheduler/queue.go:33-43 | any two jobs can be all that is pending at an idle worker, so that this happens |
| WorkerJobs.PackNextJob | internal/cluster/scheduler/packer.go:13-53 | the job taken always fits, so the way out for lack of room is never taken; it is assigned if and only if a container was found, or none was free and one was launched; otherwise it stays active |
| WorkerJobs.Jobs.NextBestJob | internal/cluster/scheduler/queue.go:218-257 | the method on the object's maps, with the mark it leaves on the job |
| WorkerJobs.Jobs.AddJob | internal/cluster/scheduler/queue.go:33-43 | refuses an active id, otherwise pushes |
| WorkerJobs.Jobs.RemoveJob | internal/cluster/scheduler/queue.go:45-55 | refuses an active id, otherwise removes |
| WorkerJobs.Jobs.MarkRunning | internal/cluster/scheduler/queue.go:100-110 | marks exactly the active job of that id |
| WorkerJobs.Jobs.MarkCompleted | internal/cluster/scheduler/queue.go:112-129 | moves an active job to Completed with its result |
| WorkerJobs.Jobs.RollbackJob | internal/cluster/scheduler/queue.go:131-143 | moves an active job back to pending |
| WorkerJobs.Jobs.ClearAllJobs | internal/cluster/scheduler/queue.go:145-164 | sends every active and pending job to Completed once, in some order |
| WorkerJobs.Jobs.ActiveUtilization | internal/cluster/scheduler/queue.go:196-206 | the sums over the active jobs, whatever the order |
| SchedulerState.StepStaysOrderlyExactly | internal/scheduler/states/state.go:74-182 | a step keeps the disjoint partition of the known ids, with matching status, over a faithful queue, if and only if it is proper: no append of an id that is further on, no assignment of a completed one, no roll-back onto a forgotten copy |
| SchedulerState.RunStaysOrderly | internal/scheduler/states/state.go:74-182 | with fresh ids appended, and only ids assigned that have left the queue and not completed, the partition holds at every step of every run |
| SchedulerState.AppendedOnceIsDisciplined | internal/scheduler/states/state.go:74-182 | a run that appends no id twice, and assigns only what is neither pending nor completed, keeps the discipline |
| SchedulerState.CompletedForGood | internal/scheduler/states/state.go:144-166 | a completed job is never revived: only a purge takes it out, and a late UnassignJob changes nothing |
| SchedulerState.StatusIsLastReport | internal/scheduler/states/state.go:120-141 | in every disciplined run: a known job is completed if and only if a report of it has come in since it was appended, with status Completed if and only if the last one said success, and Failed if and only if it said failure |
| SchedulerState.ReportTouchesStatusOnly | internal/scheduler/states/state.go:120-141 | a report leaves the job, its cluster and every other job as they were |
| SchedulerState.UnknownIsRefusedExactly | internal/scheduler/states/state.go:102-182 | an id is refused if and only if it is not known, and then nothing changes |
| SchedulerState.AppendedIsPending | internal/scheduler/states/state.go:74-81 | a job that comes in is pending, with what it says of a cluster left as it was |
| SchedulerState.AssigningCompletedBreaksPartition | internal/scheduler/states/state.go:102-118 | assigning a completed job makes it assigned and completed at once |
| SchedulerState.State.AppendJob | internal/scheduler/states/state.go:74-81 | the new state of jobs, marks and queue |
| SchedulerState.State.NextPendingJob | internal/scheduler/states/state.go:85-100 | pop and mark in one step |
| SchedulerState.State.AssignJob | internal/scheduler/states/state.go:102-118 | out of the queue, into the assigned ones, without a look at the completed ones |
| SchedulerState.State.CompleteJob | internal/scheduler/states/state.go:120-141 | out of queue and assigned ones, with status and response |
| SchedulerState.State.UnassignJob | internal/scheduler/states/state.go:144-166 | back to pending with its marks reset, unless it has completed |
| SchedulerState.State.PurgeJob | internal/scheduler/states/state.go:169-182 | out of everything |
| BatchPacker.NeverOverplaced | internal/scheduler/packer/operations.go:46-93 | whatever is popped, charged once or twice, and whichever map entries are replaced meanwhile, what a batch places on a cluster needs no more than was free there at its start |
| BatchPacker.TurnedAwayExactly | internal/scheduler/packer/operations.go:62-93 | the round finds no target exactly when no cluster has room |
| PackerChoices.TargetIsFirstExactly | internal/scheduler/packer/operations.go:62-93 | the job of iteration i goes to the first cluster with room in the round that begins at i modulo the number of clusters |
| PackerChoices.SearchedForExactly | internal/scheduler/packer/operations.go:35-60 | with no shedding the search is for jobs that some cluster has the processors for and some cluster, perhaps another, the memory |
| PackerChoices.PoppedExactly | internal/scheduler/packer/operations.go:35-60 | once nothing may be shed, a pop finds none exactly when no pending job has some cluster with the processors and some cluster with the memory for it, and otherwise one of highest priority among those |
| PackerChoices.AccountingExactly | internal/scheduler/packer/operations.go:69-76 | the local accounting is ahead of what was placed by exactly what was charged twice |
| BatchPacker.StopsOnlyWhenItMust | internal/scheduler/packer/operations.go:46-60 | if a pop finds nothing, no pending job within 2^62 fits any cluster by the local accounting |
| BatchPacker.DoubleChargeTurnsAway | internal/scheduler/packer/operations.go:70-76 | charging through map and local reference at once turns a job away that would have fitted |
| BatchPacker.FateExactly | internal/scheduler/packer/operations.go:112-206 | for every combination of answers, a popped job ends up assigned, pending or gone, each under exactly its condition; it is left in hand if and only if the first peer that did not refuse has no connection |
| BatchPacker.FateAmidReportsExactly | internal/scheduler/service/cluster/client.go:164-169 | with completions of the job reported before, between and after the regions of its assignment: it is left both assigned and completed if and only if the last assignment comes after a report and none after it; otherwise it is completed if reported at all, with the outcome of the last report |
| BatchPacker.PartitionAmidReportsExactly | internal/scheduler/service/cluster/client.go:164-169 | and the life-cycle partition survives them if and only if that does not happen |
| BatchPacker.ConnectedPeersLoseNoJob | internal/scheduler/packer/operations.go:180-206 | with a connection to every listed peer, no job is lost |
| PackerChoices.SheddingFateByPosition | internal/scheduler/packer/operations.go:180-206 | a job to be shed is gone if and only if some peer takes it and all before it refuse, stays in hand if and only if instead one without a connection comes first, and is pending again if and only if all refuse |
| PackerChoices.NoSheddingNoChange | internal/scheduler/packer/operations.go:112-129 | a popped job that found no room is pending again, whatever the peers would say, once nothing may be shed |
| BatchPacker.OthersStayPut | internal/scheduler/packer/operations.go:112-206 | no other job changes set, status or cluster |
| BatchPacker.ExecuteStaysOrderly | internal/scheduler/packer/operations.go:112-206 | the life-cycle partition survives every execution |
| BatchPacker.BatchStaysOrderly | internal/scheduler/packer/operations.go:18-109 | when executions run one after the other, the partition survives every batch, and a batch that stops early stops because it must |
| BatchPacker.BatchAccounting | internal/scheduler/packer/operations.go:27-28 | the accounting of a batch is that of its iterations; and when executions run one after the other, no more than the quota are offered to peers |
| PackerChoices.OfferedExactly | internal/scheduler/packer/operations.go:118-119 | the jobs offered are those that no cluster had room for, as many of them as the quota allows, when executions run one after the other |
| PackerChoices.QuotaExactly | internal/scheduler/packer/operations.go:132-138 | the quota is a quarter of the batch, rounded down, and never fewer than five |
| PackerWorkers.QuotaOvershotExactly | internal/scheduler/packer/operations.go:118-119 | with up to twenty workers, each reading the counter and adding to it in two steps, the number of jobs offered can be any up to the limit of the batch that is below the quota plus twenty, and no other |
| PackerWorkers.InterleavedStaysOrderly | internal/scheduler/packer/operations.go:95-109 | however the locked regions of any number of executions fall among each other, among the pops and among what else the scheduler does to other jobs, the life-cycle partition holds at every step |
| PackerWorkers.InterleavedFate | internal/scheduler/packer/operations.go:112-206 | and each popped job ends as if its execution had run by itself from the moment it was handed out, so that FateExactly holds of it |
| BatchPacker.ProcessPendingJobs | internal/scheduler/packer/operations.go:18-109 | the loop over the scheduler's objects, with executions one after the other, does what the batch on values does, polls in between included |
| BatchPacker.PackNext | internal/scheduler/packer/operations.go:46-93 | the loop body with the lowered ceilings |
| BatchPacker.PlaceJob | internal/scheduler/packer/operations.go:62-93 | the inner loop finds and charges the target |
| BatchPacker.ChargeCluster | internal/scheduler/packer/operations.go:69-76 | charges once through the map and once through the local reference: twice exactly when they are one object |
| BatchPacker.ExecuteJobAssignment | internal/scheduler/packer/operations.go:112-129 | the branches between attempt, shedding and roll-back, and the shedding counter |
| BatchPacker.AttemptJobAssignment | internal/scheduler/packer/operations.go:141-178 | assigned only after commit and dispatch, otherwise rolled back |
| BatchPacker.Redistribute | internal/scheduler/packer/operations.go:180-206 | the first peer that does not refuse decides |
| BatchPacker.ClusterBoard.SoftUpdateCluster | internal/scheduler/states/externs.go:60-68 | only the named cluster is charged |
| BatchPacker.ClusterBoard.UpdateCluster | internal/scheduler/states/externs.go:70-82 | the map gets a new object, the old one is left as it was |
| BatchPacker.ClusterBoard.LocalClusters | internal/scheduler/states/externs.go:39-47 | every cluster once |

## Left out

- LogStore.RecoveryRefinement: a truncation into a pending compaction, and an installation during one or below the boundary of the log file, are not allowed in its runs; the code prevents neither.
- LeaderRecovery.LeaderPossibleExactly: for two nodes only, and while no snapshot has been sent; with three or more, or after a chunk, DeadlockIsForever gives states without a way out, but whether there are others is open.
- RaftNode.Node.BecomeLeader: the commit index that a new leader takes over from its log is not modelled.
- Terms.LogTermsOrdered: says nothing about Leader Completeness, State Machine Safety or Log Matching; the code re-stamps entries with the sender's term, checks the previous term at the tip only, and truncates for entries it already has.
- CatchUp.CatchUpConvergesExactly: takes calls as delivered and the leader's log and snapshot file as unchanged meanwhile; a failed call or an ended context is a bound on the number of iterations.
- CatchUp.StreamSnapshot: every read fills its buffer or reaches the end of the file; other read sizes, and abandonment in the middle, are in SnapshotTransfer.
- ClaimGuard.NoRunRepeatsExactly: takes the check and the append as one step; ClaimQueue has them apart.
- RacingPackers.CapacityExactly: adds without the wrap-around of int64, which sums within the machine's limits do not reach.
- BatchPacker.ProcessPendingJobs: runs the execution of a job to its end before the next pop, where the code runs up to twenty at a time; PackerWorkers has the interleavings, on values.
- PackerWorkers.InterleavedStaysOrderly: nothing else touches a job while a worker has it; completions that do are in BatchPacker.FateAmidReportsExactly, for one job's assignment.
- BatchPacker.FateExactly: a cluster named with the empty string, which the code takes for no target, is not modelled.
- Commit index, quorum counting and the waiting for a catching-up peer in AddLog: commit safety does not hold of the code.
- Crash and restart of Raft term and vote, partial disk writes and failing file operations.
- A request in flight is built from one state of its sender (Election.MaySend), while the code reads parts of it after releasing the lock.
- Membership changes, connection state of Raft peers, timers and election timeouts other than as free steps.
- TopFreePeers, LeastUtilizedCluster, AtMaximumCapacity and the staleness queries: the peers that are asked are an input of an execution, in whatever order.
- readJobs and the periodic purge, PeekForHeuristic, QueueUtilization and the other read-only listings of the queues: easy members.
- OptimisticUpdates and time stamps of ClusterState: no modelled operation reads them.
- gRPC plumbing, protobuf code, container and Docker calls, health polling, configuration, logging and the command-line programs.
- The contents of earlier snapshots: StoreSnapshot rewrites active.log from the retained entries only.
- JSON parsing: a parser is a function from bytes to the four fields that are looked at.
