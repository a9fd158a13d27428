# A verified model of mosaik's replicated groups

mosaik keeps groups of peers in agreement with a modified Raft engine, brings lagging members up to date by
downloading snapshots from several peers at once, and offers replicated collections on top. This project models four
connected parts of it in Dafny and proves what they keep over every run:

* **The Raft engine.** Nodes, messages and the network form a step relation (`Protocol.dfy`). The network is the set of
  packets ever sent, so packets can be lost, reordered and delivered again at any time; timers, bonds and clients are
  nondeterministic events. The engine differs from textbook Raft: a vote is granted only between equal log cursors,
  lagging nodes abstain and shrink the quorum, commits are decided by a committee of about five voters, a batch carries
  one term, and the log prefix is pruned. `RaftNode.dfy`, `Shared.dfy`, `LogStore.dfy` and `Committee.dfy` are the
  mutable objects of the engine; each method is proved to be a transition of the step relation. `Ballots.dfy` and
  `StepLaws.dfy` say what those transitions mean in every run without naming them: who sent what a ballot counts, why each
  vote, acknowledgement and announcement was sent, and what handling one leaves.
* **Snapshot catch-up.** `MapMachine.dfy` labels snapshots, `Provider.dfy` serves them, `Session.dfy` is the download as
  a step relation, `SnapshotSync.dfy` its object, `Offers.dfy` whom it asks, `FetchSchedule.dfy` its scheduling
  invariant, and `CatchUp.dfy` joins all of it to the log: catching up ends in the state that replaying gives.
* **The double-ended priority queue** (`Depq.dfy`), two indexes that act as one plain map.
* **The order book** (`OrderBook.dfy`), nested matching loops over price levels that act on one flat queue.

A run of the engine starts from empty nodes over a fixed member set. The theorems about runs name their hypotheses as
predicates over a state and the next event:

* `OneLeader`: a candidate wins only in a term that has had no leader. `ElectionSafety.OneLeaderPerTerm` derives it when
  those that win polled the whole group and only observers abstained from their ballots (`FullPolling`); without that the
  engine itself expects rival leaders.
* `AbovePruning`: a batch sent for the very start of the log does not reach a follower that has pruned.
* `SnapshotAgrees`, `InstallExtends`: an installed snapshot is a prefix of the current leader's log and does not shorten
  the follower's.
* `KeepsCommitted`: no truncation at or below the commit index.

What votes rest on needs none of these, and exactly-once application needs only the last. `NecessityRuns.dfy` has, for
each of them and for full polling, a run that keeps all the others and breaks what is proved with it.

Some promises do not hold for every input. For each of these there is a lemma with an input that breaks it and a lemma
that says exactly when it holds:

* Accepting a batch does not always place it behind its predecessor: the pruned prefix answers index 0
  (`BatchBelowPruningPointIsMisplaced`, `PlacementExactCondition`).
* A pruned log is not truncated like a full one when the cut is inside the pruned prefix
  (`TruncationBelowPruningDiffers`, `TruncationExactCondition`).
* Indices promised to clients are promised again after a flush that could not be encoded
  (`FailedFlushPromisesAgain`, `PlanExtendsExactly`).
* A new leader can credit a voter with a log the voter has since replaced, if the voter moved to a later term before the
  election was complete (`CreditCanBeStale`, `CreditExactCondition`).
* A fetch response that arrives after its range was drained blocks the session until a higher anchor is offered,
  although chunks are documented as non-overlapping (`HonestPeersCanBlock`, `BlockedForGood`, `DrainExactCondition`).
* A session that takes a stale anchor while nothing is buffered can end with a hole behind the anchor, on which finishing
  it stops the node (`HonestSessionCanStop`, `AdjoinsExactly`).
* The priority queue labels a snapshot too low when a compare-exchange in the batch fails, because such a command is not
  counted (`FailedExchangeShiftsLabel`, `LabelExactCondition`).
* Appending snapshot items that repeat a key under another priority leaves the two indexes in disagreement. No
  enumeration of one queue has such items; they could only come from a peer that mixes two snapshots
  (`TwoPrioritiesDisagree`, `AppendExactCondition`).

`dafny verify dfyconfig.toml` checks the whole project.

## Model

| member | source | states |
|---|---|---|
| `AppendPlacement.AppendEntriesPlacement` | src/groups/raft/follower.rs:434-463 | a single-term batch whose term bounds a log of nondecreasing terms lands entry i at exactly `prev + 1 + i`, keeps everything up to `prev`, leaves only same-term entries behind the batch, and accepting it again changes nothing |
| `AppendPlacement.AcceptedIsOverlay` | src/groups/raft/follower.rs:577-593 | conflict check on the first entry plus the skipping append loop equal laying the batch over the log behind `prev` |
| `AppendPlacement.OverlayTwice` | src/groups/raft/follower.rs:577-593 | laying the same batch over the log twice is laying it once |
| `AppendPlacement.BatchBelowPruningPointIsMisplaced` | src/groups/storage.rs:183-192 | a batch for the start of the log is appended at the end of a log with two pruned entries |
| `AppendPlacement.PlacementExactCondition` | src/groups/raft/follower.rs:434-463 | a consistent non-empty batch lands where it belongs if and only if `prev` is not below the pruning point, or only one entry is pruned and it has the batch's term |
| `AppendPlacement.WalkFromTheBoundary` | src/groups/raft/follower.rs:577-593 | the one pruned-prefix case in which the append loop still finds its place |
| `LogStore.InMemoryLogStore.Append` | src/groups/storage.rs:117-120 | extends the whole log by one entry and returns its index, whatever is pruned |
| `LogStore.InMemoryLogStore.Get` | src/groups/storage.rs:122-128 | answers exactly the unpruned indices, with the whole log's entry |
| `LogStore.InMemoryLogStore.Available` | src/groups/storage.rs:130-132 | the range of indices that can still be read |
| `LogStore.InMemoryLogStore.GetRange` | src/groups/storage.rs:134-160 | the whole log's entries of the clamped range, with their indices |
| `LogStore.InMemoryLogStore.Truncate` | src/groups/storage.rs:162-171 | cuts the whole log, never inside the pruned prefix |
| `LogStore.InMemoryLogStore.Last` | src/groups/storage.rs:173-181 | the cursor of the whole log, also when every entry is pruned |
| `LogStore.InMemoryLogStore.TermAt` | src/groups/storage.rs:183-192 | the whole log's terms from the pruning boundary on, and 0 at index 0 |
| `LogStore.InMemoryLogStore.PrunePrefix` | src/groups/storage.rs:194-208 | moves the pruning point, never back and never past the end; the whole log stays |
| `LogStore.InMemoryLogStore.ResetTo` | src/groups/storage.rs:210-214 | restarts at a cursor as the log that cursor stands for, all pruned |
| `LogStore.PrunedRefinesUnpruned` | src/groups/storage.rs:116-215 | for every sequence of append, truncate above the pruned prefix, prune and reset, the store represents the log from which nothing was pruned |
| `LogStore.Perform` | src/groups/storage.rs:116-215 | one operation on the store object is that operation on what it represents |
| `LogStore.PerformAll` | src/groups/storage.rs:116-215 | so a store object that went through such operations stands for the unpruned log |
| `LogStore.TruncationExactCondition` | src/groups/storage.rs:162-171 | a truncation agrees with the unpruned log if and only if it cuts behind the pruned prefix |
| `LogStore.TruncationBelowPruningDiffers` | src/groups/storage.rs:162-171 | two pruned entries survive a truncation that empties the unpruned log |
| `SharedState.Shared.CommitUpTo` | src/groups/raft/shared.rs:288-327 | term-batched application gives the state and cursor of applying every newly committed entry once, in index order |
| `SharedState.Shared.ApplyInBatches` | src/groups/raft/shared.rs:288-327 | splitting into runs of one term changes neither the state nor the cursor |
| `SharedState.BatchEnd` | src/groups/raft/shared.rs:288-327 | the maximal run of equal terms |
| `SharedState.CommitCursor` | src/groups/raft/shared.rs:288-327 | a commit reaches as far as asked and as the log goes, never back, applies exactly the entries in between, and its cursor is the log's there |
| `SharedState.ReplayConcat` | src/groups/raft/shared.rs:288-327 | replaying a log is replaying a prefix and then the rest |
| `SharedState.Shared.PruneSafePrefix` | src/groups/raft/shared.rs:178-195 | prunes up to what is safe but never the last committed entry, and changes no log contents |
| `VotingCommittee.CommitteeInvariant` | src/groups/raft/leader.rs:542-695 | under every sequence of votes, removals and purges the leader stays a voter, voters and non-voters are disjoint, and every credited index is the election's or was voted |
| `VotingCommittee.CreditIsTheLatest` | src/groups/raft/leader.rs:542-695 | under every sequence of votes, removals and purges, who is on the roster and with what index is exactly the peer's latest vote, or the election's, unless it was removed or lost its bond since |
| `VotingCommittee.StepKeepsRoster` | src/groups/raft/leader.rs:591-638 | one committee event keeps the roster well-formed and invents no acknowledgement |
| `VotingCommittee.BackfillEndsOdd` | src/groups/raft/leader.rs:653-695 | a backfill that promotes anyone ends with an odd number of voters, at most 5 |
| `VotingCommittee.BackfillReaches` | src/groups/raft/leader.rs:653-695 | a backfill ends with exactly the largest odd number of voters up to 5 and up to the roster's size, or what it had if that is more; below 5 with two non-voters it promotes somebody |
| `VotingCommittee.QuorumFromSorted` | src/groups/raft/leader.rs:642-648 | the position read from the sorted acknowledgements is in bounds and is the largest index a strict majority acknowledged |
| `VotingCommittee.Committee.HighestQuorumIndex` | src/groups/raft/leader.rs:642-648 | returns the largest index acknowledged by a strict majority of the voters |
| `VotingCommittee.Committee.RecordVote` | src/groups/raft/leader.rs:591-606 | updates a voter or non-voter, admits a newcomer by backfill, and returns the quorum index |
| `VotingCommittee.Committee.RemoveDeadVoters` | src/groups/raft/leader.rs:613-630 | keeps exactly the live members and the leader, then backfills |
| `VotingCommittee.Committee.Remove` | src/groups/raft/leader.rs:634-638 | drops exactly the follower, then backfills |
| `VotingCommittee.Committee.TryBackfillVoters` | src/groups/raft/leader.rs:661-695 | promotes as many non-voters as the target allows, none of which lags behind one left out |
| `VotingCommittee.MostAdvanced` | src/groups/raft/leader.rs:661-695 | picks distinct non-voters such that nobody left out is ahead of them |
| `ElectionSafety.OneQuorumPerTerm` | src/groups/raft/candidate.rs:302-338 | conditional Election Safety: in every run, two candidates that reach quorum in one term, at any two times and whether or not they go on to lead, are the same, if these two polled all members and only observers abstained from their ballots |
| `NecessityRuns.PartialPollingGivesTwoQuorums` | src/groups/raft/candidate.rs:332-338 | a run in which two candidates that poll only themselves both reach quorum in one term |
| `ElectionSafety.OneLeaderPerTerm` | src/groups/raft/candidate.rs:302-304 | so if those that won so far polled all members, however losers polled, nobody wins an election in a term that already had a leader |
| `ElectionSafety.QuorumIsMajority` | src/groups/raft/candidate.rs:332-338 | the dynamic quorum of a candidate that polled all members, with only observers abstaining, is a majority of the voting members |
| `ElectionSafety.WinnerIsFirst` | src/groups/raft/candidate.rs:302-304 | a candidate that reaches quorum is the first leader of its term |
| `ElectionSafety.VotersAreConsistent` | src/groups/raft/shared.rs:257-278 | in every run, rival leaders and partial polling included, terms never decrease, the last vote's term never exceeds the role's, and no node votes for two candidates in a term |
| `ElectionSafety.GrantsGoToOneCandidate` | src/groups/raft/role.rs:290-418 | the same on the wire: in every run, all grants one peer ever sends for a term go to one candidate |
| `ElectionSafety.StepVoting` | src/groups/raft/role.rs:290-418 | every step, with no hypothesis, keeps ballots, votes and grants backed by recorded votes |
| `ElectionSafety.StepElections` | src/groups/raft/role.rs:209-227 | a step that crowns at most one leader per term also keeps every leader backed by the votes that elected it |
| `ElectionSafety.CampaignTakesTheNextTerm` | src/groups/raft/candidate.rs:66-138 | the search for a votable term ends at the very next one |
| `LogMatching.LogMatchingTheorem` | src/groups/raft/follower.rs:434-463 | Log Matching (section 5.3 of the Raft paper): in every run with one leader per term, two logs that hold an entry of the same index and term are identical up to it |
| `LogMatching.LogMatchingUnderFullPolling` | src/groups/raft/candidate.rs:302-338 | the same with no assumption about leaders where those that won polled all members and only observers abstained |
| `NecessityRuns.RivalsBreakLogMatching` | src/groups/raft/role.rs:209-227 | a run that keeps every other hypothesis in which two leaders of one term break Log Matching |
| `NecessityRuns.PrunedFollowerBreaksLogMatching` | src/groups/storage.rs:183-192 | the same for a batch for the start of the log that reaches a pruned follower |
| `NecessityRuns.ForeignSnapshotBreaksLogMatching` | src/collections/sync/session.rs:630-667 | the same for an installed snapshot of another leader's log |
| `LogMatching.StepLogs` | src/groups/raft/leader.rs:422-445 | every step of every role keeps each log equal, term by term, to a prefix of what that term's leader wrote |
| `LogMatching.AcceptedFollowsLeader` | src/groups/raft/follower.rs:577-593 | a follower that accepts a leader's batch ends with a log that follows the leader's |
| `LogMatching.ConsistentPrefix` | src/groups/raft/follower.rs:434-463 | passing the consistency check means holding the leader's whole prefix |
| `CommitAgreement.FollowersApplyWhatLeadersCommitted` | src/groups/raft/follower.rs:618-633 | in every run, what a follower newly applies is the leader's log up to an index the leader had committed when it sent the message |
| `CommitAgreement.FollowerCommitAgreement` | src/groups/raft/follower.rs:618-633 | the same as one step, with the announced commit bounded by the leader's |
| `CommitAgreement.AnnouncedBehindPrev` | src/groups/raft/leader.rs:422-445 | in every run that truncates nothing committed, every AppendEntries sent has `leader_commit <= prev_log_position.index` |
| `CommitAgreement.AnnouncedCommitsAreBounded` | src/groups/raft/leader.rs:497-504 | with one leader per term and nothing committed truncated, it also announces no more than the leader of its term has committed |
| `CommitAgreement.ExactlyOnceInOrder` | src/groups/raft/shared.rs:288-327 | over every run that truncates nothing committed, rival leaders included, `pruned <= committed <= last` and the applied entries are the log up to the commit index, each once and in order |
| `NecessityRuns.TruncationBreaksApplication` | src/groups/raft/follower.rs:434-463 | a run that keeps every other hypothesis in which a node has applied an entry that its log no longer holds |
| `VoterLogs.VotersHoldTheWinnersLog` | src/groups/raft/role.rs:343-393 | in every run with one leader per term, whether or not installed snapshots shortened logs in it, every voter a new leader credits with its own last index, and that is still in the leader's term, holds exactly the leader's log |
| `VoterLogs.SameCursorSameLog` | src/groups/raft/role.rs:343-393 | the equal cursors that a grant needs mean equal logs |
| `CreditLoss.CreditExactCondition` | src/groups/raft/leader.rs:565-580 | a voter a new leader credits agrees with it up to the credited index if and only if it holds an entry of the leader's last term there; if it does not, it has left the term and had its log replaced, after granting, by a leader of a later term or a snapshot |
| `CreditLoss.GrantHistory` | src/groups/raft/candidate.rs:154-166 | from the moment a grant is sent until it is counted, the voter keeps the candidate's log or was made to replace it in a later term |
| `StaleCredit.CreditCanBeStale` | src/groups/raft/candidate.rs:154-166 | a run under every hypothesis, with no committed entry truncated, in which a new leader credits a voter that holds another entry |
| `TruthfulCredit.CommitsAreBacked` | src/groups/raft/leader.rs:295-339 | whenever a leader's commit index advances, a strict majority of its committee holds its log up to there or has left its term |
| `NecessityRuns.ShorterSnapshotBreaksBacking` | src/collections/sync/session.rs:630-667 | a run that keeps every other hypothesis in which a leader commits an entry that a follower it counts gave up for a shorter snapshot |
| `TruthfulCredit.CommitNeedsQuorum` | src/groups/raft/leader.rs:295-339 | a leader's commit index moves only to what a strict majority of the committee acknowledged |
| `TruthfulCredit.ReconcileKeepsAgreement` | src/groups/raft/follower.rs:434-463 | reconciling with the leader of the term never cuts into what the follower was credited with |
| `IndexAssignment.PromisesAreKept` | src/groups/raft/leader.rs:263-291 | within one leadership without failed flushes, every command lands in the log at exactly the index promised to its client |
| `IndexAssignment.RangesAreContiguous` | src/groups/raft/leader.rs:263-291 | the ranges handed to clients are disjoint, in order and contiguous |
| `IndexAssignment.PlanExtendsExactly` | src/groups/raft/leader.rs:400-484 | a step of a leader extends log plus queue, by exactly what was enqueued, if and only if it is not a failed flush |
| `IndexAssignment.FailedFlushPromisesAgain` | src/groups/raft/leader.rs:400-484 | after a failed flush the next promised index is one that was promised before |
| `RaftNodes.RaftNode.StartElection` | src/groups/raft/candidate.rs:66-138 | the loop to a votable term, the self vote and the poll are the protocol's campaign |
| `RaftNodes.RaftNode.OnElectionTimeout` | src/groups/raft/follower.rs:179-231 | campaigns in the next term unless the node observes or is catching up |
| `RaftNodes.RaftNode.CastVote` | src/groups/raft/role.rs:290-418 | grants, denies or abstains, and saves the vote, as the protocol says |
| `RaftNodes.RaftNode.CountVote` | src/groups/raft/candidate.rs:204-298 | adds a polled sender to exactly the set its vote names, and changes nothing for any other peer |
| `BallotTruth.BallotsAreTruthful` | src/groups/raft/candidate.rs:107-135 | in every run, whoever a candidate counts as granting, abstaining or denying sent it exactly that answer for that term, and the ballot is over itself and exactly the peers it sent the request with its log's end |
| `BallotTruth.AnswersAreCounted` | src/groups/raft/candidate.rs:219-278 | in every run, an answer of a polled peer that reaches the candidate is in the set of its kind for as long as the campaign lasts |
| `BallotTruth.QuorumExactly` | src/groups/raft/candidate.rs:302-338 | in every run a candidate has its quorum if and only if its grants are more than half of the polled that did not abstain |
| `BallotTruth.AnswersHaveReasons` | src/groups/raft/role.rs:290-408 | in every run each answer was given on receipt of the request, granted exactly by a free non-observer with an equal cursor, abstained exactly by a free node that is behind or an observer with an equal cursor, denied exactly by a node that is ahead or voted elsewhere, and the vote was recorded exactly between equal cursors |
| `StepLaws.MessagesMoveTerms` | src/groups/raft/role.rs:108-281 | stale messages do nothing, newer ones make a follower of their term, and a second leader of the own term makes a leader campaign |
| `StepLaws.FollowerTakesOrBuffers` | src/groups/raft/follower.rs:416-503 | a batch is taken exactly when the node has the entry it follows: then the node commits as far as told and as its log goes and acknowledges its log's end; otherwise it drops the clashing entry and what follows, buffers the batch with the indices it was sent for, and answers nothing |
| `StepLaws.AcknowledgementsHaveReasons` | src/groups/raft/follower.rs:571-640 | in every run each acknowledgement answers a non-empty batch of its term that its sender had the predecessor of, tells where its log then ended, and is an abstention exactly from observers |
| `StepLaws.LeaderCommitsToQuorum` | src/groups/raft/leader.rs:295-396 | an answer makes the leader commit to the largest index a strict majority of its new committee has acknowledged, clamped to its log |
| `StepLaws.AnswersMoveCredit` | src/groups/raft/leader.rs:295-396 | an answer credits its sender with the index it grants, drops it if it abstains, drops whoever lost its bond, and leaves every other credit alone |
| `StepLaws.AnnouncementsHaveReasons` | src/groups/raft/leader.rs:400-513 | in every run each AppendEntries message was sent by the leader of its term, names the end of its log and its commit index as they were then, and carries exactly what it then appended |
| `StepLaws.PruningStopsShortOfCommitted` | src/groups/raft/shared.rs:178-195 | pruning changes no entry and never reaches the one at the commit index |
| `RaftNodes.RaftNode.BecomeLeader` | src/groups/raft/candidate.rs:149-191 | a candidate with a quorum leads with the committee of its granters |
| `RaftNodes.RaftNode.Reconcile` | src/groups/raft/follower.rs:416-501 | consistency check and truncation of the in-place store |
| `RaftNodes.RaftNode.AcceptInSyncEntries` | src/groups/raft/follower.rs:571-645 | the append loop over the pruned store appends what is missing, commits and acknowledges |
| `RaftNodes.RaftNode.FollowLeader` | src/groups/raft/follower.rs:416-501 | handling AppendEntries is the protocol's transition, in sync or catching up |
| `RaftNodes.RaftNode.FinishCatchUp` | src/groups/raft/follower.rs:179-231 | taking over a snapshot is the protocol's install step, unless the buffered entries do not adjoin it |
| `RaftNodes.RaftNode.RecordVote` | src/groups/raft/leader.rs:295-339 | purge, count, read the quorum and commit, as the protocol's leader does |
| `RaftNodes.RaftNode.RecordNoVote` | src/groups/raft/leader.rs:343-393 | drops an abstainer, purges, and commits what the smaller committee acknowledged |
| `RaftNodes.RaftNode.EnqueueCommands` | src/groups/raft/leader.rs:263-291 | queues the commands and promises the indices behind log and queue |
| `RaftNodes.RaftNode.PublishPending` | src/groups/raft/leader.rs:400-484 | appends the queue, broadcasts one single-term batch, or reverts the log |
| `RaftNodes.RaftNode.SendHeartbeat` | src/groups/raft/leader.rs:488-513 | an empty AppendEntries at the leader's own last entry |
| `RaftNodes.RaftNode.ReceiveProtocolMessage` | src/groups/raft/role.rs:108-229 | stale messages are dropped, newer terms step the node down, and the role handles the rest |
| `RaftNodes.RaftNode.BecomeFollower` | src/groups/raft/role.rs:234-279 | overwrites the role and term and keeps log, vote and commit position |
| `MapMachine.MapStateMachine.ApplyBatch` | src/collections/map.rs:554-638 | the batch loop applies the commands in order, and serves the state after the batch labelled with the batch's last index |
| `MapMachine.MapStateMachine.ApplyOne` | src/collections/map.rs:563-605 | one command in place: what it writes is there after, what it erases is gone, and every key it does not touch keeps its value |
| `MapMachine.LastWriterWins` | src/collections/map.rs:563-605 | whatever commands run on whatever map, a key holds what the last command that touched it left there, or its first value if none did; the last entry of an extension counts, and an exchange touches only what it expects |
| `MapMachine.ServesLiveRequests` | src/collections/map.rs:554-638 | a batch asks a node to serve exactly the unexpired requests of other peers in it |
| `MapMachine.BatchesReplayTheLog` | src/collections/map.rs:554-638 | applying a log in any batches gives the state of replaying it entry by entry |
| `MapMachine.LabelsNameStates` | src/collections/map.rs:554-638 | however the log was cut into single-term batches, a snapshot's label is the log's cursor there and its contents the replayed state |
| `MapMachine.EnumerationRebuilds` | src/collections/map.rs:712-733 | appending the enumeration of a map to the empty map gives the map back |
| `MapMachine.AppendInParts` | src/collections/map.rs:730-733 | appending in chunks is appending everything at once |
| `SnapshotProtocol.IterRange` | src/collections/map.rs:712-728 | nothing past the end, and otherwise exactly the items between the two offsets |
| `SnapshotProvider.SnapshotSyncProvider.PollPendingRequests` | src/collections/sync/provider.rs:135-192 | keeps the first snapshot of each position and offers each request that is neither stale nor its own |
| `SnapshotProvider.LiveRequestsAreOffered` | src/collections/sync/provider.rs:135-192 | exactly the unexpired requests of other peers are offered, each to who made it, with its snapshot's position and size |
| `SnapshotProvider.FirstSnapshotStays` | src/collections/sync/provider.rs:135-192 | a held snapshot stays, a new position gets the snapshot of its first live request, and nothing else is added |
| `SnapshotProvider.SnapshotSyncProvider.PruneExpiredSnapshots` | src/collections/sync/provider.rs:196-207 | drops the expired ones and nothing else |
| `SnapshotProvider.SnapshotSyncProvider.OnFetchDataRequest` | src/collections/sync/provider.rs:257-309 | answers exactly when the snapshot is there and the clamped range is non-empty and in bounds, with at most one batch of the items asked for |
| `SnapshotProvider.ProvidersTellTheTruth` | src/collections/sync/provider.rs:135-309 | over everything a provider ever serves and lets expire, each offer and each answer is true if what it was handed was |
| `SnapshotProvider.ServingStaysHonest` | src/collections/sync/provider.rs:135-192 | a provider fed true snapshots keeps only true ones and offers their true sizes |
| `SyncSession.ReassemblySafety` | src/collections/sync/session.rs:575-624 | for every interleaving of honest offers and responses, duplicated or reordered, with departures, timeouts and anchor upgrades, the accumulated items are the current anchor's snapshot up to the gap, and all of it once complete |
| `SyncSession.StepIsSafe` | src/collections/sync/session.rs:247-369 | one step keeps that |
| `FetchScheduling.FetchesStayTidy` | src/collections/sync/session.rs:483-570 | when each response answers its peer's current request, in every run requested and fetched chunks are batch-aligned chunks of the gap and none is requested or held twice |
| `FetchScheduling.TidyRangesAreDisjoint` | src/collections/sync/session.rs:483-570 | so all ranges in flight and fetched are pairwise disjoint |
| `FetchScheduling.ScheduleKeepsTidy` | src/collections/sync/session.rs:483-538 | the scheduling walk assigns only chunks nobody has |
| `FetchScheduling.SkipFindsFirstFree` | src/collections/sync/session.rs:510-537 | walking over the sorted taken ranges stops at the first chunk not taken, having passed only taken ones |
| `FetchScheduling.NothingIsStranded` | src/collections/sync/session.rs:483-538 | after scheduling every missing chunk is requested or held, or every available peer is busy |
| `FetchScheduling.HeadIsRequested` | src/collections/sync/session.rs:483-538 | with an idle peer at hand the chunk the gap begins with is in flight |
| `FetchScheduling.DrainKeepsTidy` | src/collections/sync/session.rs:575-624 | draining ends with the gap at a chunk not held, and strictly shrinks it when its first chunk was |
| `FetchProgress.FinishedAfterItsChunks` | src/collections/sync/session.rs:483-624 | when each response answers its peer's current request, in every run an anchor's download takes no more answers than its snapshot has chunks, and draining finishes it exactly when there were that many |
| `FetchProgress.FinishedExactly` | src/collections/sync/session.rs:671-673 | draining completes the session exactly when no chunk is missing |
| `FetchProgress.StepKeepsCount` | src/collections/sync/session.rs:348-369 | a step that keeps the anchor keeps the number of missing chunks, except that an answer lowers it by one |
| `FetchScheduling.DrainExactCondition` | src/collections/sync/session.rs:587-591 | a held first chunk is drained if and only if no chunk below the gap is held |
| `FetchScheduling.LateResponseBlocks` | src/collections/sync/session.rs:348-369 | a response for a drained range blocks the session |
| `FetchScheduling.BlockedForGood` | src/collections/sync/session.rs:587-591 | whatever happens after that, up to the first higher anchor the gap stays as it is and the session is not complete |
| `LateResponse.HonestPeersCanBlock` | src/collections/sync/session.rs:398-424 | a run of honest peers, in which only the answer to a timed-out request is late, that ends blocked |
| `SnapshotSync.SnapshotSyncSession.TrySelectAnchor` | src/collections/sync/session.rs:191-297 | selects or upgrades to the highest usable anchor, starting the download over with that anchor's peers, or changes nothing when there is none |
| `StandingOffers.HighestAnchorIsTaken` | src/collections/sync/session.rs:191-297 | in every run a poll or an offer makes the session begin anew on the highest offered anchor that leaves no hole and is ahead of its own, with the count first offered and exactly the peers whose offers of it stand; if none fits it keeps its anchor and its progress |
| `StandingOffers.AskedPeersOfferTheAnchor` | src/collections/sync/session.rs:191-395 | in every run nobody is available or asked without an anchor, and whoever is available or has a fetch in flight offered the current anchor and has not left since |
| `StandingOffers.AvailableExactly` | src/collections/sync/session.rs:191-424 | in every run a peer is available exactly when it offered the current anchor, before the session began on it or since, and has neither left nor timed out after that |
| `SnapshotSync.SnapshotSyncSession.BestCandidate` | src/collections/sync/session.rs:200-212 | finds a usable candidate that no usable one exceeds |
| `SnapshotSync.SnapshotSyncSession.OnSnapshotReady` | src/collections/sync/session.rs:301-345 | records the offer, then selects or upgrades |
| `SnapshotSync.SnapshotSyncSession.OnFetchDataResponse` | src/collections/sync/session.rs:348-369 | stores the chunk and frees the peer, unless the anchor is another |
| `SnapshotSync.SnapshotSyncSession.OnTermination` | src/collections/sync/session.rs:372-395 | forgets the peer everywhere |
| `SnapshotSync.SnapshotSyncSession.OnTimeouts` | src/collections/sync/session.rs:398-424 | drops late requests and their peers |
| `SnapshotSync.SnapshotSyncSession.DrainFetchedItems` | src/collections/sync/session.rs:575-624 | the loop drains contiguous chunks, lowest first, as the step relation says |
| `SnapshotSync.SnapshotSyncSession.IdlePeersSorted` | src/collections/sync/session.rs:469-480 | every idle peer once, the leader last |
| `SnapshotSync.SnapshotSyncSession.TakenRanges` | src/collections/sync/session.rs:497-506 | every range in flight or fetched, sorted by start |
| `SnapshotSync.SnapshotSyncSession.ScheduleFetches` | src/collections/sync/session.rs:483-538 | the scheduling loops are the step relation's scheduling step |
| `SnapshotSync.AssignChunks` | src/collections/sync/session.rs:520-537 | idle peers get the next free chunks in turn |
| `SnapshotSync.Walk` | src/collections/sync/session.rs:508-518 | steps the cursor over taken ranges |
| `SnapshotSync.SnapshotSyncSession.BufferEntries` | src/collections/sync/session.rs:749-762 | appends the entries with the indices they were sent for |
| `SnapshotSync.SnapshotSyncSession.Poll` | src/collections/sync/session.rs:679-727 | one poll is a run of steps, and a finished session is left alone |
| `CatchUp.CatchUpEqualsReplay` | src/collections/sync/session.rs:630-667 | let providers apply one log, each cut into batches in its own way, and a session hear only from them and the leader: when it completes, its anchor is a position of the log, and after any later commits, appends of the log's entries and truncations of uncommitted ones, the machine is in the state of applying the whole log up to the commit position |
| `CatchUp.CatchUpReachesTheLog` | src/collections/sync/session.rs:630-667 | at completion the tail adjoins the anchor, so the position assertion passes, and log and state are those of the log at the anchor |
| `CatchUp.LabelledIsTrue` | src/collections/map.rs:554-638 | however a provider cut its log into batches, what it hands over is the snapshot its anchor names, at a position of the log |
| `CatchUp.SentIsHonest` | src/collections/sync/provider.rs:135-309 | whatever providers of such snapshots ever offer or answer is honest |
| `CatchUp.TransferRebuildsState` | src/collections/sync/session.rs:630-667 | what a completed session accumulated rebuilds the replayed state at its anchor |
| `CatchUp.DrainingAppends` | src/collections/sync/session.rs:575-624 | appending each drained chunk to the snapshot gives what appending everything accumulated gives |
| `CatchUp.FinalizeSync` | src/collections/sync/session.rs:630-667 | installs, resets, commits to the anchor and appends the tail; the position assertion passes if and only if the tail adjoins the anchor |
| `SharedState.Shared.InstallAt` | src/collections/sync/session.rs:630-667 | takes over a snapshot and its log prefix, and ends valid when the snapshot is what replaying the prefix gives |
| `SharedState.AppendTail` | src/collections/sync/session.rs:655-664 | appends entry by entry and stops at the first one out of place |
| `CatchUpBuffer.TailIsSuffix` | src/collections/sync/session.rs:644-648 | a buffer without holes that starts no later than right behind the anchor leaves a tail that adjoins it |
| `CatchUpBuffer.AdjoinsExactly` | src/collections/sync/session.rs:644-664 | the position assertion passes for a buffer without holes if and only if nothing is buffered or it starts no later than right behind the anchor |
| `StaleAnchor.HonestSessionCanStop` | src/collections/sync/session.rs:191-242 | a complete session of honest peers, started by a heartbeat, in which the assertion fails because a stale anchor was taken before anything was buffered |
| `CatchUp.TailStaysReady` | src/collections/sync/session.rs:191-242 | in every run whose buffered messages connect, the tail follows the anchor without a hole |
| `CatchUp.CaughtUpHoldsTheLog` | src/collections/sync/session.rs:644-667 | with the log's own entries buffered, the caught-up log is a prefix of the log |
| `CatchUp.CommitLater` | src/groups/raft/shared.rs:288-327 | a later commit leaves the machine in the state of replaying its log up to the commit position |
| `PriorityQueue.AgreementIsGrouping` | src/collections/depq.rs:777-841 | `by_priority[p][k] = v` iff `by_key[k] = (p, v)` with no empty bucket, exactly when the second index is the grouping of the first |
| `PriorityQueue.DepqStateMachine.ApplyInsert` | src/collections/depq.rs:777-826 | both indexes follow putting the entry into one plain map and evicting down to the capacity |
| `PriorityQueue.DepqStateMachine.Evict` | src/collections/depq.rs:807-825 | the eviction loop terminates and gives up lowest-priority entries only |
| `PriorityQueue.DepqStateMachine.FirstOfLowest` | src/collections/depq.rs:808-819 | the evicted key is one of the lowest priority in the whole queue |
| `PriorityQueue.DepqStateMachine.ApplyRemove` | src/collections/depq.rs:829-841 | removes the key from both indexes |
| `PriorityQueue.DepqStateMachine.ApplyRemoveRange` | src/collections/depq.rs:911-928 | keeps exactly the entries whose priority is out of range |
| `PriorityQueue.DepqStateMachine.ApplyBatch` | src/collections/depq.rs:856-966 | after any commands both indexes agree and hold the plain map's contents, which `EveryCommandLeaves` writes out, and the label counts the counted commands |
| `PriorityQueue.DepqStateMachine.ApplyOne` | src/collections/depq.rs:864-938 | one command in place leaves in a queue within capacity what is written out for it, and is not counted exactly when its exchange finds another value |
| `PriorityQueue.CommandsLeave` | src/collections/depq.rs:864-938 | what each command leaves as a map equation: an insertion overwrites, less one lowest-priority entry if a new key finds the queue full; a range removal keeps exactly what is outside its bounds; clearing, key removal, updates and exchanges likewise |
| `PriorityQueue.EveryCommandLeaves` | src/collections/depq.rs:864-938 | so it is at every command of every run |
| `PriorityQueue.ExtendKeepsLast` | src/collections/depq.rs:864-938 | extending a queue with room for all the keys leaves each key its last entry and the other keys what they had |
| `PriorityQueue.ServesLiveRequests` | src/collections/depq.rs:864-966 | a batch asks a node to serve exactly the unexpired requests of other peers in it |
| `PriorityQueue.PutWithinCapacity` | src/collections/depq.rs:777-826 | within capacity a put changes one key and costs at most one entry, of the lowest priority |
| `PriorityQueue.UpdatesEvictNothing` | src/collections/depq.rs:877-903 | changing a present key's priority or value never evicts |
| `PriorityQueue.RunStaysWithinCapacity` | src/collections/depq.rs:864-938 | no sequence of commands exceeds the capacity |
| `PriorityQueue.LabelExactCondition` | src/collections/depq.rs:877-937 | the batch counter equals the batch length if and only if no compare-exchange in it fails |
| `PriorityQueue.FailedExchangeShiftsLabel` | src/collections/depq.rs:878-880 | a snapshot labelled two commands on holds an entry that the queue after those two does not |
| `PriorityQueue.LabelsNameStates` | src/collections/depq.rs:864-966 | however the log was cut into single-term batches, the label has the index of the batch's last entry if and only if no exchange of the batch fails, and then it is the log's position there and names the snapshot's state |
| `PriorityQueue.Append` | src/collections/depq.rs:1134-1146 | the loop that appends snapshot items to both indexes |
| `PriorityQueue.SnapshotRoundTrip` | src/collections/depq.rs:1006-1016 | appending the enumeration of the key index to an empty snapshot, cut in any way, rebuilds both indexes exactly |
| `PriorityQueue.TwoPrioritiesDisagree` | src/collections/depq.rs:1134-1146 | one key under two priorities leaves the indexes in disagreement |
| `PriorityQueue.AppendExactCondition` | src/collections/depq.rs:1134-1146 | appending to an empty snapshot gives agreeing indexes if and only if no key comes with two priorities |
| `OrderMatching.MatchLevels` | examples/orderbook/src/matching.rs:69-148 | the nested loops end and give exactly the fills, remainder and book of matching the flat price-time queue |
| `OrderMatching.MatchLevel` | examples/orderbook/src/matching.rs:85-102 | the inner loop on one price level |
| `OrderMatching.MatchConsumesFromFront` | examples/orderbook/src/matching.rs:69-148 | matching leaves a suffix of the opposite queue with at most its head reduced |
| `OrderMatching.MatchFillsInTurn` | examples/orderbook/src/matching.rs:69-148 | fill i has the price of resting order i, which the incoming limit allows, the two ids on their sides, and all of that order's quantity unless it is the last fill |
| `OrderMatching.FillsPairOrders` | examples/orderbook/src/matching.rs:69-174 | after any commands every fill pairs a placed bid and a placed ask, at the price of whichever was placed first, within both limits and both quantities |
| `OrderMatching.MatchConserves` | examples/orderbook/src/matching.rs:69-148 | filled plus remaining is the order's quantity, and filled plus left is what rested |
| `OrderMatching.MatchIsExhaustive` | examples/orderbook/src/matching.rs:69-148 | an order keeps a remainder only when nothing more crosses its limit |
| `OrderMatching.RestingQueues` | examples/orderbook/src/matching.rs:150-165 | pushing on a price level queues behind every equal or better price |
| `OrderMatching.EnqueueInserts` | examples/orderbook/src/matching.rs:150-165 | where in the queue that is |
| `OrderMatching.CancellingRemoves` | examples/orderbook/src/matching.rs:167-174 | filtering level by level removes exactly the orders of that id from the flat queue |
| `OrderMatching.WithoutKeepsOthers` | examples/orderbook/src/matching.rs:167-174 | an order stays queued through a cancellation exactly when its id is another |
| `OrderMatching.OrderBook.MatchOrder` | examples/orderbook/src/matching.rs:69-148 | matches against the opposite side in place, fill i against its resting order i at that order's price, and leaves the own side alone |
| `OrderMatching.OrderBook.Place` | examples/orderbook/src/matching.rs:150-165 | match, then rest the remainder |
| `OrderMatching.OrderBook.Cancel` | examples/orderbook/src/matching.rs:167-174 | cancels on both sides and leaves no empty level |
| `OrderMatching.OrderBook.ApplyCommand` | examples/orderbook/src/matching.rs:187-192 | every command acts on the price levels as on the flat queues, and no level is empty |
| `OrderMatching.BookStaysSound` | examples/orderbook/src/matching.rs:69-174 | after any commands both sides are in price order, no order is empty and the book is uncrossed |
| `OrderMatching.QuantityIsConserved` | examples/orderbook/src/matching.rs:69-174 | on each side placed quantity equals filled plus resting plus cancelled |

## Left out

- Transport, links, bonds, gossip, DHT bootstrap and the command line: delivery is a nondeterministic step.
- Timers, wakers, wall-clock expiry and the TTL revival of served snapshots: they are nondeterministic events or parameters.
- Metrics, tracing, watchers, builders, configuration and macros: nothing to prove.
- Tickets, JWT, TDX, signatures and hashing: foreign cryptography.
- postcard encoding: taken as injective, so values are compared directly; the iteration order of a hash map is a fixed function of its contents.
- Log-replay sync: the session file is not part of this model; catch-up is by snapshot.
- Discovery catalogue and round-trip smoothing: much easier than the rest.
- Vec, Set, Cell and Once collections: the same shape as Map with easier state.
- Leader Completeness and unconditional State Machine Safety: the dynamic quorum does not promise them.
- Forwarding of commands to the leader, queries and their consistency levels: they only add easy members.
- Overflow of terms, indices and quantities: they are unbounded naturals.
- Restarts: votes and logs live in memory only.
- A RequestVote whose sender is not its candidate: the saved vote names the sender, as in the code, and runs only contain packets sent by their candidates.
- The pruning that follows a commit is a step of its own in the protocol, so runs include every interleaving of it.
- Fills carry no trading pair, and a book handles one pair.
- Priorities of the priority queue are integers instead of any ordered type; the `latest` watch channels are not modelled.
- The session object and the follower's catch-up buffer are modelled side by side: `CatchUp.FinalizeSync` and `RaftNodes.RaftNode.FinishCatchUp` both end in `SharedState.Shared.InstallAt`, the first with the map as machine and the second for any machine.
- VoterLogs.VotersHoldTheWinnersLog: holds for voters still in the leader's term, because a voter that moved to a later term can have replaced its log (`StaleCredit.CreditCanBeStale`).
- FetchScheduling.FetchesStayTidy: assumes each response answers its peer's current request, because a late one can sit below the gap (`FetchScheduling.LateResponseBlocks`).
- Progress of the network, that is, that requests are answered at all, is not modelled.
